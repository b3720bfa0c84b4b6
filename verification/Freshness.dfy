// When a document's freshness marker is set, over whole runs of the two stages in
// any order and with any failures: its controls are those of the last complete
// mapedges run, and every edge that run left is still stored.
module Freshness {
  import opened Grants
  import opened Silver
  import opened Stages

  datatype Event =
    | Normalized(doc: int)                                      // writeTree, to its end or to a failure
    // runMapEdges: done when nothing failed, with a stamp when no source was missing either
    | Mapped(keys: set<EdgeKey>, done: bool, stamp: Option<Time>)

  ghost predicate Next(a: Tables, b: Tables, e: Event) {
    && Wellformed(b)
    && match e
       case Normalized(d) => Rewrites(a, b, d)
       case Mapped(keys, done, stamp) =>
         IsoKeys(a) <= keys && Maps(a, b, keys, stamp) && (stamp.Some? ==> done) && (done ==> keys <= b.edges.Keys)
  }

  ghost predicate Unmarked(t: Tables) {
    Wellformed(t) && forall d :: d in t.docs ==> t.docs[d].mapedgesAt.None?
  }

  // The first n events of a run that starts without markers.
  ghost predicate RunTo(states: seq<Tables>, events: seq<Event>, n: nat)
    requires n < |states| && n <= |events|
    decreases n
  {
    if n == 0 then Unmarked(states[0])
    else RunTo(states, events, n - 1) && Next(states[n - 1], states[n], events[n - 1])
  }

  ghost predicate Run(states: seq<Tables>, events: seq<Event>) {
    |states| == |events| + 1 && RunTo(states, events, |events|)
  }

  lemma {:induction false} StepOf(states: seq<Tables>, events: seq<Event>, n: nat, k: nat)
    requires n < |states| && n <= |events| && RunTo(states, events, n) && k < n
    ensures Next(states[k], states[k + 1], events[k])
    decreases n
  {
    if k < n - 1 { StepOf(states, events, n - 1, k); }
  }

  lemma {:induction false} Prefix(states: seq<Tables>, events: seq<Event>, n: nat, k: nat)
    requires n < |states| && n <= |events| && RunTo(states, events, n) && k <= n
    ensures RunTo(states, events, k)
    decreases n
  {
    if k < n { Prefix(states, events, n - 1, k); }
  }

  // Targets of d's edges that are still stored are still named.
  ghost predicate TargetsHeld(s: Tables, t: Tables, d: int) {
    s.nextId <= t.nextId &&
    forall k :: k in s.edges && OfDoc(s, k.from, d) && s.edges[k].toControl.Some? && k in t.edges ==>
      s.edges[k].toControl.value in t.controls && s.edges[k].toControl.value < s.nextId ==>
        t.edges[k].toControl == s.edges[k].toControl
  }

  lemma TargetsHeldOn(s: Tables, a: Tables, b: Tables, d: int)
    requires TargetsHeld(s, a, d) && TargetsKept(a, b) && IdsGrow(a, b)
    requires forall k :: k in s.edges && OfDoc(s, k.from, d) ==> k in a.edges
    ensures TargetsHeld(s, b, d)
  {
  }

  // Nothing of document d has been lost between s and t, but for targets elsewhere.
  ghost predicate Preserved(s: Tables, t: Tables, d: int) {
    && TargetsHeld(s, t, d)
    && d in s.docs && d in t.docs && t.docs[d].framework == s.docs[d].framework
      && t.docs[d].version == s.docs[d].version
    && (forall c :: c in s.controls && s.controls[c].doc == d ==> c in t.controls && t.controls[c] == s.controls[c])
    && (forall c :: c in t.controls && t.controls[c].doc == d ==> c in s.controls && t.controls[c] == s.controls[c])
    && (forall k :: k in s.edges && OfDoc(s, k.from, d) ==> k in t.edges)
  }

  ghost predicate Fresh(t: Tables, d: int) {
    d in t.docs && t.docs[d].mapedgesAt.Some?
  }

  lemma RewriteKeepsFresh(s: Tables, a: Tables, b: Tables, d: int, x: int)
    requires Preserved(s, a, d) && Rewrites(a, b, x) && Fresh(b, d)
    ensures Preserved(s, b, d)
  {
    TargetsHeldOn(s, a, b, d);
    hide TargetsHeld, TargetsKept, IdsGrow;
    if x == d {
      assert b.controls == a.controls && b.edges.Keys == a.edges.Keys;
    } else {
      forall k | k in s.edges && OfDoc(s, k.from, d)
        ensures k in b.edges
      {
        assert OfDoc(a, k.from, d);
      }
    }
  }

  lemma RewriteNeedsFresh(a: Tables, b: Tables, d: int, x: int)
    requires Rewrites(a, b, x) && Fresh(b, d)
    ensures Fresh(a, d)
  {
  }

  lemma MapKeepsFresh(s: Tables, a: Tables, b: Tables, d: int, keys: set<EdgeKey>)
    requires Preserved(s, a, d) && Maps(a, b, keys, None) && Fresh(b, d)
    ensures Preserved(s, b, d)
  {
    TargetsHeldOn(s, a, b, d);
  }

  lemma CompleteRunIsPreserved(b: Tables, d: int)
    requires Fresh(b, d)
    ensures Preserved(b, b, d)
  {
  }

  predicate Complete(e: Event) {
    e.Mapped? && e.stamp.Some?
  }

  lemma EventKeepsFresh(a: Tables, b: Tables, e: Event, d: int)
    requires Next(a, b, e) && !Complete(e) && Fresh(b, d)
    ensures Fresh(a, d) && a.docs[d].mapedgesAt == b.docs[d].mapedgesAt
  {
    if e.Normalized? { RewriteNeedsFresh(a, b, d, e.doc); }
  }

  lemma EventPreserves(s: Tables, a: Tables, b: Tables, e: Event, d: int)
    requires Next(a, b, e) && !Complete(e) && Fresh(b, d) && Preserved(s, a, d)
    ensures Preserved(s, b, d)
  {
    match e
    case Normalized(x) => RewriteKeepsFresh(s, a, b, d, x);
    case Mapped(keys, _, _) => MapKeepsFresh(s, a, b, d, keys);
  }

  // The last complete mapedges run before a state in which d is fresh.
  lemma {:induction false} FreshSinceCompleteRun(states: seq<Tables>, events: seq<Event>, n: nat, d: int)
    returns (k: nat)
    requires n < |states| && n <= |events| && RunTo(states, events, n) && Fresh(states[n], d)
    ensures k < n && Complete(events[k])
    ensures Preserved(states[k + 1], states[n], d)
    ensures states[n].docs[d].mapedgesAt == events[k].stamp
    ensures forall j :: k < j < n ==> !Complete(events[j])
    ensures forall j :: k < j <= n ==> Fresh(states[j], d) && Preserved(states[k + 1], states[j], d)
    decreases n
  {
    assert n > 0;
    if Complete(events[n - 1]) {
      k := n - 1;
      CompleteRunIsPreserved(states[n], d);
    } else {
      EventKeepsFresh(states[n - 1], states[n], events[n - 1], d);
      k := FreshSinceCompleteRun(states, events, n - 1, d);
      EventPreserves(states[k + 1], states[n - 1], states[n], events[n - 1], d);
    }
  }

  // A fresh document still has every control and every outbound edge that the last
  // complete mapedges run left, among them all edges that run emitted.
  lemma {:induction false} FreshDocumentKeepsItsEdges(states: seq<Tables>, events: seq<Event>, n: nat, d: int)
    returns (k: nat)
    requires Run(states, events) && n < |states| && Fresh(states[n], d)
    ensures k < n && Complete(events[k])
    ensures Controls(states[n], d) == Controls(states[k + 1], d)
    ensures forall e :: e in states[k + 1].edges && OfDoc(states[k + 1], e.from, d) ==> e in states[n].edges
    ensures forall e :: e in events[k].keys && OfDoc(states[k], e.from, d) ==> e in states[n].edges
  {
    Prefix(states, events, |events|, n);
    k := FreshSinceCompleteRun(states, events, n, d);
    StepOf(states, events, n, k);
    forall c ensures c in Controls(states[n], d) <==> c in Controls(states[k + 1], d) {}
    forall e | e in events[k].keys && OfDoc(states[k], e.from, d)
      ensures e in states[n].edges
    {
      assert OfDoc(states[k + 1], e.from, d);
    }
  }

  // --- Targets ---

  lemma {:induction false} AllWellformed(states: seq<Tables>, events: seq<Event>, n: nat, k: nat)
    requires n < |states| && n <= |events| && RunTo(states, events, n) && k <= n
    ensures Wellformed(states[k])
    decreases n
  {
    if k < n { AllWellformed(states, events, n - 1, k); }
  }

  // The last complete run before a state in which d is fresh is event k.
  ghost predicate FreshSince(states: seq<Tables>, events: seq<Event>, k: nat, n: nat, d: int)
    requires n < |states| && n <= |events|
  {
    && k < n && Complete(events[k]) && (forall j :: k < j < n ==> !Complete(events[j]))
    && (forall j :: k < j <= n ==> Fresh(states[j], d) && Preserved(states[k + 1], states[j], d))
  }

  lemma FreshTargetIsThere(states: seq<Tables>, events: seq<Event>, n: nat, k: nat, d: int, c: int)
    requires n < |states| && n <= |events| && RunTo(states, events, n) && Fresh(states[n], d)
    requires k < n && Complete(events[k]) && forall j :: k < j < n ==> !Complete(events[j])
    requires OfDoc(states[k + 1], c, d)
    ensures c in states[n].controls
  {
    var m := FreshSinceCompleteRun(states, events, n, d);
    assert m == k;
  }

  lemma TargetIsStored(t: Tables, e: EdgeKey, c: int)
    requires Wellformed(t) && e in t.edges && t.edges[e].toControl == Some(c)
    ensures c in t.controls
  {
  }

  lemma HeldTarget(s: Tables, t: Tables, d: int, e: EdgeKey, c: int)
    requires Wellformed(s) && Wellformed(t) && Preserved(s, t, d)
    requires e in s.edges && OfDoc(s, e.from, d) && s.edges[e].toControl == Some(c)
    ensures c in s.controls && e in t.edges && (t.edges[e].toControl == Some(c) <==> c in t.controls)
  {
    TargetIsStored(s, e, c);
    if t.edges[e].toControl == Some(c) { TargetIsStored(t, e, c); }
  }

  // An edge of a fresh document keeps the target it had after the complete run if and
  // only if that control is still stored, as it is when its document is fresh too. A
  // rebuild of the target's document takes it away without touching this marker.
  lemma {:induction false} FreshEdgeKeepsTarget(states: seq<Tables>, events: seq<Event>, n: nat, d: int, e: EdgeKey,
                                                c: int) returns (k: nat)
    requires Run(states, events) && n < |states| && Fresh(states[n], d)
    ensures k < n && Complete(events[k]) && states[n].docs[d].mapedgesAt == events[k].stamp
    ensures var s, t := states[k + 1], states[n];
            e in s.edges && OfDoc(s, e.from, d) && s.edges[e].toControl == Some(c) ==>
              && e in t.edges && (t.edges[e].toControl == Some(c) <==> c in t.controls)
              && c in s.controls && (Fresh(t, s.controls[c].doc) ==> c in t.controls)
  {
    Prefix(states, events, |events|, n);
    k := FreshSinceCompleteRun(states, events, n, d);
    AllWellformed(states, events, n, k + 1);
    AllWellformed(states, events, n, n);
    var s, t := states[k + 1], states[n];
    hide Preserved, RunTo, Wellformed;
    if e in s.edges && OfDoc(s, e.from, d) && s.edges[e].toControl == Some(c) {
      HeldTarget(s, t, d, e, c);
      if Fresh(t, s.controls[c].doc) {
        FreshTargetIsThere(states, events, n, k, s.controls[c].doc, c);
      }
    }
  }

  // --- Structural edges ---

  lemma SameVersion(s: Tables, t: Tables, d: int, c: int, framework: string, kind: string)
    requires Preserved(s, t, d) && OfDoc(t, c, d) && InVersion(t, c, framework, kind)
    ensures OfDoc(s, c, d) && InVersion(s, c, framework, kind) && s.controls[c] == t.controls[c]
  {
  }

  lemma VersionStays(s: Tables, t: Tables, d: int, c: int, framework: string, kind: string)
    requires Preserved(s, t, d) && OfDoc(s, c, d) && InVersion(s, c, framework, kind)
    ensures OfDoc(t, c, d) && InVersion(t, c, framework, kind) && s.controls[c] == t.controls[c]
  {
  }

  lemma BeforeTheRun(a: Tables, b: Tables, keys: set<EdgeKey>, stamp: Option<Time>, c: int, framework: string,
                     kind: string)
    requires Maps(a, b, keys, stamp) && InVersion(b, c, framework, kind)
    ensures InVersion(a, c, framework, kind) && a.controls[c] == b.controls[c]
  {
  }

  // A fresh document's Annex A controls all have their edge to ISO 27002.
  lemma {:induction false} FreshAnnexControlsAreMapped(states: seq<Tables>, events: seq<Event>, n: nat, d: int, c: int)
    requires Run(states, events) && n < |states| && Fresh(states[n], d)
    requires c in Annex(states[n]) && OfDoc(states[n], c, d) && "A." <= states[n].controls[c].citationNorm
    ensures ForwardKey(states[n], c) in states[n].edges
  {
    Prefix(states, events, |events|, n);
    var k := FreshSinceCompleteRun(states, events, n, d);
    var a, s, t := states[k], states[k + 1], states[n];
    StepOf(states, events, n, k);
    SameVersion(s, t, d, c, "iso27001", "annex-control");
    BeforeTheRun(a, s, events[k].keys, events[k].stamp, c, "iso27001", "annex-control");
    assert ForwardKey(a, c) in ForwardKeys(a, Annex(a));
    assert ForwardKey(a, c) in s.edges;
  }

  // What the other sources emit is not of the structural source.
  predicate OthersElsewhere(t: Tables, keys: set<EdgeKey>) {
    forall k :: k in keys && k !in IsoKeys(t) ==> k.source != "iso-structural"
  }

  // A complete run leaves every ISO 27002 control with its edge exactly when there is an
  // Annex A control, or nothing was missing before; what other sources emit is no matter.
  lemma {:induction false} ReverseEdgesNeedAnnex(a: Tables, b: Tables, keys: set<EdgeKey>, now: Time)
    requires Wellformed(a) && IsoKeys(a) <= keys && OthersElsewhere(a, keys) && Maps(a, b, keys, Some(now))
    ensures (forall c :: c in Catalogue(b) ==> BackKey(b, c) in b.edges)
       <==> Annex(a) != {} || (forall c :: c in Catalogue(a) ==> BackKey(a, c) in a.edges)
  {
    forall c ensures c in Catalogue(a) <==> c in Catalogue(b) {}
    forall c | c in Catalogue(a)
      ensures BackKey(a, c) == BackKey(b, c)
      ensures BackKey(a, c) in b.edges <==> Annex(a) != {} || BackKey(a, c) in a.edges
    {
      MapsOneKey(a, b, keys, true, Some(now), c);
    }
  }

  // One run of mapedges and one ISO 27002 control.
  lemma MapsOneKey(a: Tables, b: Tables, keys: set<EdgeKey>, done: bool, stamp: Option<Time>, c: int)
    requires IsoKeys(a) <= keys && Maps(a, b, keys, stamp) && c in Catalogue(a)
    requires done ==> keys <= b.edges.Keys
    ensures OthersElsewhere(a, keys) && BackKey(a, c) in b.edges ==> Annex(a) != {} || BackKey(a, c) in a.edges
    ensures done && Annex(a) != {} ==> BackKey(a, c) in b.edges
    ensures BackKey(a, c) in a.edges ==> BackKey(a, c) in b.edges
  {
    if Annex(a) != {} { assert BackKey(a, c) in BackKeys(a, Catalogue(a)); }
  }

  // Some run of mapedges among events k to n - 1 found an Annex A control.
  ghost predicate SawAnnex(states: seq<Tables>, events: seq<Event>, k: nat, n: nat)
    requires n <= |states| && n <= |events|
  {
    exists j :: k <= j < n && events[j].Mapped? && Annex(states[j]) != {}
  }

  // Some such run went through to its end.
  ghost predicate MappedAnnex(states: seq<Tables>, events: seq<Event>, k: nat, n: nat)
    requires n <= |states| && n <= |events|
  {
    exists j :: k <= j < n && events[j].Mapped? && events[j].done && Annex(states[j]) != {}
  }

  ghost predicate NoneFailed(events: seq<Event>, k: nat, n: nat)
    requires n <= |events|
  {
    forall j :: k <= j < n && events[j].Mapped? ==> events[j].done
  }

  // From event k on, only the structural source emits structural edges.
  ghost predicate OthersElsewhereFrom(states: seq<Tables>, events: seq<Event>, k: nat, n: nat)
    requires n <= |states| && n <= |events|
  {
    forall j :: k <= j < n && events[j].Mapped? ==> OthersElsewhere(states[j], events[j].keys)
  }

  lemma RewriteKeepsKey(a: Tables, b: Tables, x: int, d: int, key: EdgeKey)
    requires Rewrites(a, b, x) && Fresh(b, d) && OfDoc(a, key.from, d) && OfDoc(b, key.from, d)
    ensures key in b.edges <==> key in a.edges
  {
    if x == d { assert b.edges.Keys == a.edges.Keys; }
  }

  // One event and one ISO 27002 control of a document that is fresh behind it.
  lemma MappedStep(a: Tables, b: Tables, e: Event, d: int, c: int, key: EdgeKey)
    requires Next(a, b, e) && Fresh(b, d)
    requires c in Catalogue(a) && OfDoc(a, c, d) && OfDoc(b, c, d) && key == BackKey(a, c)
    ensures key in a.edges || (e.Mapped? && e.done && Annex(a) != {}) ==> key in b.edges
    ensures (e.Mapped? ==> OthersElsewhere(a, e.keys)) && key in b.edges ==>
              key in a.edges || (e.Mapped? && Annex(a) != {})
  {
    match e
    case Normalized(x) => RewriteKeepsKey(a, b, x, d, key);
    case Mapped(keys, done, stamp) => MapsOneKey(a, b, keys, done, stamp, c);
  }

  // An edge is there if it was before event k or a run since has gone through with Annex
  // A controls; and, unless another source emits it, only if such a run at least began.
  ghost predicate MappedFor(states: seq<Tables>, events: seq<Event>, k: nat, m: nat, key: EdgeKey)
    requires k <= m < |states| && m <= |events|
  {
    && (key in states[k].edges || MappedAnnex(states, events, k, m) ==> key in states[m].edges)
    && (OthersElsewhereFrom(states, events, k, m) && key in states[m].edges ==>
          key in states[k].edges || SawAnnex(states, events, k, m))
  }

  // The control is the same ISO 27002 control of the fresh document d in this state.
  ghost predicate IsMember(t: Tables, d: int, c: int, key: EdgeKey) {
    Fresh(t, d) && c in Catalogue(t) && OfDoc(t, c, d) && BackKey(t, c) == key
  }

  lemma MappedOnce(states: seq<Tables>, events: seq<Event>, k: nat, m: nat, d: int, c: int, key: EdgeKey)
    requires k < m < |states| && m <= |events| && Next(states[m - 1], states[m], events[m - 1])
    requires c in Catalogue(states[m - 1]) && OfDoc(states[m - 1], c, d) && BackKey(states[m - 1], c) == key
    requires IsMember(states[m], d, c, key) && MappedFor(states, events, k, m - 1, key)
    ensures MappedFor(states, events, k, m, key)
  {
    MappedStep(states[m - 1], states[m], events[m - 1], d, c, key);
    hide Next, OthersElsewhere, Annex, Catalogue;
  }

  lemma MappedBefore(states: seq<Tables>, events: seq<Event>, k: nat, key: EdgeKey)
    requires k < |states| && k <= |events|
    ensures MappedFor(states, events, k, k, key)
  {
  }

  lemma {:induction false} MappedSince(states: seq<Tables>, events: seq<Event>, k: nat, m: nat, n: nat, d: int, c: int,
                                       key: EdgeKey)
    requires k < m <= n < |states| && n <= |events| && RunTo(states, events, n)
    requires c in Catalogue(states[k]) && OfDoc(states[k], c, d) && BackKey(states[k], c) == key
    requires forall j :: k < j <= n ==> IsMember(states[j], d, c, key)
    ensures MappedFor(states, events, k, m, key)
    decreases m
  {
    hide RunTo, Next, MappedFor;
    StepOf(states, events, n, m - 1);
    if m == k + 1 {
      MappedBefore(states, events, k, key);
    } else {
      MappedSince(states, events, k, m - 1, n, d, c, key);
    }
    MappedOnce(states, events, k, m, d, c, key);
  }

  lemma CatalogueStays(states: seq<Tables>, events: seq<Event>, k: nat, n: nat, d: int, c: int)
    requires n < |states| && n <= |events| && RunTo(states, events, n) && FreshSince(states, events, k, n, d)
    requires c in Catalogue(states[n]) && OfDoc(states[n], c, d)
    ensures c in Catalogue(states[k]) && OfDoc(states[k], c, d) && BackKey(states[k], c) == BackKey(states[n], c)
    ensures forall j :: k < j <= n ==> IsMember(states[j], d, c, BackKey(states[n], c))
  {
    StepOf(states, events, n, k);
    SameVersion(states[k + 1], states[n], d, c, "iso27002", "control");
    BeforeTheRun(states[k], states[k + 1], events[k].keys, events[k].stamp, c, "iso27002", "control");
    forall j | k < j <= n
      ensures IsMember(states[j], d, c, BackKey(states[n], c))
    {
      VersionStays(states[k + 1], states[j], d, c, "iso27002", "control");
    }
  }

  // Whatever runs failed on their way: an ISO 27002 control of a fresh document has its
  // edge if it had it before the run that set the marker, or some run from that one on
  // saw an Annex A control and went through. Where no other source emits structural
  // edges from that run on, it has it only if some such run at least saw one.
  lemma {:induction false} FreshCatalogueMapped(states: seq<Tables>, events: seq<Event>, n: nat, d: int)
    returns (k: nat)
    requires Run(states, events) && n < |states| && Fresh(states[n], d)
    ensures k < n && Complete(events[k]) && events[k].done && states[n].docs[d].mapedgesAt == events[k].stamp
    ensures forall c :: c in Catalogue(states[n]) && OfDoc(states[n], c, d) ==>
              c in states[k].controls && BackKey(states[k], c) == BackKey(states[n], c)
              && MappedFor(states, events, k, n, BackKey(states[n], c))
  {
    Prefix(states, events, |events|, n);
    k := FreshSinceCompleteRun(states, events, n, d);
    StepOf(states, events, n, k);
    assert FreshSince(states, events, k, n, d);
    hide RunTo, Next, MappedFor, FreshSince, Fresh;
    forall c | c in Catalogue(states[n]) && OfDoc(states[n], c, d)
      ensures c in states[k].controls && BackKey(states[k], c) == BackKey(states[n], c)
      ensures MappedFor(states, events, k, n, BackKey(states[n], c))
    {
      CatalogueStays(states, events, k, n, d, c);
      MappedSince(states, events, k, n, n, d, c, BackKey(states[n], c));
    }
  }

  // When the run that set the marker saw an Annex A control, every ISO 27002 control of
  // the fresh document has its structural edge, with any failures and any other sources.
  lemma {:induction false} FreshCatalogueControlsAreMapped(states: seq<Tables>, events: seq<Event>, n: nat, d: int)
    returns (k: nat)
    requires Run(states, events) && n < |states| && Fresh(states[n], d)
    ensures k < n && Complete(events[k]) && states[n].docs[d].mapedgesAt == events[k].stamp
    ensures Annex(states[k]) != {} ==> MappedWhole(states[n], states[n], d)
  {
    k := FreshCatalogueMapped(states, events, n, d);
  }

  // After runs none of which failed on its way, exactly then.
  lemma {:induction false} FreshCatalogueMappedExactly(states: seq<Tables>, events: seq<Event>, n: nat, d: int)
    returns (k: nat)
    requires Run(states, events) && n < |states| && Fresh(states[n], d)
    ensures k < n && Complete(events[k]) && states[n].docs[d].mapedgesAt == events[k].stamp
    ensures OthersElsewhereFrom(states, events, k, n) && NoneFailed(events, k, n) ==>
              forall c :: c in Catalogue(states[n]) && OfDoc(states[n], c, d) ==>
                var key := BackKey(states[n], c);
                key in states[n].edges <==> key in states[k].edges || SawAnnex(states, events, k, n)
  {
    k := FreshCatalogueMapped(states, events, n, d);
    if NoneFailed(events, k, n) { AllSeenAreMapped(states, events, k, n); }
    hide SawAnnex, MappedAnnex, NoneFailed, OthersElsewhereFrom;
  }

  lemma AllSeenAreMapped(states: seq<Tables>, events: seq<Event>, k: nat, n: nat)
    requires n <= |states| && n <= |events| && NoneFailed(events, k, n)
    ensures SawAnnex(states, events, k, n) <==> MappedAnnex(states, events, k, n)
  {
  }

  // So a fresh ISO 27002 document is mapped whole if everything was mapped before or some
  // run since went through with Annex A controls, and only if everything was or some run
  // since saw one: after runs that did not fail, if and only if.
  lemma {:induction false} FreshCatalogueNeedsAnnex(states: seq<Tables>, events: seq<Event>, n: nat, d: int)
    returns (k: nat)
    requires Run(states, events) && n < |states| && Fresh(states[n], d)
    ensures k < n && Complete(events[k]) && states[n].docs[d].mapedgesAt == events[k].stamp
    ensures MappedAnnex(states, events, k, n) || MappedWhole(states[n], states[k], d) ==>
              MappedWhole(states[n], states[n], d)
    ensures OthersElsewhereFrom(states, events, k, n) && MappedWhole(states[n], states[n], d) ==>
              SawAnnex(states, events, k, n) || MappedWhole(states[n], states[k], d)
    ensures OthersElsewhereFrom(states, events, k, n) && NoneFailed(events, k, n) ==>
              (MappedWhole(states[n], states[n], d)
               <==> SawAnnex(states, events, k, n) || MappedWhole(states[n], states[k], d))
  {
    k := FreshCatalogueMapped(states, events, n, d);
    if NoneFailed(events, k, n) { AllSeenAreMapped(states, events, k, n); }
    hide SawAnnex, MappedAnnex, NoneFailed, OthersElsewhereFrom;
  }

  // The document's ISO 27002 controls in t have their edges stored in s.
  ghost predicate MappedWhole(t: Tables, s: Tables, d: int) {
    forall c :: c in Catalogue(t) && OfDoc(t, c, d) ==> BackKey(t, c) in s.edges
  }

  lemma MarkingIsNext(a: Tables, now: Time)
    requires Wellformed(a) && IsoKeys(a) <= a.edges.Keys
    ensures Next(a, MarkAll(a, now), Mapped(IsoKeys(a), true, Some(now)))
  {
    hide IsoKeys;
  }

  // ISO 27002 alone: the run is complete, its document is stamped fresh, and its
  // control has no structural edge.
  lemma {:induction false} FreshWithoutStructuralEdge(now: Time)
    ensures var doc := Doc("iso27002|2022|main", "iso27002", "2022", None);
            var ctl := Ctl(1, None, "5.1", "5.1", "control", "active", "", 0);
            var a := Tables(map[1 := doc], map[2 := ctl], map[], 3);
            var b := MarkAll(a, now);
            && Wellformed(a) && Run([a, b], [Mapped(IsoKeys(a), true, Some(now))])
            && Fresh(b, 1) && 2 in Catalogue(b) && BackKey(b, 2) !in b.edges
  {
    var doc := Doc("iso27002|2022|main", "iso27002", "2022", None);
    var ctl := Ctl(1, None, "5.1", "5.1", "control", "active", "", 0);
    var a := Tables(map[1 := doc], map[2 := ctl], map[], 3);
    var b := MarkAll(a, now);
    assert Annex(a) == {};
    MarkingIsNext(a, now);
    hide Next;
    assert RunTo([a, b], [Mapped(IsoKeys(a), true, Some(now))], 0);
  }
}
