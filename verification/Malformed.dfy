// The loop on prose and parameters of any kind, malformed inserts included: up to the
// first malformed insert in substitution order it is the recursive substitution; there it
// panics, stops early, or swallows text that follows.
module Malformed {
  import opened Rewriting
  import opened Searching
  import opened Inserts

  // --- Substitution up to the first malformed reference ---

  datatype Walked =
    | Done(text: string)
    | Stuck(done: string, rest: string)   // rest begins with no well-formed reference
    | Deep                                // references go deeper than the bound

  ghost function Walk(r: Rules, d: nat, s: string): Walked
    decreases d, |s|
  {
    match r.cut(s)
    case Whole => Done(s)
    case Broken => Stuck("", s)
    case Cut(before, id, after) =>
      if d == 0 || |after| >= |s| then Deep else After(before, Walk(r, d - 1, r.fill(id)), Walk(r, d, after), after)
  }

  // The filling's walk, then that of what follows it.
  function After(before: string, filling: Walked, following: Walked, after: string): Walked {
    match filling
    case Deep => Deep
    case Stuck(done, rest) => Stuck(before + done, rest + after)
    case Done(text) =>
      (match following
       case Deep => Deep
       case Stuck(done, rest) => Stuck(before + text + done, rest)
       case Done(more) => Done(before + text + more))
  }

  // Rules that hold whatever the texts are.
  ghost predicate Cutting(r: Rules) {
    && CutsApartEverywhere(r) && CutsLeftmost(r) && FillsInBrackets(r)
    && (forall s :: r.cut(s).Cut? ==> r.cut(s).before <= s)
    && r.cut("").Whole?
  }

  // n passes over well-formed leftmost references lead from s to t.
  ghost predicate Leads(r: Rules, s: string, n: nat, t: string)
    decreases n
  {
    if n == 0 then s == t else r.cut(s).Cut? && Leads(r, Pass(r, s), n - 1, t)
  }

  lemma {:induction false} LeadsOn(r: Rules, s: string, n: nat, t: string, m: nat, u: string)
    requires Leads(r, s, n, t) && Leads(r, t, m, u)
    ensures Leads(r, s, n + m, u)
    decreases n
  {
    if n > 0 { LeadsOn(r, Pass(r, s), n - 1, t, m, u); }
  }

  lemma TwoWhole(r: Rules, x: string, y: string)
    requires CutsApartEverywhere(r) && r.cut(x).Whole? && r.cut(y).Whole? && Border(x, y)
    ensures r.cut(x + y).Whole?
  {
    assert CutsApart(r, x, y);
  }

  lemma WalkOfCut(r: Rules, d: nat, s: string)
    requires Walk(r, d, s).Done? && r.cut(s).Cut?
    ensures var c := r.cut(s);
            && d > 0 && |c.after| < |s| && Walk(r, d - 1, r.fill(c.id)).Done? && Walk(r, d, c.after).Done?
            && Walk(r, d, s).text == c.before + Walk(r, d - 1, r.fill(c.id)).text + Walk(r, d, c.after).text
  {
  }

  lemma WalkOfWhole(r: Rules, d: nat, s: string)
    requires Walk(r, d, s).Done? && !r.cut(s).Cut?
    ensures r.cut(s).Whole? && Walk(r, d, s).text == s
  {
  }

  // s starts as before does, or as the text that takes the reference's place; it ends as
  // after does.
  lemma CutEnds(r: Rules, s: string)
    requires Cutting(r) && r.cut(s).Cut?
    ensures var c := r.cut(s);
            && r.cut(c.before).Whole? && (c.before != [] ==> s != [] && c.before[0] == s[0])
            && (c.after != [] ==> s != [] && c.after[|c.after| - 1] == s[|s| - 1])
            && Bracketed(r.fill(c.id))
  {
  }

  // The parts that a pass and two walks leave, put together.
  lemma JoinedEnds(r: Rules, before: string, text: string, more: string)
    requires CutsApartEverywhere(r) && r.cut(before).Whole? && r.cut(text).Whole? && Bracketed(text)
    requires more == [] || r.cut(more).Whole?
    ensures var t := before + text + more;
            && r.cut(t).Whole? && t != [] && t[0] == (if before != [] then before[0] else '[')
            && t[|t| - 1] == (if more != [] then more[|more| - 1] else ']')
  {
    TwoWhole(r, before, text);
    if more == [] {
      assert before + text + more == before + text;
    } else {
      TwoWhole(r, before + text, more);
    }
  }

  // A walked text keeps the brackets at its ends.
  lemma {:induction false} WalkKeepsEnds(r: Rules, d: nat, s: string)
    requires Cutting(r) && Walk(r, d, s).Done? && s != []
    ensures var t := Walk(r, d, s).text;
            && r.cut(t).Whole? && t != [] && (s[0] == '[' ==> t[0] == '[') && (s[|s| - 1] == ']' ==> t[|t| - 1] == ']')
    decreases d, |s|
  {
    hide CutsApartEverywhere, CutsLeftmost, FillsInBrackets, Walk;
    var c := r.cut(s);
    if c.Cut? {
      WalkOfCut(r, d, s);
      CutEnds(r, s);
      WalkKeepsEnds(r, d - 1, r.fill(c.id));
      if c.after != [] {
        WalkKeepsEnds(r, d, c.after);
      } else {
        WalkOfWhole(r, d, c.after);
      }
      JoinedEnds(r, c.before, Walk(r, d - 1, r.fill(c.id)).text, Walk(r, d, c.after).text);
    } else {
      WalkOfWhole(r, d, s);
    }
  }

  // Where the loop stands in a text: after a settled part u, before a part v still to come.
  ghost predicate Behind(r: Rules, u: string, s: string) {
    r.cut(u).Whole? && (u == [] || u[|u| - 1] == ']' || (s != [] && s[0] == '['))
  }

  lemma OnePassInside(r: Rules, u: string, s: string, v: string)
    requires Cutting(r) && Behind(r, u, s) && r.cut(s).Cut?
    ensures var c := r.cut(s);
            && r.cut(u + s + v).Cut? && Pass(r, u + s + v) == (u + c.before) + r.fill(c.id) + (c.after + v)
            && Behind(r, u + c.before, r.fill(c.id))
  {
    var c := r.cut(s);
    assert CutsApart(r, s, v);
    assert s != [];
    assert (s + v)[0] == s[0];
    assert CutsApart(r, u, s + v) && u + (s + v) == u + s + v;
    assert Bracketed(r.fill(c.id));
    assert CutsApart(r, u, c.before);
    assert c.before != [] ==> c.before[0] == s[0];
  }

  lemma BehindFilling(r: Rules, u: string, before: string, text: string, after: string)
    requires Cutting(r) && r.cut(u + before).Whole? && r.cut(text).Whole? && Bracketed(text)
    ensures Behind(r, u + before + text, after)
  {
    TwoWhole(r, u + before, text);
  }

  // What the walk of a part s of the text means for the loop on the whole.
  ghost predicate WalkedTo(r: Rules, w: Walked, u: string, s: string, v: string, n: nat) {
    match w
    case Done(t) => Leads(r, u + s + v, n, u + t + v)
    case Stuck(done, rest) => Leads(r, u + s + v, n, u + done + rest + v) && r.cut(u + done).Whole?
    case Deep => true
  }

  lemma {:induction false} LoopFollowsWalk(r: Rules, d: nat, u: string, s: string, v: string) returns (n: nat)
    requires Cutting(r) && Behind(r, u, s)
    ensures WalkedTo(r, Walk(r, d, s), u, s, v, n)
    decreases d, |s|, 1
  {
    n := 0;
    match r.cut(s)
    case Whole =>
    case Broken =>
      assert u + "" == u;
    case Cut(before, id, after) =>
      if d > 0 {
        OnePassInside(r, u, s, v);
        var m := LoopFollowsWalk(r, d - 1, u + before, r.fill(id), after + v);
        if Walk(r, d - 1, r.fill(id)).Done? {
          n := WalkOn(r, d, u, s, v, m);
        } else {
          StuckInFilling(r, d, u, s, v, m);
          n := m + 1;
        }
      }
  }

  lemma StuckInFilling(r: Rules, d: nat, u: string, s: string, v: string, m: nat)
    requires Cutting(r) && Behind(r, u, s) && r.cut(s).Cut? && d > 0 && !Walk(r, d - 1, r.fill(r.cut(s).id)).Done?
    requires var c := r.cut(s);
             WalkedTo(r, Walk(r, d - 1, r.fill(c.id)), u + c.before, r.fill(c.id), c.after + v, m)
    ensures WalkedTo(r, Walk(r, d, s), u, s, v, m + 1)
  {
    var c := r.cut(s);
    var first := Walk(r, d - 1, r.fill(c.id));
    OnePassInside(r, u, s, v);
    if first.Stuck? { StuckStays(u, c.before, first.done, first.rest, c.after, v); }
  }

  lemma StuckStays(u: string, before: string, done: string, rest: string, after: string, v: string)
    ensures u + before + done + rest + (after + v) == u + (before + done) + (rest + after) + v
    ensures u + before + done == u + (before + done)
  {
    assert u + before + done == u + (before + done);
    var x := u + (before + done);
    assert x + rest + (after + v) == x + (rest + after) + v;
  }

  lemma Regrouped(u: string, before: string, text: string, more: string, after: string, v: string)
    ensures (u + before) + text + (after + v) == (u + before + text) + after + v
    ensures (u + before + text) + more + v == u + (before + text + more) + v
    ensures (u + before + text) + more == u + (before + text + more)
  {
    var x := u + before + text;
    assert x + (after + v) == x + after + v;
    assert x == u + (before + text);
    assert u + (before + text) + more == u + (before + text + more);
  }

  // After the pass and the walk of the filling, the walk of what follows.
  lemma {:induction false} WalkOn(r: Rules, d: nat, u: string, s: string, v: string, m: nat) returns (n: nat)
    requires Cutting(r) && Behind(r, u, s) && r.cut(s).Cut? && d > 0 && Walk(r, d - 1, r.fill(r.cut(s).id)).Done?
    requires var c := r.cut(s);
             WalkedTo(r, Walk(r, d - 1, r.fill(c.id)), u + c.before, r.fill(c.id), c.after + v, m)
    ensures WalkedTo(r, Walk(r, d, s), u, s, v, n)
    decreases d, |s|, 0
  {
    hide CutsApart, Behind, Leads, Pass, Walk;
    var c := r.cut(s);
    var text := Walk(r, d - 1, r.fill(c.id)).text;
    OnePassInside(r, u, s, v);
    assert Bracketed(r.fill(c.id));
    WalkKeepsEnds(r, d - 1, r.fill(c.id));
    BehindFilling(r, u, c.before, text, c.after);
    var k := LoopFollowsWalk(r, d, u + c.before + text, c.after, v);
    n := m + k + 1;
    JoinWalks(r, d, u, s, v, m, k);
  }

  lemma JoinWalks(r: Rules, d: nat, u: string, s: string, v: string, m: nat, k: nat)
    requires r.cut(s).Cut? && d > 0 && |r.cut(s).after| < |s| && Walk(r, d - 1, r.fill(r.cut(s).id)).Done?
    requires var c, text := r.cut(s), Walk(r, d - 1, r.fill(r.cut(s).id)).text;
             && r.cut(u + s + v).Cut? && Pass(r, u + s + v) == (u + c.before) + r.fill(c.id) + (c.after + v)
             && Leads(r, (u + c.before) + r.fill(c.id) + (c.after + v), m, (u + c.before) + text + (c.after + v))
             && WalkedTo(r, Walk(r, d, c.after), u + c.before + text, c.after, v, k)
    ensures WalkedTo(r, Walk(r, d, s), u, s, v, m + k + 1)
  {
    var c, text := r.cut(s), Walk(r, d - 1, r.fill(r.cut(s).id)).text;
    var t1, t2 := (u + c.before) + r.fill(c.id) + (c.after + v), (u + c.before) + text + (c.after + v);
    match Walk(r, d, c.after)
    case Deep =>
    case Done(more) =>
      Regrouped(u, c.before, text, more, c.after, v);
      LeadsOn(r, t1, m, t2, k, u + (c.before + text + more) + v);
    case Stuck(done, rest) =>
      Regrouped(u, c.before, text, done, c.after, v);
      assert (u + c.before + text) + done + rest + v == u + (c.before + text + done) + rest + v;
      LeadsOn(r, t1, m, t2, k, u + (c.before + text + done) + rest + v);
  }

  // --- The loop over inserts ---

  // n passes of the loop lead from s to t.
  ghost predicate PassesTo(params: Params, s: string, n: nat, t: string)
    decreases n
  {
    if n == 0 then s == t else OnePass(params, s).Rewritten? && PassesTo(params, OnePass(params, s).text, n - 1, t)
  }

  lemma InsertsAreCutting(params: Params)
    ensures Cutting(InsertRules(params))
  {
    var r := InsertRules(params);
    assert CutsApartEverywhere(r) by {
      forall u, v ensures CutsApart(r, u, v) { InsertCutsApart(r, u, v); }
    }
    InsertsAreLeftmost(r);
    forall s | r.cut(s).Cut? ensures r.cut(s).before <= s { SplitJoins(s, OPEN); }
  }

  lemma CutIsOnePass(params: Params, s: string)
    requires FirstInsert(s).Cut?
    ensures OnePass(params, s) == Rewritten(Pass(InsertRules(params), s))
  {
    assert '}' !in OPEN;
    SliceIsCut(s, OPEN, CLOSE);
  }

  lemma {:induction false} LeadsIsPasses(params: Params, s: string, n: nat, t: string)
    requires Leads(InsertRules(params), s, n, t)
    ensures PassesTo(params, s, n, t)
    decreases n
  {
    hide FirstInsert, OnePass, Body, Pass;
    if n > 0 {
      CutIsOnePass(params, s);
      LeadsIsPasses(params, Pass(InsertRules(params), s), n - 1, t);
    }
  }

  // The loop comes to this text.
  ghost predicate Comes(params: Params, prose: string, t: string) {
    exists n: nat :: PassesTo(params, prose, n, t)
  }

  // Without a malformed insert on the way the loop ends with the substitution.
  lemma {:induction false} WalkedProseSettles(params: Params, prose: string, d: nat)
    requires Walk(InsertRules(params), d, prose).Done?
    ensures var t := Walk(InsertRules(params), d, prose).text;
            Comes(params, prose, t) && OnePass(params, t).Settled? && !Has(t, OPEN)
  {
    var r := InsertRules(params);
    InsertsAreCutting(params);
    hide Cutting, FirstInsert, Body, OnePass;
    var n := LoopFollowsWalk(r, d, "", prose, "");
    var t := Walk(r, d, prose).text;
    assert "" + prose + "" == prose && "" + t + "" == t;
    LeadsIsPasses(params, prose, n, t);
    if prose != [] { WalkKeepsEnds(r, d, prose); }
    WholeSettles(params, t);
  }

  lemma WholeSettles(params: Params, t: string)
    requires FirstInsert(t).Whole?
    ensures OnePass(params, t).Settled? && !Has(t, OPEN)
  {
    IndexIsSplit(t, OPEN);
  }

  // What the loop does at a text whose leftmost insert has this text behind its marker.
  lemma AtMarker(params: Params, t: string)
    requires Has(t, OPEN)
    ensures var behind := Split(t, OPEN).after;
            && (OnePass(params, t).Panic? <==> "}}" <= behind)
            && (OnePass(params, t).Settled? <==> !("}}" <= behind) && !Has(behind, CLOSE))
  {
    PanicsExactlyOnEmptyInsert(params, t);
    StopsExactlyOnOpenInsert(t, OPEN, CLOSE);
  }

  lemma StopsExactlyOnOpenInsert(s: string, open: string, close: string)
    requires |close| >= 2 && close[1] !in open && open != [] && open[|open| - 1] == close[0] && Has(s, open)
    ensures Slice(s, open, close).Stop? <==> !(close[1..] <= Split(s, open).after) && !Has(Split(s, open).after, close)
  {
    CrossedIffOverlapping(s, open, close);
    IndexIsSplit(s, open);
    var before, rest := Split(s, open).before, Split(s, open).after;
    SplitJoins(s, open);
    assert s[|before|..] == open + rest;
    IndexIsSplit(open + rest, close);
    if !(close[1..] <= rest) {
      NoneWithout(open, close, close[1]);
      OverlapIsLast(open, close, rest);
      SplitInSecond(open, rest, close);
    }
  }

  lemma BrokenHasMarker(params: Params, s: string)
    requires InsertRules(params).cut(s).Broken?
    ensures Has(s, OPEN)
  {
  }

  lemma HasLonger(u: string, v: string, pat: string)
    requires Has(u, pat)
    ensures Has(u + v, pat)
  {
    SplitInFirst(u, v, pat);
  }

  // A walk stops where a text that cannot be cut begins.
  lemma {:induction false} StuckIsBroken(r: Rules, d: nat, s: string, mark: string)
    requires Walk(r, d, s).Stuck? && forall t :: r.cut(t).Broken? ==> Has(t, mark)
    ensures Has(Walk(r, d, s).rest, mark)
    decreases d, |s|
  {
    hide Has;
    var c := r.cut(s);
    if c.Cut? {
      var filling := Walk(r, d - 1, r.fill(c.id));
      if filling.Stuck? {
        StuckIsBroken(r, d - 1, r.fill(c.id), mark);
        HasLonger(filling.rest, c.after, mark);
      } else {
        StuckIsBroken(r, d, c.after, mark);
      }
    }
  }

  lemma StuckHasMarker(params: Params, d: nat, s: string)
    requires Walk(InsertRules(params), d, s).Stuck?
    ensures Has(Walk(InsertRules(params), d, s).rest, OPEN)
  {
    forall t | InsertRules(params).cut(t).Broken?
      ensures Has(t, OPEN)
    {
      BrokenHasMarker(params, t);
    }
    hide Has, InsertRules, Walk;
    StuckIsBroken(InsertRules(params), d, s, OPEN);
  }

  lemma MarkerBehind(u: string, v: string, pat: string)
    requires Has(v, pat) && pat != []
    ensures Has(u + v, pat)
  {
    SplitJoins(v, pat);
    var k := |u| + |Split(v, pat).before|;
    assert (u + v)[k..k + |pat|] == pat;
    IndexAtMost(u + v, pat, k);
    IndexIsSplit(u + v, pat);
  }

  // The text one pass makes of it when all up to the next closing marker is taken as one id.
  function Swallowed(params: Params, t: string): string
    requires Has(t, OPEN) && Has(Split(t, OPEN).after, CLOSE)
  {
    var behind := Split(t, OPEN).after;
    Split(t, OPEN).before + Body(params, Trim(Split(behind, CLOSE).before)) + Split(behind, CLOSE).after
  }

  lemma SwallowsAtMarker(params: Params, t: string)
    requires Has(t, OPEN) && !("}}" <= Split(t, OPEN).after) && Has(Split(t, OPEN).after, CLOSE)
    ensures OnePass(params, t) == Rewritten(Swallowed(params, t))
  {
    assert '}' !in OPEN && CLOSE[1..] == "}}";
    SliceAtMarker(t, OPEN, CLOSE);
  }

  lemma {:induction false} PassesSettle(params: Params, s: string, n: nat, t: string, m: nat)
    requires PassesTo(params, s, n, t)
    ensures SettlesIn(params, s, n + m) <==> SettlesIn(params, t, m)
    decreases n
  {
    hide OnePass;
    if n > 0 { PassesSettle(params, OnePass(params, s).text, n - 1, t, m); }
  }

  lemma {:induction false} SettlesLate(params: Params, s: string, n: nat, t: string, m: nat)
    requires PassesTo(params, s, n, t) && SettlesIn(params, s, m)
    ensures m >= n
    decreases n
  {
    hide OnePass;
    if n > 0 { SettlesLate(params, OnePass(params, s).text, n - 1, t, m - 1); }
  }

  // The loop ends on a text exactly when it does on one that it comes to.
  lemma ComesSettles(params: Params, s: string, t: string)
    requires Comes(params, s, t)
    ensures Settles(params, s) <==> Settles(params, t)
  {
    hide SettlesIn, PassesTo;
    var n: nat :| PassesTo(params, s, n, t);
    if Settles(params, s) {
      var m: nat :| SettlesIn(params, s, m);
      SettlesLate(params, s, n, t, m);
      PassesSettle(params, s, n, t, m - n);
    }
    if Settles(params, t) {
      var m: nat :| SettlesIn(params, t, m);
      PassesSettle(params, s, n, t, m);
    }
  }

  // At the first malformed insert in substitution order the loop has substituted all that
  // comes before it, and holds the text done + rest. There it panics if and only if the
  // insert has nothing between its markers, and stops, with the marker left in its result,
  // if and only if nothing in the text that follows closes it.
  lemma {:induction false} LoopAtFirstMalformed(params: Params, prose: string, d: nat)
    requires Walk(InsertRules(params), d, prose).Stuck?
    ensures var w := Walk(InsertRules(params), d, prose);
            var t := w.done + w.rest;
            && Comes(params, prose, t) && !Has(w.done, OPEN) && Has(t, OPEN)
            && (OnePass(params, t).Panic? <==> "}}" <= Split(t, OPEN).after)
            && (OnePass(params, t).Settled? <==> !("}}" <= Split(t, OPEN).after) && !Has(Split(t, OPEN).after, CLOSE))
  {
    var r := InsertRules(params);
    InsertsAreCutting(params);
    hide Cutting, FirstInsert, Body, OnePass, Has, Split;
    var n := LoopFollowsWalk(r, d, "", prose, "");
    var w := Walk(r, d, prose);
    assert "" + prose + "" == prose && "" + w.done + w.rest + "" == w.done + w.rest && "" + w.done == w.done;
    LeadsIsPasses(params, prose, n, w.done + w.rest);
    WholeSettles(params, w.done);
    StuckHasMarker(params, d, prose);
    MarkerBehind(w.done, w.rest, OPEN);
    AtMarker(params, w.done + w.rest);
  }

  // Otherwise it takes all up to the next closing marker as one id, further markers
  // included, and goes on with the text that leaves: it ends on the prose if and only if
  // it ends on that text, to which this lemma and WalkedProseSettles apply again. An
  // unknown id that holds a marker is written out with it.
  lemma {:induction false} LoopPastMalformed(params: Params, prose: string, d: nat)
    requires Walk(InsertRules(params), d, prose).Stuck?
    ensures var w := Walk(InsertRules(params), d, prose);
            var t := w.done + w.rest;
            && Has(t, OPEN) && (Settles(params, prose) <==> Settles(params, t))
            && (!("}}" <= Split(t, OPEN).after) && Has(Split(t, OPEN).after, CLOSE) ==>
                  && OnePass(params, t) == Rewritten(Swallowed(params, t))
                  && (Settles(params, prose) <==> Settles(params, Swallowed(params, t)))
                  && (var id := Trim(Split(Split(t, OPEN).after, CLOSE).before);
                      id !in params && Has(id, OPEN) ==> Has(Swallowed(params, t), OPEN)))
  {
    LoopAtFirstMalformed(params, prose, d);
    hide Walk, InsertRules, Body, OnePass, Has, Split, Settles, SettlesIn, PassesTo;
    var t := Walk(InsertRules(params), d, prose).done + Walk(InsertRules(params), d, prose).rest;
    ComesSettles(params, prose, t);
    if !("}}" <= Split(t, OPEN).after) && Has(Split(t, OPEN).after, CLOSE) {
      SwallowsAtMarker(params, t);
      OneMorePass(params, t);
      MarkerWrittenOut(params, t);
    }
  }

  lemma OneMorePass(params: Params, t: string)
    requires OnePass(params, t).Rewritten?
    ensures Settles(params, t) <==> Settles(params, OnePass(params, t).text)
  {
    hide OnePass;
    assert PassesTo(params, OnePass(params, t).text, 0, OnePass(params, t).text);
    assert PassesTo(params, t, 1, OnePass(params, t).text);
    ComesSettles(params, t, OnePass(params, t).text);
  }

  lemma MarkerWrittenOut(params: Params, t: string)
    requires Has(t, OPEN) && Has(Split(t, OPEN).after, CLOSE)
    ensures var id := Trim(Split(Split(t, OPEN).after, CLOSE).before);
            id !in params && Has(id, OPEN) ==> Has(Swallowed(params, t), OPEN)
  {
    var before, behind := Split(t, OPEN).before, Split(t, OPEN).after;
    var id, after := Trim(Split(behind, CLOSE).before), Split(behind, CLOSE).after;
    if id !in params && Has(id, OPEN) {
      assert Body(params, id) == "[Assignment: " + id + "]";
      hide Has, Split, Body;
      MarkerBehind("[Assignment: ", id, OPEN);
      HasLonger("[Assignment: " + id, "]", OPEN);
      MarkerBehind(before, Body(params, id), OPEN);
      HasLonger(before + Body(params, id), after, OPEN);
    }
  }
}
