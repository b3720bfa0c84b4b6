// The two stages that rewrite the silver tables: normalizing one document and rebuilding
// the mapping edges.
module Stages {
  import opened Collections
  import opened Grants
  import opened Silver
  import Oscal
  import OscalTree

  // --- Inputs ---

  datatype MapRow = MapRow(fromIdx: nat, toFramework: string, toVersion: Option<string>, toCitation: string,
                           source: string, relationship: string, provenance: string)

  datatype Emission = Emission(key: EdgeKey, relationship: string, provenance: string)

  // --- What a stage may do to the tables ---

  ghost predicate DocsKept(a: map<int, Doc>, b: map<int, Doc>, d: int) {
    && (forall x :: x in a ==> x in b && (x != d ==> b[x] == a[x]))
    && (forall x :: x in b && x !in a ==> b[x].mapedgesAt.None?)
    && (d in a && d in b ==> b[d].framework == a[d].framework && b[d].version == a[d].version)
  }

  ghost predicate ControlsKept(a: map<int, Ctl>, b: map<int, Ctl>, d: int) {
    && (forall c :: c in a && a[c].doc != d ==> c in b && b[c] == a[c])
    && (forall c :: c in b && b[c].doc != d ==> c in a && a[c] == b[c])
  }

  ghost predicate EdgesKept(a: Tables, b: Tables, d: int) {
    forall k :: k in a.edges && !OfDoc(a, k.from, d) ==>
      && k in b.edges && b.edges[k].relationship == a.edges[k].relationship
      && b.edges[k].provenance == a.edges[k].provenance
  }

  // Edges that come or go belong to the document's own controls.
  ghost predicate EdgesOwn(a: Tables, b: Tables, d: int) {
    && (forall k :: k in b.edges && k !in a.edges ==> OfDoc(b, k.from, d))
    && (forall k :: k in a.edges && k !in b.edges ==> k.from !in b.controls)
  }

  // A target is only lost with the control it names.
  ghost predicate TargetsKept(a: Tables, b: Tables) {
    forall k :: k in a.edges && k in b.edges && a.edges[k].toControl.Some? ==>
      a.edges[k].toControl.value in b.controls ==> b.edges[k].toControl == a.edges[k].toControl
  }

  // Identities are drawn in increasing order and never again.
  ghost predicate IdsGrow(a: Tables, b: Tables) {
    a.nextId <= b.nextId && forall c :: c in b.controls && c !in a.controls ==> c >= a.nextId
  }

  // The document d alone is rebuilt: it loses its marker unless nothing of it changed,
  // and everything that belongs to other documents stays, but for targets in d.
  ghost predicate Rewrites(a: Tables, b: Tables, d: int) {
    && DocsKept(a.docs, b.docs, d) && ControlsKept(a.controls, b.controls, d) && EdgesKept(a, b, d)
    && EdgesOwn(a, b, d) && TargetsKept(a, b) && IdsGrow(a, b)
    && (d in b.docs && b.docs[d].mapedgesAt.Some? ==>
        b.docs == a.docs && b.controls == a.controls && b.edges.Keys == a.edges.Keys)
  }

  // --- normalize ---

  function Titled(titles: map<string, string>, row: Oscal.Row): string {
    if row.citationNorm in titles then titles[row.citationNorm] else row.title
  }

  function RowOf(titles: map<string, string>, d: int, ids: seq<int>, row: Oscal.Row): Ctl
    requires -1 <= row.parentIdx < |ids|
  {
    Ctl(d, if row.parentIdx < 0 then None else Some(ids[row.parentIdx]), row.citation, row.citationNorm, row.kind,
        row.status, Titled(titles, row), row.ordinal)
  }

  function KeyOf(ids: seq<int>, m: MapRow): EdgeKey
    requires m.fromIdx < |ids|
  {
    EdgeKey(ids[m.fromIdx], m.toFramework, m.toVersion, m.toCitation, m.source)
  }

  ghost predicate Increasing(ids: seq<int>) {
    forall j, k :: 0 <= j < k < |ids| ==> ids[j] < ids[k]
  }

  ghost predicate Placed(controls: map<int, Ctl>, titles: map<string, string>, d: int, rows: seq<Oscal.Row>,
                         ids: seq<int>)
    requires OscalTree.ParentsBefore(rows) && |ids| <= |rows|
  {
    forall k :: 0 <= k < |ids| ==>
      ids[k] in controls && controls[ids[k]]
        == Ctl(d, if rows[k].parentIdx < 0 then None else Some(ids[rows[k].parentIdx]), rows[k].citation,
               rows[k].citationNorm, rows[k].kind, rows[k].status,
               if rows[k].citationNorm in titles then titles[rows[k].citationNorm] else rows[k].title, rows[k].ordinal)
  }

  ghost predicate OnlyThese(controls: map<int, Ctl>, d: int, ids: seq<int>) {
    forall c :: c in controls && controls[c].doc == d ==> c in ids
  }

  // The first rows are the document's controls, each with its parent's identity.
  ghost predicate Planted(t: Tables, titles: map<string, string>, d: int, rows: seq<Oscal.Row>, ids: seq<int>) {
    && OscalTree.ParentsBefore(rows) && |ids| <= |rows|
    && Increasing(ids) && Placed(t.controls, titles, d, rows, ids) && OnlyThese(t.controls, d, ids)
  }

  predicate DuplicateNorm(rows: seq<Oscal.Row>) {
    exists j, k :: 0 <= j < k < |rows| && rows[j].citationNorm == rows[k].citationNorm
  }

  // The duplicate check: the indices of two rows with one citation_norm.
  method FindDuplicate(rows: seq<Oscal.Row>) returns (found: bool)
    ensures found == DuplicateNorm(rows)
  {
    var seen: map<string, int> := map[];
    for i := 0 to |rows|
      invariant forall n :: n in seen ==> 0 <= seen[n] < i && rows[seen[n]].citationNorm == n
      invariant forall j :: 0 <= j < i ==> rows[j].citationNorm in seen
      invariant forall j, k :: 0 <= j < k < i ==> rows[j].citationNorm != rows[k].citationNorm
    {
      if rows[i].citationNorm in seen {
        assert rows[seen[rows[i].citationNorm]].citationNorm == rows[i].citationNorm;
        return true;
      }
      seen := seen[rows[i].citationNorm := i];
    }
    return false;
  }

  lemma PlacedGrows(controls: map<int, Ctl>, titles: map<string, string>, d: int, rows: seq<Oscal.Row>, ids: seq<int>,
                    id: int)
    requires OscalTree.ParentsBefore(rows) && |ids| < |rows| && Placed(controls, titles, d, rows, ids)
    requires id !in controls
    ensures Placed(controls[id := RowOf(titles, d, ids, rows[|ids|])], titles, d, rows, ids + [id])
  {
    forall k | 0 <= k <= |ids| ensures RowOf(titles, d, ids + [id], rows[k]) == RowOf(titles, d, ids, rows[k]) {}
  }

  lemma PlantedGrows(t: Tables, titles: map<string, string>, d: int, rows: seq<Oscal.Row>, ids: seq<int>)
    requires Wellformed(t) && Planted(t, titles, d, rows, ids) && |ids| < |rows|
    ensures Planted(InsertControl(t, RowOf(titles, d, ids, rows[|ids|])), titles, d, rows, ids + [t.nextId])
  {
    PlacedGrows(t.controls, titles, d, rows, ids, t.nextId);
    forall k | 0 <= k < |ids| ensures ids[k] < t.nextId {}
  }

  lemma ControlsKeptTwice(a: map<int, Ctl>, b: map<int, Ctl>, c: map<int, Ctl>, d: int)
    requires ControlsKept(a, b, d) && ControlsKept(b, c, d)
    ensures ControlsKept(a, c, d)
  {
  }

  lemma EdgesKeptTwice(a: Tables, b: Tables, c: Tables, d: int)
    requires Wellformed(a) && ControlsKept(a.controls, b.controls, d) && EdgesKept(a, b, d) && EdgesKept(b, c, d)
    ensures EdgesKept(a, c, d)
  {
    forall k | k in a.edges && !OfDoc(a, k.from, d)
      ensures k in c.edges && c.edges[k].relationship == a.edges[k].relationship
        && c.edges[k].provenance == a.edges[k].provenance
    {
      assert k.from in a.controls && a.controls[k.from].doc != d;
      assert !OfDoc(b, k.from, d);
    }
  }

  lemma GoneIsGone(a: Tables, b: Tables, c: Tables, id: int)
    requires Wellformed(a) && IdsGrow(a, b) && IdsGrow(b, c) && id in a.controls && id !in b.controls
    ensures id !in c.controls
  {
  }

  lemma EdgesOwnTwice(a: Tables, b: Tables, c: Tables, d: int)
    requires Wellformed(a) && Wellformed(b) && Wellformed(c) && IdsGrow(a, b) && IdsGrow(b, c)
    requires ControlsKept(b.controls, c.controls, d) && EdgesOwn(a, b, d) && EdgesOwn(b, c, d)
    ensures EdgesOwn(a, c, d)
  {
    forall k | k in c.edges && k !in a.edges
      ensures OfDoc(c, k.from, d)
    {
      if k in b.edges { assert OfDoc(b, k.from, d); KeptEdgeStart(b, c, k, d); }
    }
    forall k | k in a.edges && k !in c.edges
      ensures k.from !in c.controls
    {
      if k !in b.edges { GoneIsGone(a, b, c, k.from); }
    }
  }

  lemma KeptEdgeStart(b: Tables, c: Tables, k: EdgeKey, d: int)
    requires Wellformed(b) && ControlsKept(b.controls, c.controls, d) && OfDoc(b, k.from, d) && k.from in c.controls
    ensures OfDoc(c, k.from, d)
  {
  }

  lemma TargetsKeptTwice(a: Tables, b: Tables, c: Tables, d: int)
    requires Wellformed(a) && IdsGrow(a, b) && IdsGrow(b, c) && TargetsKept(a, b) && TargetsKept(b, c)
    requires EdgesOwn(a, b, d) && EdgesOk(c.controls.Keys, c.edges)
    ensures TargetsKept(a, c)
  {
    forall k | k in a.edges && k in c.edges && a.edges[k].toControl.Some? && a.edges[k].toControl.value in c.controls
      ensures c.edges[k].toControl == a.edges[k].toControl
    {
      if a.edges[k].toControl.value !in b.controls { GoneIsGone(a, b, c, a.edges[k].toControl.value); }
      if k !in b.edges { GoneIsGone(a, b, c, k.from); }
    }
  }

  lemma RewritesTwice(a: Tables, b: Tables, c: Tables, d: int)
    requires Wellformed(a) && Wellformed(b) && Wellformed(c) && Rewrites(a, b, d) && Rewrites(b, c, d)
    ensures Rewrites(a, c, d)
  {
    ControlsKeptTwice(a.controls, b.controls, c.controls, d);
    EdgesKeptTwice(a, b, c, d);
    EdgesOwnTwice(a, b, c, d);
    TargetsKeptTwice(a, b, c, d);
  }

  lemma InsertRewrites(t: Tables, d: int, row: Ctl)
    requires Wellformed(t) && d in t.docs && t.docs[d].mapedgesAt.None? && row.doc == d
    ensures Rewrites(t, InsertControl(t, row), d)
  {
  }

  // silver.control is unique on document and citation.
  predicate DuplicateCitation(rows: seq<Oscal.Row>) {
    exists j, k :: 0 <= j < k < |rows| && rows[j].citation == rows[k].citation
  }

  lemma CanInsertNext(t: Tables, titles: map<string, string>, d: int, rows: seq<Oscal.Row>, ids: seq<int>)
    requires Planted(t, titles, d, rows, ids) && |ids| < |rows| && d in t.docs
    ensures CanInsert(t, RowOf(titles, d, ids, rows[|ids|]))
       <==> forall k :: 0 <= k < |ids| ==> rows[k].citation != rows[|ids|].citation
  {
    var row := RowOf(titles, d, ids, rows[|ids|]);
    assert row.parent.Some? ==> row.parent.value in t.controls;
    forall k | 0 <= k < |ids|
      ensures ids[k] in t.controls && t.controls[ids[k]].citation == rows[k].citation
    {
      assert t.controls[ids[k]] == RowOf(titles, d, ids, rows[k]);
    }
  }

  // The next row, and what its insertion leaves.
  method InsertRow(db: Database, titles: map<string, string>, d: int, rows: seq<Oscal.Row>, ids: seq<int>)
    returns (ok: bool, id: int)
    requires Wellformed(db.t) && Planted(db.t, titles, d, rows, ids) && |ids| < |rows|
    requires d in db.t.docs && db.t.docs[d].mapedgesAt.None?
    modifies db
    ensures Wellformed(db.t) && Rewrites(old(db.t), db.t, d) && Spends(old(db.budget), ok, db.budget)
    ensures ok <==> old(db.budget) > 0 && forall k :: 0 <= k < |ids| ==> rows[k].citation != rows[|ids|].citation
    ensures if ok then db.t == InsertControl(old(db.t), RowOf(titles, d, ids, rows[|ids|])) && id == old(db.t).nextId
            else db.t == old(db.t)
    ensures db.t.docs == old(db.t).docs && db.t.edges == old(db.t).edges
    ensures if ok then Planted(db.t, titles, d, rows, ids + [id]) else Planted(db.t, titles, d, rows, ids)
  {
    PlantedGrows(db.t, titles, d, rows, ids);
    CanInsertNext(db.t, titles, d, rows, ids);
    InsertRewrites(db.t, d, RowOf(titles, d, ids, rows[|ids|]));
    ok, id := db.Insert(RowOf(titles, d, ids, rows[|ids|]));
  }

  lemma NothingPlanted(t: Tables, titles: map<string, string>, d: int, rows: seq<Oscal.Row>)
    requires OscalTree.ParentsBefore(rows) && forall c :: c in t.controls ==> t.controls[c].doc != d
    ensures Planted(t, titles, d, rows, [])
  {
  }

  // The ordered insertion of all rows.
  method InsertRows(db: Database, titles: map<string, string>, d: int, rows: seq<Oscal.Row>)
    returns (ok: bool, ids: seq<int>)
    requires Wellformed(db.t) && OscalTree.ParentsBefore(rows) && d in db.t.docs
    requires db.t.docs[d].mapedgesAt.None? && forall c :: c in db.t.controls ==> db.t.controls[c].doc != d
    modifies db
    ensures Wellformed(db.t) && Rewrites(old(db.t), db.t, d) && db.t.docs == old(db.t).docs
      && db.t.edges == old(db.t).edges
    ensures Planted(db.t, titles, d, rows, ids) && (ok ==> |ids| == |rows|)
    ensures ok <==> old(db.budget) >= |rows| && !DuplicateCitation(rows)
    ensures ok ==> db.budget == old(db.budget) - |rows|
  {
    ids := [];
    NothingPlanted(db.t, titles, d, rows);
    RewritesSelf(db.t, d);
    hide Wellformed, Planted, Rewrites, InsertControl, RowOf, OscalTree.ParentsBefore;
    for i := 0 to |rows|
      invariant |ids| == i && i <= old(db.budget) && db.budget == old(db.budget) - i
      invariant Wellformed(db.t) && Planted(db.t, titles, d, rows, ids)
      invariant Rewrites(old(db.t), db.t, d) && db.t.docs == old(db.t).docs && db.t.edges == old(db.t).edges
      invariant forall j, k :: 0 <= j < k < i ==> rows[j].citation != rows[k].citation
    {
      ghost var before := db.t;
      var good, id := InsertRow(db, titles, d, rows, ids);
      RewritesTwice(old(db.t), before, db.t, d);
      if !good { return false, ids; }
      ids := ids + [id];
    }
    ok := true;
  }

  lemma DeleteKeepsOthers(a: Tables, d: int)
    requires Wellformed(a) && d in a.docs
    ensures var b := DeleteControls(a, d);
            && DocsKept(a.docs, b.docs, d) && ControlsKept(a.controls, b.controls, d) && EdgesKept(a, b, d)
            && IdsGrow(a, b) && forall c :: c in b.controls ==> b.controls[c].doc != d
  {
  }

  lemma DeleteRewrites(a: Tables, d: int)
    requires Wellformed(a) && d in a.docs
    ensures Rewrites(a, DeleteControls(a, d), d)
    ensures forall c :: c in DeleteControls(a, d).controls ==> DeleteControls(a, d).controls[c].doc != d
  {
    DeleteKeepsOthers(a, d);
    hide DocsKept, ControlsKept, EdgesKept, IdsGrow;
  }

  // What is inserted so far belongs to the document, and nothing else does.
  ghost predicate Filling(t: Tables, d: int) {
    Wellformed(t) && d in t.docs && t.docs[d].mapedgesAt.None?
  }

  lemma UpsertRewrites(t: Tables, d: int, k: EdgeKey, relationship: string, provenance: string)
    requires Filling(t, d) && OfDoc(t, k.from, d)
    ensures Rewrites(t, UpsertEdge(t, k, relationship, provenance), d)
    ensures UpsertEdge(t, k, relationship, provenance).edges.Keys == t.edges.Keys + {k}
  {
  }

  function Keys(ids: seq<int>, mappings: seq<MapRow>): set<EdgeKey>
    requires forall k :: 0 <= k < |mappings| ==> mappings[k].fromIdx < |ids|
  {
    set k | 0 <= k < |mappings| :: KeyOf(ids, mappings[k])
  }

  lemma KeysGrow(ids: seq<int>, mappings: seq<MapRow>, i: nat)
    requires forall k :: 0 <= k < |mappings| ==> mappings[k].fromIdx < |ids|
    requires i < |mappings|
    ensures Keys(ids, mappings[..i + 1]) == Keys(ids, mappings[..i]) + {KeyOf(ids, mappings[i])}
  {
    forall e | e in Keys(ids, mappings[..i + 1])
      ensures e in Keys(ids, mappings[..i]) + {KeyOf(ids, mappings[i])}
    {
      var k :| 0 <= k < i + 1 && e == KeyOf(ids, mappings[..i + 1][k]);
      if k < i { assert mappings[..i][k] == mappings[k]; }
    }
    forall e | e in Keys(ids, mappings[..i])
      ensures e in Keys(ids, mappings[..i + 1])
    {
      var k :| 0 <= k < i && e == KeyOf(ids, mappings[..i][k]);
      assert mappings[..i + 1][k] == mappings[k];
    }
    assert mappings[..i + 1][i] == mappings[i];
  }

  // No later mapping has this one's key.
  ghost predicate Newest(mappings: seq<MapRow>, i: nat)
    requires i < |mappings|
  {
    forall j :: i < j < |mappings| ==>
      mappings[j].fromIdx != mappings[i].fromIdx || mappings[j].toFramework != mappings[i].toFramework
      || mappings[j].toVersion != mappings[i].toVersion || mappings[j].toCitation != mappings[i].toCitation
      || mappings[j].source != mappings[i].source
  }

  // The mapping's edge is stored and says what the mapping says.
  ghost predicate StoredAs(t: Tables, from: int, m: MapRow) {
    var k := EdgeKey(from, m.toFramework, m.toVersion, m.toCitation, m.source);
    k in t.edges && t.edges[k].relationship == m.relationship && t.edges[k].provenance == m.provenance
  }

  ghost predicate AllStored(t: Tables, ids: seq<int>, mappings: seq<MapRow>)
    requires forall k :: 0 <= k < |mappings| ==> mappings[k].fromIdx < |ids|
  {
    forall i :: 0 <= i < |mappings| && Newest(mappings, i) ==> StoredAs(t, ids[mappings[i].fromIdx], mappings[i])
  }

  ghost predicate WithoutTargets(t: Tables, d: int) {
    forall k :: k in t.edges && OfDoc(t, k.from, d) ==> t.edges[k].toControl.None?
  }

  lemma UpsertStores(t: Tables, d: int, ids: seq<int>, mappings: seq<MapRow>, n: nat)
    requires n < |mappings| && Increasing(ids)
    requires forall k :: 0 <= k < |mappings| ==> mappings[k].fromIdx < |ids|
    requires AllStored(t, ids, mappings[..n]) && WithoutTargets(t, d) && OfDoc(t, ids[mappings[n].fromIdx], d)
    ensures var m := mappings[n];
            var t' := UpsertEdge(t, KeyOf(ids, m), m.relationship, m.provenance);
            AllStored(t', ids, mappings[..n + 1]) && WithoutTargets(t', d)
  {
    var m, t' := mappings[n], UpsertEdge(t, KeyOf(ids, mappings[n]), mappings[n].relationship, mappings[n].provenance);
    forall i | 0 <= i <= n && Newest(mappings[..n + 1], i)
      ensures StoredAs(t', ids[mappings[i].fromIdx], mappings[i])
    {
      if i < n {
        forall j | i < j < n ensures mappings[..n][j] == mappings[..n + 1][j] {}
        assert Newest(mappings[..n], i);
        assert StoredAs(t, ids[mappings[..n][i].fromIdx], mappings[..n][i]);
        assert mappings[..n + 1][n] == m && mappings[..n + 1][i] == mappings[i];
      }
    }
  }

  method InsertMapping(db: Database, d: int, k: EdgeKey, relationship: string, provenance: string) returns (ok: bool)
    requires Filling(db.t, d) && OfDoc(db.t, k.from, d)
    modifies db
    ensures Filling(db.t, d) && Rewrites(old(db.t), db.t, d)
    ensures db.t.docs == old(db.t).docs && db.t.controls == old(db.t).controls
    ensures ok ==> db.t.edges.Keys == old(db.t).edges.Keys + {k}
    ensures ok ==> db.t == UpsertEdge(old(db.t), k, relationship, provenance)
    ensures (ok <==> old(db.budget) > 0) && Spends(old(db.budget), ok, db.budget)
  {
    UpsertRewrites(db.t, d, k, relationship, provenance);
    RewritesSelf(db.t, d);
    hide Rewrites, Wellformed;
    ok := db.UpsertControlMapping(k, relationship, provenance);
  }

  lemma RewritesSelf(a: Tables, d: int)
    ensures Rewrites(a, a, d)
  {
  }

  // The edges the document itself carries.
  method InsertMappings(db: Database, d: int, ids: seq<int>, mappings: seq<MapRow>) returns (ok: bool)
    requires Filling(db.t, d)
    requires forall k :: 0 <= k < |mappings| ==> mappings[k].fromIdx < |ids|
    requires Increasing(ids) && WithoutTargets(db.t, d) && forall k :: 0 <= k < |ids| ==> OfDoc(db.t, ids[k], d)
    modifies db
    ensures Filling(db.t, d) && Rewrites(old(db.t), db.t, d)
    ensures db.t.docs == old(db.t).docs && db.t.controls == old(db.t).controls
    ensures ok ==> db.t.edges.Keys == old(db.t).edges.Keys + Keys(ids, mappings)
    ensures ok ==> AllStored(db.t, ids, mappings) && WithoutTargets(db.t, d)
    ensures ok <==> old(db.budget) >= |mappings|
    ensures ok ==> db.budget == old(db.budget) - |mappings|
  {
    for i := 0 to |mappings|
      invariant i <= old(db.budget) && db.budget == old(db.budget) - i
      invariant Filling(db.t, d) && Rewrites(old(db.t), db.t, d)
      invariant db.t.docs == old(db.t).docs && db.t.controls == old(db.t).controls
      invariant db.t.edges.Keys == old(db.t).edges.Keys + Keys(ids, mappings[..i])
      invariant AllStored(db.t, ids, mappings[..i]) && WithoutTargets(db.t, d)
    {
      hide Rewrites, Wellformed, Keys, AllStored, WithoutTargets, UpsertEdge;
      var m := mappings[i];
      KeysGrow(ids, mappings, i);
      UpsertStores(db.t, d, ids, mappings, i);
      ghost var before := db.t;
      var good := InsertMapping(db, d, KeyOf(ids, m), m.relationship, m.provenance);
      RewritesTwice(old(db.t), before, db.t, d);
      if !good { return false; }
    }
    assert mappings[..|mappings|] == mappings;
    ok := true;
  }

  // All of a document's edges come from the rows just written.
  ghost predicate Carries(t: Tables, d: int, ids: seq<int>, mappings: seq<MapRow>)
    requires forall k :: 0 <= k < |mappings| ==> mappings[k].fromIdx < |ids|
  {
    forall e :: e in t.edges && OfDoc(t, e.from, d) <==> e in Keys(ids, mappings)
  }

  // The stored controls an edge names: by framework, citation norm and version, which is
  // the current one of the framework unless the edge has its own.
  ghost function Named(t: Tables, current: map<string, string>, k: EdgeKey): set<int> {
    set c | c in t.controls && t.controls[c].citationNorm == k.toCitation && t.controls[c].doc in t.docs
            && t.docs[t.controls[c].doc].framework == k.toFramework
            && (t.docs[t.controls[c].doc].version in if k.toVersion.Some? then {k.toVersion.value}
                else if k.toFramework in current then {current[k.toFramework]} else {})
  }

  // Every edge that names a stored control has a target.
  ghost predicate AllTargeted(t: Tables, current: map<string, string>) {
    forall k :: k in t.edges && Named(t, current, k) != {} ==> t.edges[k].toControl.Some?
  }

  // The targets of the document's edges are controls they name.
  ghost predicate TargetsNamed(t: Tables, current: map<string, string>, d: int) {
    forall k :: k in t.edges && OfDoc(t, k.from, d) && t.edges[k].toControl.Some? ==>
      t.edges[k].toControl.value in Named(t, current, k)
  }

  lemma NamedExactly(t: Tables, current: map<string, string>, k: EdgeKey)
    ensures forall c :: c in Named(t, current, k) <==> c in t.controls && Targets(t, current, k, c)
    ensures Named(t, current, k) != {} <==> Resolvable(t, current, k)
  {
    forall c | c in t.controls ensures c in Named(t, current, k) <==> Targets(t, current, k, c) {}
    if Resolvable(t, current, k) {
      var c :| c in t.controls && Targets(t, current, k, c);
      assert c in Named(t, current, k);
    }
    if Named(t, current, k) != {} {
      var c := Member(Named(t, current, k));
      assert c in t.controls && Targets(t, current, k, c);
    }
  }

  lemma ResolvingTargets(a: Tables, b: Tables, current: map<string, string>, d: int)
    requires ResolvesAll(a, b, current)
    ensures AllTargeted(b, current)
    ensures WithoutTargets(a, d) ==> TargetsNamed(b, current, d)
  {
    forall k | k in b.edges
      ensures Named(b, current, k) != {} ==> b.edges[k].toControl.Some?
      ensures a.edges[k].toControl.None? && b.edges[k].toControl.Some? ==>
                b.edges[k].toControl.value in Named(b, current, k)
    {
      NamedExactly(a, current, k);
      assert Named(a, current, k) == Named(b, current, k);
      hide Named, Targets, Resolvable;
      assert Resolves(a, current, k, a.edges[k], b.edges[k]);
    }
  }

  lemma ResolvingKeepsStored(a: Tables, b: Tables, current: map<string, string>, ids: seq<int>, mappings: seq<MapRow>)
    requires ResolvesAll(a, b, current) && forall k :: 0 <= k < |mappings| ==> mappings[k].fromIdx < |ids|
    requires AllStored(a, ids, mappings)
    ensures AllStored(b, ids, mappings)
  {
    hide Targets, Resolvable, Newest;
  }

  lemma ResolveRewrites(a: Tables, b: Tables, current: map<string, string>, d: int)
    requires ResolvesAll(a, b, current) && Filling(a, d)
    ensures Rewrites(a, b, d)
  {
  }

  lemma CarriesAfter(t0: Tables, t1: Tables, t2: Tables, t: Tables, d: int, ids: seq<int>, mappings: seq<MapRow>)
    requires Wellformed(t0) && forall c :: c in t0.controls ==> t0.controls[c].doc != d
    requires forall k :: 0 <= k < |mappings| ==> mappings[k].fromIdx < |ids|
    requires t1.edges == t0.edges && t2.edges.Keys == t1.edges.Keys + Keys(ids, mappings)
      && t.edges.Keys == t2.edges.Keys
    requires forall k :: 0 <= k < |ids| ==> OfDoc(t, ids[k], d)
    requires ControlsKept(t0.controls, t.controls, d)
    ensures Carries(t, d, ids, mappings)
  {
    forall e | e in t.edges && OfDoc(t, e.from, d)
      ensures e in Keys(ids, mappings)
    {
      assert e in t1.edges ==> e.from in t0.controls;
    }
    forall e | e in Keys(ids, mappings) ensures OfDoc(t, e.from, d) {}
  }

  lemma PlantedIds(t: Tables, titles: map<string, string>, d: int, rows: seq<Oscal.Row>, ids: seq<int>)
    requires Planted(t, titles, d, rows, ids)
    ensures forall k :: 0 <= k < |ids| ==> OfDoc(t, ids[k], d)
  {
  }

  lemma PlantedStays(t: Tables, t': Tables, titles: map<string, string>, d: int, rows: seq<Oscal.Row>, ids: seq<int>)
    requires Planted(t, titles, d, rows, ids) && t'.controls == t.controls
    ensures Planted(t', titles, d, rows, ids)
  {
  }

  // From the empty document on: rows, edges, targets.
  method Fill(db: Database, d: int, titles: map<string, string>, rows: seq<Oscal.Row>, mappings: seq<MapRow>,
              current: map<string, string>)
    returns (ok: bool, ids: seq<int>)
    requires Filling(db.t, d) && OscalTree.ParentsBefore(rows)
    requires forall c :: c in db.t.controls ==> db.t.controls[c].doc != d
    requires forall k :: 0 <= k < |mappings| ==> mappings[k].fromIdx < |rows|
    modifies db
    ensures Filling(db.t, d) && Rewrites(old(db.t), db.t, d) && db.t.docs == old(db.t).docs
    ensures ok ==> |ids| == |rows| && Planted(db.t, titles, d, rows, ids) && Carries(db.t, d, ids, mappings)
    ensures ok ==> AllStored(db.t, ids, mappings) && AllTargeted(db.t, current) && TargetsNamed(db.t, current, d)
    ensures ok <==> old(db.budget) > |rows| + |mappings| && !DuplicateCitation(rows)
  {
    ghost var t0 := db.t;
    ok, ids := InsertRows(db, titles, d, rows);
    if !ok { return; }
    ghost var t1 := db.t;
    PlantedIds(t1, titles, d, rows, ids);
    NoEdgesYet(t0, t1, d, ids);
    ok := InsertMappings(db, d, ids, mappings);
    ghost var t2 := db.t;
    RewritesTwice(t0, t1, t2, d);
    PlantedStays(t1, t2, titles, d, rows, ids);
    if !ok { return; }
    ok := db.ResolveControlMappings(current);
    ResolvedRewrites(t2, db.t, current, d, ok);
    RewritesTwice(t0, t2, db.t, d);
    PlantedStays(t2, db.t, titles, d, rows, ids);
    CarriesAfter(t0, t1, t2, db.t, d, ids, mappings);
    if ok {
      ResolvingTargets(t2, db.t, current, d);
      ResolvingKeepsStored(t2, db.t, current, ids, mappings);
    }
  }

  // The new controls carry no edges before the mappings are inserted.
  lemma NoEdgesYet(t0: Tables, t1: Tables, d: int, ids: seq<int>)
    requires Wellformed(t0) && forall c :: c in t0.controls ==> t0.controls[c].doc != d
    requires t1.edges == t0.edges && ControlsKept(t0.controls, t1.controls, d)
    ensures WithoutTargets(t1, d)
  {
  }

  lemma ResolvedRewrites(a: Tables, b: Tables, current: map<string, string>, d: int, ok: bool)
    requires Filling(a, d) && Wellformed(b) && if ok then ResolvesAll(a, b, current) else b == a
    ensures Rewrites(a, b, d) && b.controls == a.controls && b.docs == a.docs && b.edges.Keys == a.edges.Keys
  {
    if ok { ResolveRewrites(a, b, current, d); }
  }

  // writeTree. It succeeds exactly when no citation and no citation norm repeats and no
  // statement fails: one for the document, one for the old controls, one for each row and
  // each edge, one for the targets.
  method WriteTree(db: Database, key: string, framework: string, version: string, titles: map<string, string>,
                   rows: seq<Oscal.Row>, mappings: seq<MapRow>, current: map<string, string>)
    returns (ok: bool, d: int, ids: seq<int>)
    requires Wellformed(db.t) && OscalTree.ParentsBefore(rows)
    requires forall k :: 0 <= k < |mappings| ==> mappings[k].fromIdx < |rows|
    modifies db
    ensures Wellformed(db.t) && Rewrites(old(db.t), db.t, d)
    ensures ok <==> !DuplicateNorm(rows) && !DuplicateCitation(rows) && old(db.budget) >= 3 + |rows| + |mappings|
    ensures ok ==> d in db.t.docs && db.t.docs[d].key == key && db.t.docs[d].mapedgesAt.None?
    ensures ok && !HasDoc(old(db.t), key) ==> db.t.docs[d].framework == framework && db.t.docs[d].version == version
    ensures ok ==> |ids| == |rows| && Planted(db.t, titles, d, rows, ids) && Carries(db.t, d, ids, mappings)
    ensures ok ==> AllStored(db.t, ids, mappings) && AllTargeted(db.t, current) && TargetsNamed(db.t, current, d)
  {
    ghost var t0 := db.t;
    ids := [];
    ok, d := db.UpsertDocument(key, framework, version);
    if !ok { return; }
    ghost var t1 := db.t;
    assert Rewrites(t0, t1, d);
    ok := db.DeleteControlsForDocument(d);
    if !ok { return; }
    ghost var t2 := db.t;
    DeleteRewrites(t1, d);
    RewritesTwice(t0, t1, t2, d);
    var duplicate := FindDuplicate(rows);
    if duplicate { return false, d, ids; }
    ok, ids := Fill(db, d, titles, rows, mappings, current);
    RewritesTwice(t0, t2, db.t, d);
  }

  // --- mapedges ---

  predicate InVersion(t: Tables, c: int, framework: string, kind: string) {
    && c in t.controls && t.controls[c].kind == kind && t.controls[c].doc in t.docs
    && t.docs[t.controls[c].doc].framework == framework && t.docs[t.controls[c].doc].version == "2022"
  }

  // ISO 27001:2022 Annex A controls, and the controls of ISO 27002:2022.
  function Annex(t: Tables): set<int> {
    set c | c in t.controls && InVersion(t, c, "iso27001", "annex-control")
  }

  function Catalogue(t: Tables): set<int> {
    set c | c in t.controls && InVersion(t, c, "iso27002", "control")
  }

  // A.x.y to x.y
  function ForwardKey(t: Tables, c: int): EdgeKey
    requires c in t.controls && "A." <= t.controls[c].citationNorm
  {
    EdgeKey(c, "iso27002", Some("2022"), t.controls[c].citationNorm[2..], "iso-structural")
  }

  // x.y to A.x.y
  function BackKey(t: Tables, c: int): EdgeKey
    requires c in t.controls
  {
    EdgeKey(c, "iso27001", Some("2022"), "A." + t.controls[c].citationNorm, "iso-structural")
  }

  function ForwardKeys(t: Tables, cs: set<int>): set<EdgeKey>
    requires cs <= t.controls.Keys
  {
    set c | c in cs && "A." <= t.controls[c].citationNorm :: ForwardKey(t, c)
  }

  function BackKeys(t: Tables, cs: set<int>): set<EdgeKey>
    requires cs <= t.controls.Keys
  {
    set c | c in cs :: BackKey(t, c)
  }

  // Without Annex A controls nothing is emitted, in either direction.
  function IsoKeys(t: Tables): set<EdgeKey> {
    if Annex(t) == {} then {} else ForwardKeys(t, Annex(t)) + BackKeys(t, Catalogue(t))
  }

  // A structural edge: of ISO 27001:2022 Annex A control A.x.y to ISO 27002:2022 control
  // x.y, or back.
  ghost predicate Structural(t: Tables, k: EdgeKey) {
    && k.from in t.controls && t.controls[k.from].doc in t.docs && t.docs[t.controls[k.from].doc].version == "2022"
    && k.toVersion == Some("2022") && k.source == "iso-structural"
    && var c, framework := t.controls[k.from], t.docs[t.controls[k.from].doc].framework;
       || (framework == "iso27001" && c.kind == "annex-control" && k.toFramework == "iso27002"
           && c.citationNorm == "A." + k.toCitation)
       || (framework == "iso27002" && c.kind == "control" && k.toFramework == "iso27001"
           && k.toCitation == "A." + c.citationNorm)
  }

  ghost predicate AnnexControl(t: Tables, c: int) {
    && c in t.controls && t.controls[c].kind == "annex-control" && t.controls[c].doc in t.docs
    && t.docs[t.controls[c].doc].framework == "iso27001" && t.docs[t.controls[c].doc].version == "2022"
  }

  // What the ISO source emits: every structural edge, if there is any Annex A control.
  lemma {:induction false} IsoKeysExactly(t: Tables)
    ensures forall k :: k in IsoKeys(t) <==> Structural(t, k) && exists c :: AnnexControl(t, c)
  {
    assert forall c :: AnnexControl(t, c) <==> c in Annex(t);
    forall k
      ensures Structural(t, k) <==> k in ForwardKeys(t, Annex(t)) || k in BackKeys(t, Catalogue(t))
    {
      StructuralExactly(t, k);
    }
    if Annex(t) != {} {
      var c := Member(Annex(t));
      assert AnnexControl(t, c);
    }
  }

  lemma StructuralExactly(t: Tables, k: EdgeKey)
    ensures Structural(t, k) <==> k in ForwardKeys(t, Annex(t)) || k in BackKeys(t, Catalogue(t))
  {
    if Structural(t, k) {
      var c := k.from;
      if c in Annex(t) {
        assert ("A." + k.toCitation)[2..] == k.toCitation;
        assert k == ForwardKey(t, c);
      } else {
        assert c in Catalogue(t) && k == BackKey(t, c);
      }
    }
    if k in ForwardKeys(t, Annex(t)) {
      var norm := t.controls[k.from].citationNorm;
      assert norm == "A." + norm[2..];
    }
  }

  // Edges only grow, by at most the given keys; markers change when the run is complete.
  ghost predicate Maps(a: Tables, b: Tables, keys: set<EdgeKey>, stamp: Option<Time>) {
    && b.controls == a.controls && b.nextId == a.nextId && TargetsKept(a, b)
      && a.edges.Keys <= b.edges.Keys <= a.edges.Keys + keys
    && b.docs == (if stamp.Some? then map d | d in a.docs :: a.docs[d].(mapedgesAt := stamp) else a.docs)
    && (stamp.Some? ==> keys <= b.edges.Keys)
  }

  lemma UpsertMaps(a: Tables, t: Tables, keys: set<EdgeKey>, k: EdgeKey, relationship: string, provenance: string)
    requires Maps(a, t, keys, None) && k in keys
    ensures Maps(a, UpsertEdge(t, k, relationship, provenance), keys, None)
    ensures UpsertEdge(t, k, relationship, provenance).edges.Keys == t.edges.Keys + {k}
  {
  }

  const FORWARD_PROVENANCE :=
    "derived from ISO numbering structure: 27001 Annex A control A.x.y is structurally identical to 27002 control x.y"
  const BACK_PROVENANCE :=
    "derived from ISO numbering structure: 27002 control x.y is structurally identical to 27001 Annex A control A.x.y"

  // The edges of these keys are stored as equivalences, with this provenance.
  ghost predicate Equivalent(edges: map<EdgeKey, Edge>, keys: set<EdgeKey>, provenance: string) {
    forall k :: k in keys ==> k in edges && edges[k].relationship == "equivalent" && edges[k].provenance == provenance
  }

  // All stored edges but those of these keys say what they said.
  ghost predicate SaysSame(a: map<EdgeKey, Edge>, b: map<EdgeKey, Edge>, keys: set<EdgeKey>) {
    forall k :: k in a && k !in keys ==>
      k in b && b[k].relationship == a[k].relationship && b[k].provenance == a[k].provenance
  }

  // Targets stay as they are, and new edges have none.
  ghost predicate NoNewTargets(a: map<EdgeKey, Edge>, b: map<EdgeKey, Edge>) {
    forall k :: k in b ==> b[k].toControl == if k in a then a[k].toControl else None
  }

  lemma UpsertStates(o: Tables, t: Tables, k: EdgeKey, provenance: string, done: set<EdgeKey>, all: set<EdgeKey>)
    requires Equivalent(t.edges, done, provenance) && SaysSame(o.edges, t.edges, all) && k in all
    requires NoNewTargets(o.edges, t.edges) && o.edges.Keys <= t.edges.Keys
    ensures NoNewTargets(o.edges, UpsertEdge(t, k, "equivalent", provenance).edges)
    ensures Equivalent(UpsertEdge(t, k, "equivalent", provenance).edges, done + {k}, provenance)
    ensures SaysSame(o.edges, UpsertEdge(t, k, "equivalent", provenance).edges, all)
  {
  }

  // One direction of the structural edges.
  method EmitForward(db: Database, cs: set<int>, ghost a: Tables, ghost keys: set<EdgeKey>) returns (ok: bool)
    requires Wellformed(db.t) && cs <= a.controls.Keys && ForwardKeys(a, cs) <= keys && Maps(a, db.t, keys, None)
    modifies db
    ensures Wellformed(db.t) && Maps(a, db.t, keys, None) && old(db.t).edges.Keys <= db.t.edges.Keys
    ensures SaysSame(old(db.t).edges, db.t.edges, ForwardKeys(a, cs)) && NoNewTargets(old(db.t).edges, db.t.edges)
    ensures ok ==> Equivalent(db.t.edges, ForwardKeys(a, cs), FORWARD_PROVENANCE)
  {
    hide Wellformed, UpsertEdge;
    var left := cs;
    while left != {}
      invariant left <= cs && Wellformed(db.t) && Maps(a, db.t, keys, None) && old(db.t).edges.Keys <= db.t.edges.Keys
      invariant SaysSame(old(db.t).edges, db.t.edges, ForwardKeys(a, cs)) && NoNewTargets(old(db.t).edges, db.t.edges)
      invariant Equivalent(db.t.edges, ForwardKeys(a, cs - left), FORWARD_PROVENANCE)
      decreases |left|
    {
      ghost var some := Member(left);
      var c :| c in left;
      var norm := db.t.controls[c].citationNorm;
      if "A." <= norm {
        var k := EdgeKey(c, "iso27002", Some("2022"), norm[2..], "iso-structural");
        assert k in ForwardKeys(a, cs);
        UpsertMaps(a, db.t, keys, k, "equivalent", FORWARD_PROVENANCE);
        UpsertStates(old(db.t), db.t, k, FORWARD_PROVENANCE, ForwardKeys(a, cs - left), ForwardKeys(a, cs));
        assert ForwardKeys(a, cs - (left - {c})) == ForwardKeys(a, cs - left) + {k};
        var good := db.UpsertControlMapping(k, "equivalent", FORWARD_PROVENANCE);
        if !good { return false; }
      }
      left := left - {c};
    }
    assert cs - left == cs;
    ok := true;
  }

  method EmitBack(db: Database, cs: set<int>, ghost a: Tables, ghost keys: set<EdgeKey>) returns (ok: bool)
    requires Wellformed(db.t) && cs <= a.controls.Keys && BackKeys(a, cs) <= keys && Maps(a, db.t, keys, None)
    modifies db
    ensures Wellformed(db.t) && Maps(a, db.t, keys, None) && old(db.t).edges.Keys <= db.t.edges.Keys
    ensures SaysSame(old(db.t).edges, db.t.edges, BackKeys(a, cs)) && NoNewTargets(old(db.t).edges, db.t.edges)
    ensures ok ==> Equivalent(db.t.edges, BackKeys(a, cs), BACK_PROVENANCE)
  {
    hide Wellformed, UpsertEdge;
    var left := cs;
    while left != {}
      invariant left <= cs && Wellformed(db.t) && Maps(a, db.t, keys, None) && old(db.t).edges.Keys <= db.t.edges.Keys
      invariant SaysSame(old(db.t).edges, db.t.edges, BackKeys(a, cs)) && NoNewTargets(old(db.t).edges, db.t.edges)
      invariant Equivalent(db.t.edges, BackKeys(a, cs - left), BACK_PROVENANCE)
      decreases |left|
    {
      ghost var some := Member(left);
      var c :| c in left;
      var k := EdgeKey(c, "iso27001", Some("2022"), "A." + db.t.controls[c].citationNorm, "iso-structural");
      assert k in BackKeys(a, cs);
      UpsertMaps(a, db.t, keys, k, "equivalent", BACK_PROVENANCE);
      UpsertStates(old(db.t), db.t, k, BACK_PROVENANCE, BackKeys(a, cs - left), BackKeys(a, cs));
      assert BackKeys(a, cs - (left - {c})) == BackKeys(a, cs - left) + {k};
      var good := db.UpsertControlMapping(k, "equivalent", BACK_PROVENANCE);
      if !good { return false; }
      left := left - {c};
    }
    assert cs - left == cs;
    ok := true;
  }

  // Whatever target is new is a control that its edge names.
  ghost predicate TargetsFrom(a: Tables, b: Tables, current: map<string, string>) {
    forall k :: k in b.edges && b.edges[k].toControl.Some? ==>
      || (k in a.edges && b.edges[k].toControl == a.edges[k].toControl)
      || b.edges[k].toControl.value in Named(a, current, k)
  }

  lemma ResolvingAddsNamed(o: Tables, a: Tables, b: Tables, current: map<string, string>)
    requires ResolvesAll(a, b, current) && TargetsFrom(o, a, current) && a.controls == o.controls && a.docs == o.docs
    ensures TargetsFrom(o, b, current) && AllTargeted(b, current)
  {
    ResolvingTargets(a, b, current, 0);
    forall k | k in b.edges && b.edges[k].toControl.Some?
      ensures (k in o.edges && b.edges[k].toControl == o.edges[k].toControl)
        || b.edges[k].toControl.value in Named(o, current, k)
    {
      NamedExactly(a, current, k);
      assert Named(a, current, k) == Named(o, current, k);
      hide Named, Targets, Resolvable;
      assert Resolves(a, current, k, a.edges[k], b.edges[k]);
    }
  }

  lemma NoNewTargetsFrom(a: Tables, b: Tables, c: Tables, current: map<string, string>)
    requires TargetsFrom(a, b, current) && NoNewTargets(b.edges, c.edges)
    ensures TargetsFrom(a, c, current)
  {
    hide Named;
  }

  lemma ResolvingSaysSame(a: Tables, b: Tables, current: map<string, string>)
    requires ResolvesAll(a, b, current)
    ensures SaysSame(a.edges, b.edges, {})
  {
    hide Resolvable, Targets;
  }

  lemma StillEquivalent(a: map<EdgeKey, Edge>, b: map<EdgeKey, Edge>, others: set<EdgeKey>, keys: set<EdgeKey>,
                        provenance: string)
    requires Equivalent(a, keys, provenance) && SaysSame(a, b, others) && keys !! others
    ensures Equivalent(b, keys, provenance)
  {
  }

  lemma DirectionsApart(a: Tables)
    ensures ForwardKeys(a, Annex(a)) !! BackKeys(a, Catalogue(a))
  {
  }

  // EmitISOStructuralEdges
  method EmitIsoStructural(db: Database, current: map<string, string>, ghost keys: set<EdgeKey>) returns (ok: bool)
    requires Wellformed(db.t) && IsoKeys(db.t) <= keys
    modifies db
    ensures Wellformed(db.t) && Maps(old(db.t), db.t, keys, None)
    ensures Annex(old(db.t)) == {} ==> ok && db.t == old(db.t)
    ensures SaysSame(old(db.t).edges, db.t.edges, IsoKeys(old(db.t)))
    ensures TargetsFrom(old(db.t), db.t, current)
    ensures ok && Annex(old(db.t)) != {} ==>
              Equivalent(db.t.edges, ForwardKeys(old(db.t), Annex(old(db.t))), FORWARD_PROVENANCE)
              && Equivalent(db.t.edges, BackKeys(old(db.t), Catalogue(old(db.t))), BACK_PROVENANCE)
    ensures ok ==> IsoKeys(old(db.t)) <= db.t.edges.Keys
  {
    hide Wellformed, SaysSame, NoNewTargets, Equivalent, TargetsFrom, ResolvesAll;
    ghost var a := db.t;
    NothingNew(a, current);
    var annex := Annex(db.t);
    if annex == {} { return true; }
    ok := EmitForward(db, annex, a, keys);
    ghost var b := db.t;
    NoNewTargetsFrom(a, a, b, current);
    SaysSameMore(a.edges, b.edges, ForwardKeys(a, annex), IsoKeys(a));
    if !ok { return; }
    var controls := Catalogue(db.t);
    assert controls == Catalogue(a);
    ok := EmitBack(db, controls, a, keys);
    ghost var c := db.t;
    NoNewTargetsFrom(a, b, c, current);
    SaysSameTwice(a.edges, b.edges, c.edges, ForwardKeys(a, annex), BackKeys(a, controls));
    if !ok { return; }
    DirectionsApart(a);
    StillEquivalent(b.edges, c.edges, BackKeys(a, controls), ForwardKeys(a, annex), FORWARD_PROVENANCE);
    ok := db.ResolveControlMappings(current);
    if ok {
      ResolvedMaps(a, c, db.t, keys, current, ok);
      ResolvingSaysSame(c, db.t, current);
      SaysSameTwice(a.edges, c.edges, db.t.edges, IsoKeys(a), {});
      assert IsoKeys(a) + {} == IsoKeys(a);
      ResolvingAddsNamed(a, c, db.t, current);
      StillEquivalent(c.edges, db.t.edges, {}, ForwardKeys(a, annex), FORWARD_PROVENANCE);
      StillEquivalent(c.edges, db.t.edges, {}, BackKeys(a, controls), BACK_PROVENANCE);
    }
    if ok { EquivalentPresent(a, db.t.edges); }
  }

  lemma NothingNew(a: Tables, current: map<string, string>)
    ensures TargetsFrom(a, a, current) && SaysSame(a.edges, a.edges, IsoKeys(a))
  {
  }

  lemma EquivalentPresent(a: Tables, edges: map<EdgeKey, Edge>)
    requires Equivalent(edges, ForwardKeys(a, Annex(a)), FORWARD_PROVENANCE)
    requires Equivalent(edges, BackKeys(a, Catalogue(a)), BACK_PROVENANCE)
    ensures IsoKeys(a) <= edges.Keys
  {
  }

  function EmissionKeys(es: seq<Emission>): set<EdgeKey> {
    set i | 0 <= i < |es| :: es[i].key
  }

  // Every emission without a later one of its key is stored as it says.
  ghost predicate Emitted(edges: map<EdgeKey, Edge>, es: seq<Emission>) {
    forall i :: 0 <= i < |es| && NewestEmission(es, i) ==>
      es[i].key in edges && edges[es[i].key].relationship == es[i].relationship
      && edges[es[i].key].provenance == es[i].provenance
  }

  ghost predicate NewestEmission(es: seq<Emission>, i: nat)
    requires i < |es|
  {
    forall j :: i < j < |es| ==> es[j].key != es[i].key
  }

  lemma UpsertEmits(o: Tables, t: Tables, es: seq<Emission>, n: nat)
    requires n < |es| && Emitted(t.edges, es[..n]) && SaysSame(o.edges, t.edges, EmissionKeys(es))
    requires NoNewTargets(o.edges, t.edges) && o.edges.Keys <= t.edges.Keys
    ensures var t' := UpsertEdge(t, es[n].key, es[n].relationship, es[n].provenance);
            && Emitted(t'.edges, es[..n + 1]) && SaysSame(o.edges, t'.edges, EmissionKeys(es))
            && NoNewTargets(o.edges, t'.edges)
  {
    var t' := UpsertEdge(t, es[n].key, es[n].relationship, es[n].provenance);
    forall i | 0 <= i <= n && NewestEmission(es[..n + 1], i)
      ensures es[i].key in t'.edges && t'.edges[es[i].key].relationship == es[i].relationship
        && t'.edges[es[i].key].provenance == es[i].provenance
    {
      if i < n {
        forall j | i < j < n ensures es[..n][j] == es[..n + 1][j] {}
        assert NewestEmission(es[..n], i) && es[..n][i] == es[i] && es[..n + 1][n] == es[n];
      }
    }
    assert es[n].key in EmissionKeys(es);
  }

  // The other sources upsert what they found; a source that is absent is only noted.
  method EmitOthers(db: Database, es: seq<Emission>, ghost a: Tables, ghost keys: set<EdgeKey>) returns (ok: bool)
    requires Wellformed(db.t) && EmissionKeys(es) <= keys && Maps(a, db.t, keys, None)
    modifies db
    ensures Wellformed(db.t) && Maps(a, db.t, keys, None) && old(db.t).edges.Keys <= db.t.edges.Keys
    ensures SaysSame(old(db.t).edges, db.t.edges, EmissionKeys(es)) && NoNewTargets(old(db.t).edges, db.t.edges)
    ensures ok ==> EmissionKeys(es) <= db.t.edges.Keys && Emitted(db.t.edges, es)
  {
    hide Wellformed, UpsertEdge, Emitted, SaysSame, NoNewTargets;
    NothingEmitted(db.t.edges, es);
    for i := 0 to |es|
      invariant Wellformed(db.t) && Maps(a, db.t, keys, None) && old(db.t).edges.Keys <= db.t.edges.Keys
      invariant forall j :: 0 <= j < i ==> es[j].key in db.t.edges
      invariant SaysSame(old(db.t).edges, db.t.edges, EmissionKeys(es)) && NoNewTargets(old(db.t).edges, db.t.edges)
      invariant Emitted(db.t.edges, es[..i])
    {
      assert es[i].key in EmissionKeys(es);
      UpsertMaps(a, db.t, keys, es[i].key, es[i].relationship, es[i].provenance);
      UpsertEmits(old(db.t), db.t, es, i);
      var good := db.UpsertControlMapping(es[i].key, es[i].relationship, es[i].provenance);
      if !good { return false; }
    }
    assert es[..|es|] == es;
    ok := true;
  }

  lemma NothingEmitted(edges: map<EdgeKey, Edge>, es: seq<Emission>)
    ensures Emitted(edges, es[..0]) && SaysSame(edges, edges, EmissionKeys(es)) && NoNewTargets(edges, edges)
  {
  }

  // The structural edges are stored as equivalences, but for those that another source
  // emits again.
  ghost predicate StructuralStored(t: Tables, edges: map<EdgeKey, Edge>, others: set<EdgeKey>) {
    forall k :: Structural(t, k) && k !in others && (exists c :: AnnexControl(t, c)) ==>
      && k in edges && edges[k].relationship == "equivalent"
      && edges[k].provenance == if k.toFramework == "iso27002" then
      "derived from ISO numbering structure: 27001 Annex A control A.x.y is structurally identical to 27002 control x.y"
      else
      "derived from ISO numbering structure: 27002 control x.y is structurally identical to 27001 Annex A control A.x.y"
  }

  lemma EquivalentStored(t: Tables, edges: map<EdgeKey, Edge>)
    requires Annex(t) != {} ==>
               Equivalent(edges, ForwardKeys(t, Annex(t)), FORWARD_PROVENANCE)
               && Equivalent(edges, BackKeys(t, Catalogue(t)), BACK_PROVENANCE)
    ensures StructuralStored(t, edges, {})
  {
    forall k | Structural(t, k) && exists c :: AnnexControl(t, c)
      ensures if k.toFramework == "iso27002" then k in ForwardKeys(t, Annex(t)) else k in BackKeys(t, Catalogue(t))
      ensures Annex(t) != {}
    {
      StructuralExactly(t, k);
      var c :| AnnexControl(t, c);
      assert c in Annex(t);
    }
  }

  // What the ISO source leaves, the other sources and the resolving keep.
  lemma LaterStages(t: Tables, a: map<EdgeKey, Edge>, b: map<EdgeKey, Edge>, c: map<EdgeKey, Edge>, es: seq<Emission>)
    requires StructuralStored(t, a, {}) && SaysSame(a, b, EmissionKeys(es)) && SaysSame(b, c, {}) && Emitted(b, es)
    ensures StructuralStored(t, c, EmissionKeys(es)) && Emitted(c, es)
  {
    hide Structural, AnnexControl, EmissionKeys, NewestEmission;
  }

  lemma SaysSameTwice(a: map<EdgeKey, Edge>, b: map<EdgeKey, Edge>, c: map<EdgeKey, Edge>, k: set<EdgeKey>,
                      l: set<EdgeKey>)
    requires SaysSame(a, b, k) && SaysSame(b, c, l)
    ensures SaysSame(a, c, k + l)
  {
  }

  // runMapEdges: the markers are set at the very end, if no source was skipped.
  method RunMapEdges(db: Database, es: seq<Emission>, skipped: bool, current: map<string, string>, now: Time)
    returns (ok: bool, ghost keys: set<EdgeKey>)
    requires Wellformed(db.t)
    modifies db
    ensures keys == IsoKeys(old(db.t)) + EmissionKeys(es)
    ensures Wellformed(db.t) && Maps(old(db.t), db.t, keys, if ok && !skipped then Some(now) else None)
    ensures ok ==> keys <= db.t.edges.Keys
    ensures SaysSame(old(db.t).edges, db.t.edges, keys) && TargetsFrom(old(db.t), db.t, current)
    ensures ok ==> StructuralStored(old(db.t), db.t.edges, EmissionKeys(es)) && Emitted(db.t.edges, es)
    ensures ok ==> AllTargeted(db.t, current)
  {
    hide Wellformed, Maps, IsoKeys, EmissionKeys, SaysSame, TargetsFrom, StructuralStored, Emitted, AllTargeted,
      Equivalent, NoNewTargets, ResolvesAll;
    ghost var a := db.t;
    keys := IsoKeys(a) + EmissionKeys(es);
    ok := EmitIsoStructural(db, current, keys);
    if !ok {
      SaysSameMore(a.edges, db.t.edges, IsoKeys(a), keys);
      return;
    }
    ghost var iso := db.t;
    EquivalentStored(a, iso.edges);
    ok := EmitOthers(db, es, a, keys);
    ghost var b := db.t;
    SaysSameTwice(a.edges, iso.edges, b.edges, IsoKeys(a), EmissionKeys(es));
    NoNewTargetsFrom(a, iso, b, current);
    if !ok { return; }
    ok := db.ResolveControlMappings(current);
    ResolvedMaps(a, b, db.t, keys, current, ok);
    if !ok { return; }
    ResolvedSays(a, iso, b, db.t, keys, current, es);
    ghost var c := db.t;
    if !skipped {
      MarkedMaps(a, db.t, keys, now);
      ok := db.MarkDocumentsMapEdged(now);
      MarkedTargets(a, c, now, current);
    }
  }

  lemma SaysSameMore(a: map<EdgeKey, Edge>, b: map<EdgeKey, Edge>, k: set<EdgeKey>, l: set<EdgeKey>)
    requires SaysSame(a, b, k) && k <= l
    ensures SaysSame(a, b, l)
  {
  }

  lemma ResolvedSays(a: Tables, iso: Tables, b: Tables, c: Tables, keys: set<EdgeKey>, current: map<string, string>,
                     es: seq<Emission>)
    requires ResolvesAll(b, c, current) && Maps(a, b, keys, None) && TargetsFrom(a, b, current)
    requires SaysSame(a.edges, b.edges, keys) && SaysSame(iso.edges, b.edges, EmissionKeys(es))
    requires StructuralStored(a, iso.edges, {}) && Emitted(b.edges, es)
    ensures SaysSame(a.edges, c.edges, keys) && TargetsFrom(a, c, current) && AllTargeted(c, current)
    ensures StructuralStored(a, c.edges, EmissionKeys(es)) && Emitted(c.edges, es)
  {
    hide SaysSame, TargetsFrom, StructuralStored, Emitted, AllTargeted, EmissionKeys, TargetsKept;
    ResolvingSaysSame(b, c, current);
    SaysSameTwice(a.edges, b.edges, c.edges, keys, {});
    assert keys + {} == keys;
    LaterStages(a, iso.edges, b.edges, c.edges, es);
    ResolvingAddsNamed(a, b, c, current);
  }

  // The markers have no say in what an edge names.
  lemma MarkedTargets(a: Tables, t: Tables, now: Time, current: map<string, string>)
    requires TargetsFrom(a, t, current) && AllTargeted(t, current)
    ensures TargetsFrom(a, MarkAll(t, now), current) && AllTargeted(MarkAll(t, now), current)
  {
    forall k ensures Named(MarkAll(t, now), current, k) == Named(t, current, k) {}
  }

  lemma ResolvedMaps(a: Tables, b: Tables, c: Tables, keys: set<EdgeKey>, current: map<string, string>, ok: bool)
    requires Maps(a, b, keys, None) && if ok then ResolvesAll(b, c, current) else c == b
    ensures Maps(a, c, keys, None) && c.edges.Keys == b.edges.Keys
  {
  }

  lemma MarkedMaps(a: Tables, b: Tables, keys: set<EdgeKey>, now: Time)
    requires Maps(a, b, keys, None) && keys <= b.edges.Keys
    ensures Maps(a, MarkAll(b, now), keys, Some(now))
  {
  }
}
