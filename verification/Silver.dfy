// The silver tables and what each SQL statement does to them. Any statement may fail;
// a stage that fails leaves behind what its statements did so far.
module Silver {
  import opened Grants

  datatype Doc = Doc(key: string, framework: string, version: string, mapedgesAt: Option<Time>)
  datatype Ctl = Ctl(doc: int, parent: Option<int>, citation: string, citationNorm: string, kind: string,
                     status: string, title: string, ordinal: int)
  datatype EdgeKey = EdgeKey(from: int, toFramework: string, toVersion: Option<string>, toCitation: string,
                             source: string)
  datatype Edge = Edge(relationship: string, provenance: string, toControl: Option<int>)

  datatype Tables = Tables(docs: map<int, Doc>, controls: map<int, Ctl>, edges: map<EdgeKey, Edge>, nextId: int)

  ghost predicate DocsOk(docs: map<int, Doc>, nextId: int) {
    && 0 <= nextId && (forall d :: d in docs ==> d < nextId)
    && (forall d, e :: d in docs && e in docs && docs[d].key == docs[e].key ==> d == e)
  }

  ghost predicate ControlsOk(docs: set<int>, controls: map<int, Ctl>, nextId: int) {
    && (forall c :: c in controls ==> controls[c].doc in docs && 0 <= c < nextId)
    && (forall c :: c in controls && controls[c].parent.Some? ==>
          controls[c].parent.value in controls && controls[controls[c].parent.value].doc == controls[c].doc)
  }

  ghost predicate EdgesOk(controls: set<int>, edges: map<EdgeKey, Edge>) {
    forall k :: k in edges ==> k.from in controls && (edges[k].toControl.Some? ==> edges[k].toControl.value in controls)
  }

  // Foreign keys, unique document keys, and identities drawn in increasing order.
  ghost predicate Wellformed(t: Tables) {
    DocsOk(t.docs, t.nextId) && ControlsOk(t.docs.Keys, t.controls, t.nextId) && EdgesOk(t.controls.Keys, t.edges)
  }

  // --- Statements ---

  predicate HasDoc(t: Tables, key: string) {
    exists d :: d in t.docs && t.docs[d].key == key
  }

  // Parents lie in the document itself, so the cascade takes just its own controls.
  function DeleteControls(t: Tables, d: int): Tables {
    t.(docs := if d in t.docs then t.docs[d := t.docs[d].(mapedgesAt := None)] else t.docs,
       controls := map c | c in t.controls && t.controls[c].doc != d :: t.controls[c],
       edges := map k | k in t.edges && !OfDoc(t, k.from, d) ::
                  if t.edges[k].toControl.Some? && OfDoc(t, t.edges[k].toControl.value, d)
                  then t.edges[k].(toControl := None) else t.edges[k])
  }

  predicate OfDoc(t: Tables, c: int, d: int) {
    c in t.controls && t.controls[c].doc == d
  }

  function Controls(t: Tables, d: int): set<int> {
    set c | c in t.controls && t.controls[c].doc == d
  }

  predicate CanInsert(t: Tables, row: Ctl) {
    && row.doc in t.docs && (row.parent.Some? ==> row.parent.value in t.controls)
    && (forall c :: c in t.controls && t.controls[c].doc == row.doc ==> t.controls[c].citation != row.citation)
  }

  function InsertControl(t: Tables, row: Ctl): Tables {
    t.(controls := t.controls[t.nextId := row], nextId := t.nextId + 1)
  }

  function UpsertEdge(t: Tables, k: EdgeKey, relationship: string, provenance: string): Tables {
    t.(edges := t.edges[k := Edge(relationship, provenance, if k in t.edges then t.edges[k].toControl else None)])
  }

  // A version-pinned edge resolves in that version, any other in the current one.
  predicate Targets(t: Tables, current: map<string, string>, k: EdgeKey, c: int) {
    && c in t.controls && t.controls[c].citationNorm == k.toCitation
    && t.controls[c].doc in t.docs && t.docs[t.controls[c].doc].framework == k.toFramework
    && match k.toVersion
       case Some(v) => t.docs[t.controls[c].doc].version == v
       case None => k.toFramework in current && t.docs[t.controls[c].doc].version == current[k.toFramework]
  }

  predicate Resolvable(t: Tables, current: map<string, string>, k: EdgeKey) {
    exists c :: c in t.controls && Targets(t, current, k, c)
  }

  // An edge without a target gets one that it names, if there is any; nothing else
  // changes.
  predicate Resolves(t: Tables, current: map<string, string>, k: EdgeKey, before: Edge, after: Edge) {
    if before.toControl.None? && Resolvable(t, current, k)
    then after.toControl.Some? && Targets(t, current, k, after.toControl.value)
      && after == before.(toControl := after.toControl)
    else after == before
  }

  ghost predicate ResolvesAll(a: Tables, b: Tables, current: map<string, string>) {
    && b == a.(edges := b.edges) && b.edges.Keys == a.edges.Keys
    && forall k :: k in a.edges ==> Resolves(a, current, k, a.edges[k], b.edges[k])
  }

  function MarkAll(t: Tables, now: Time): Tables {
    t.(docs := map d | d in t.docs :: t.docs[d].(mapedgesAt := Some(now)))
  }

  method Target(t: Tables, current: map<string, string>, k: EdgeKey, e: Edge) returns (r: Edge)
    ensures Resolves(t, current, k, e, r)
  {
    r := e;
    if e.toControl.None? && Resolvable(t, current, k) {
      var c :| c in t.controls && Targets(t, current, k, c);
      r := e.(toControl := Some(c));
    }
  }

  method ResolveEdges(t: Tables, current: map<string, string>) returns (edges: map<EdgeKey, Edge>)
    ensures edges.Keys == t.edges.Keys
    ensures forall k :: k in edges ==> Resolves(t, current, k, t.edges[k], edges[k])
  {
    edges := t.edges;
    var left := edges.Keys;
    while left != {}
      invariant left <= edges.Keys == t.edges.Keys
      invariant forall k :: k in edges && k !in left ==> Resolves(t, current, k, t.edges[k], edges[k])
      invariant forall k :: k in left ==> edges[k] == t.edges[k]
      decreases |left|
    {
      var k :| k in left;
      left := left - {k};
      var e := Target(t, current, k, t.edges[k]);
      edges := edges[k := e];
    }
  }

  lemma ResolvedAll(t: Tables, edges: map<EdgeKey, Edge>, current: map<string, string>)
    requires Wellformed(t) && edges.Keys == t.edges.Keys
    requires forall k :: k in edges ==> Resolves(t, current, k, t.edges[k], edges[k])
    ensures Wellformed(t.(edges := edges)) && ResolvesAll(t, t.(edges := edges), current)
  {
  }

  // --- The connection ---

  // A statement that succeeds takes one off the budget.
  predicate Spends(before: nat, ok: bool, after: nat) {
    if ok then before > 0 && after == before - 1 else after == before
  }

  class Database {
    var t: Tables
    // Statements that still succeed before the connection is lost.
    var budget: nat

    method UpsertDocument(key: string, framework: string, version: string) returns (ok: bool, d: int)
      requires Wellformed(t)
      modifies this
      ensures Wellformed(t) && t.controls == old(t).controls && t.edges == old(t).edges && old(t).nextId <= t.nextId
      ensures Spends(old(budget), ok, budget) && (ok <==> old(budget) > 0)
      ensures !ok ==> t == old(t)
      ensures ok ==> d in t.docs && t.docs[d].key == key
      ensures ok && HasDoc(old(t), key) ==> t == old(t)
      ensures ok && !HasDoc(old(t), key) ==>
                d !in old(t).docs && t.docs == old(t).docs[d := Doc(key, framework, version, None)]
    {
      d := 0;
      if budget == 0 { return false, d; }
      budget := budget - 1;
      ok := true;
      if HasDoc(t, key) {
        d :| d in t.docs && t.docs[d].key == key;
      } else {
        d := t.nextId;
        t := t.(docs := t.docs[d := Doc(key, framework, version, None)], nextId := t.nextId + 1);
      }
    }

    method DeleteControlsForDocument(d: int) returns (ok: bool)
      requires Wellformed(t)
      modifies this
      ensures Wellformed(t) && t == if ok then DeleteControls(old(t), d) else old(t)
      ensures Spends(old(budget), ok, budget) && (ok <==> old(budget) > 0)
    {
      if budget == 0 { return false; }
      budget := budget - 1;
      t := DeleteControls(t, d);
      ok := true;
    }

    method Insert(row: Ctl) returns (ok: bool, id: int)
      requires Wellformed(t)
      requires row.parent.Some? && row.parent.value in t.controls ==> t.controls[row.parent.value].doc == row.doc
      modifies this
      ensures Wellformed(t) && Spends(old(budget), ok, budget) && (ok <==> old(budget) > 0 && CanInsert(old(t), row))
      ensures ok ==> id == old(t).nextId && t == InsertControl(old(t), row)
      ensures !ok ==> t == old(t)
    {
      id := 0;
      if budget == 0 || !CanInsert(t, row) { return false, id; }
      budget := budget - 1;
      id := t.nextId;
      t := InsertControl(t, row);
      ok := true;
    }

    method UpsertControlMapping(k: EdgeKey, relationship: string, provenance: string) returns (ok: bool)
      requires Wellformed(t)
      modifies this
      ensures Wellformed(t) && t == if ok then UpsertEdge(old(t), k, relationship, provenance) else old(t)
      ensures Spends(old(budget), ok, budget) && (ok <==> old(budget) > 0 && k.from in t.controls)
    {
      if budget == 0 || k.from !in t.controls { return false; }
      budget := budget - 1;
      t := UpsertEdge(t, k, relationship, provenance);
      ok := true;
    }

    // current: the current version of each framework.
    method ResolveControlMappings(current: map<string, string>) returns (ok: bool)
      requires Wellformed(t)
      modifies this
      ensures Wellformed(t) && Spends(old(budget), ok, budget) && (ok <==> old(budget) > 0)
      ensures if ok then ResolvesAll(old(t), t, current) else t == old(t)
    {
      if budget == 0 { return false; }
      budget := budget - 1;
      ok := true;
      var edges := ResolveEdges(t, current);
      ResolvedAll(t, edges, current);
      t := t.(edges := edges);
    }

    method MarkDocumentsMapEdged(now: Time) returns (ok: bool)
      requires Wellformed(t)
      modifies this
      ensures Wellformed(t) && t == if ok then MarkAll(old(t), now) else old(t)
      ensures Spends(old(budget), ok, budget) && (ok <==> old(budget) > 0)
    {
      if budget == 0 { return false; }
      budget := budget - 1;
      t := MarkAll(t, now);
      ok := true;
    }
  }
}
