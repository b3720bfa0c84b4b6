// The ancestor citations of a stored control: a walk up parent pointers, reversed in
// place, and what it yields for a tree that writeTree has stored.
module Ancestors {
  import opened Grants
  import opened Silver
  import Oscal
  import OscalLinks
  import OscalTree
  import Stages

  // Parents were stored before their children.
  ghost predicate Rooted(byId: map<int, Ctl>) {
    forall c :: c in byId ==> 0 <= c && (byId[c].parent.Some? ==> byId[c].parent.value < c)
  }

  function Steps(byId: map<int, Ctl>, cur: Option<int>): int {
    if cur.Some? && cur.value in byId then cur.value + 1 else 0
  }

  // Citations from the root down to the control at `cur`.
  ghost function Above(byId: map<int, Ctl>, cur: Option<int>): seq<string>
    requires Rooted(byId)
    decreases Steps(byId, cur)
  {
    if cur.None? || cur.value !in byId then []
    else Above(byId, byId[cur.value].parent) + [byId[cur.value].citation]
  }

  function Reversed(s: seq<string>): seq<string> {
    seq(|s|, i requires 0 <= i < |s| => s[|s| - 1 - i])
  }

  lemma ReversedAppend(s: seq<string>, x: string)
    ensures Reversed(s + [x]) == [x] + Reversed(s)
  {
  }

  // The swap loop over a slice.
  method ReverseInPlace(chain: array<string>)
    modifies chain
    ensures chain[..] == Reversed(old(chain[..]))
  {
    var i, j := 0, chain.Length - 1;
    while i < j
      invariant 0 <= i <= chain.Length && j == chain.Length - 1 - i && i <= j + 1
      invariant forall k :: 0 <= k < i || j < k < chain.Length ==> chain[k] == old(chain[chain.Length - 1 - k])
      invariant forall k :: i <= k <= j ==> chain[k] == old(chain[k])
    {
      chain[i], chain[j] := chain[j], chain[i];
      i, j := i + 1, j - 1;
    }
  }

  // ancestorCitations
  method AncestorCitations(ctrl: Ctl, byId: map<int, Ctl>) returns (path: seq<string>)
    requires Rooted(byId)
    ensures path == Above(byId, ctrl.parent)
  {
    var found: seq<string> := [];
    var cur := ctrl.parent;
    while cur.Some? && cur.value in byId
      invariant Above(byId, cur) + Reversed(found) == Above(byId, ctrl.parent)
      decreases Steps(byId, cur)
    {
      var parent := byId[cur.value];
      ReversedAppend(found, parent.citation);
      found := found + [parent.citation];
      cur := parent.parent;
    }
    var chain := new string[|found|](i requires 0 <= i < |found| => found[i]);
    assert chain[..] == found;
    ReverseInPlace(chain);
    path := chain[..];
  }

  // --- What a stored tree yields ---

  function ById(t: Tables, d: int): map<int, Ctl> {
    map c | c in t.controls && t.controls[c].doc == d :: t.controls[c]
  }

  lemma StoredTreeIsRooted(t: Tables, titles: map<string, string>, d: int, rows: seq<Oscal.Row>, ids: seq<int>)
    requires Wellformed(t) && Stages.Planted(t, titles, d, rows, ids) && |ids| == |rows|
    ensures Rooted(ById(t, d))
  {
    forall c | c in ById(t, d)
      ensures 0 <= c && (ById(t, d)[c].parent.Some? ==> ById(t, d)[c].parent.value < c)
    {
      var k :| 0 <= k < |ids| && ids[k] == c;
      assert t.controls[ids[k]] == Stages.RowOf(titles, d, ids, rows[k]);
    }
  }

  lemma {:induction false} StoredPathIsRowPath(t: Tables, titles: map<string, string>, d: int, rows: seq<Oscal.Row>,
                                               ids: seq<int>, k: nat)
    requires Wellformed(t) && Stages.Planted(t, titles, d, rows, ids) && |ids| == |rows| && k < |rows|
    ensures Rooted(ById(t, d)) && ids[k] in ById(t, d)
    ensures Above(ById(t, d), ById(t, d)[ids[k]].parent) == OscalTree.PathTo(rows, k)
    decreases k
  {
    StoredTreeIsRooted(t, titles, d, rows, ids);
    assert t.controls[ids[k]] == Stages.RowOf(titles, d, ids, rows[k]);
    var p := rows[k].parentIdx;
    if p >= 0 {
      StoredPathIsRowPath(t, titles, d, rows, ids, p);
      assert t.controls[ids[p]] == Stages.RowOf(titles, d, ids, rows[p]);
    }
  }

  // From catalog to context: the ancestors of the k-th stored control of an OSCAL
  // catalog are the labels of the groups and controls that enclose it, root first.
  lemma {:induction false} AncestorsAreCatalogPath(t: Tables, titles: map<string, string>, d: int, upper: Oscal.Upper,
                                                   gs: seq<Oscal.Group>,
                                ids: seq<int>, k: nat)
    requires Wellformed(t) && Stages.Planted(t, titles, d, Oscal.Built(upper, gs).rows, ids)
    requires |ids| == |Oscal.Built(upper, gs).rows| && k < Oscal.GroupSize(gs)
    ensures |ids| == Oscal.GroupSize(gs) && Rooted(ById(t, d)) && ids[k] in ById(t, d)
    ensures Above(ById(t, d), ById(t, d)[ids[k]].parent) == OscalTree.GroupPaths(upper, gs)[k]
  {
    OscalTree.PathsAreCatalogPaths(upper, gs, k);
    StoredPathIsRowPath(t, titles, d, Oscal.Built(upper, gs).rows, ids, k);
  }

  // Building a catalog and storing it, with what every stored control's ancestors are.
  method StoreCatalog(db: Database, key: string, framework: string, version: string, titles: map<string, string>,
                      upper: Oscal.Upper, gs: seq<Oscal.Group>, current: map<string, string>)
    returns (ok: bool, d: int, ids: seq<int>)
    requires Wellformed(db.t)
    modifies db
    ensures Wellformed(db.t) && Stages.Rewrites(old(db.t), db.t, d)
    ensures ok ==> |ids| == Oscal.GroupSize(gs) && Rooted(ById(db.t, d))
    ensures ok ==> forall k :: 0 <= k < |ids| ==>
              && ids[k] in ById(db.t, d)
              && Above(ById(db.t, d), ById(db.t, d)[ids[k]].parent) == OscalTree.GroupPaths(upper, gs)[k]
    ensures ok ==> MovesStored(db.t, d, framework, version, ids, Oscal.Built(upper, gs).mappings)
  {
    var walker := new Oscal.Walker(upper);
    walker.Build(gs);
    var tree := walker.result;
    OscalTree.TreeIsForest(upper, gs);
    forall i | 0 <= i < |tree.mappings|
      ensures 0 <= tree.mappings[i].fromIdx < |tree.rows|
    {
      OscalLinks.EdgesLeadToRows(upper, gs, tree.mappings[i]);
    }
    var mappings := seq(|tree.mappings|,
                        i requires 0 <= i < |tree.mappings| => CatalogEdge(framework, version, tree.mappings[i]));
    ok, d, ids := Stages.WriteTree(db, key, framework, version, titles, tree.rows, mappings, current);
    if ok {
      MovesAreStored(db.t, d, titles, framework, version, upper, gs, ids, mappings, current);
      StoredTreeIsRooted(db.t, titles, d, tree.rows, ids);
      forall k | 0 <= k < |ids|
        ensures ids[k] in ById(db.t, d)
        ensures Above(ById(db.t, d), ById(db.t, d)[ids[k]].parent) == OscalTree.GroupPaths(upper, gs)[k]
      {
        AncestorsAreCatalogPath(db.t, titles, d, upper, gs, ids, k);
      }
    }
  }

  function CatalogEdge(framework: string, version: string, m: Oscal.Mapping): Stages.MapRow
    requires 0 <= m.fromIdx
  {
    Stages.MapRow(m.fromIdx, framework, Some(version), m.toCitationNorm,
                  "publisher-catalog", m.relationship, m.provenance)
  }

  // Every edge of the tree is stored, as one of the document's own version; where that is
  // the document's version, it has a target from the start.
  ghost predicate MovesStored(t: Tables, d: int, framework: string, version: string, ids: seq<int>,
                              moves: seq<Oscal.Mapping>)
  {
    forall m :: m in moves ==>
      && 0 <= m.fromIdx < |ids|
      && var k := EdgeKey(ids[m.fromIdx], framework, Some(version), m.toCitationNorm, "publisher-catalog");
         && k in t.edges && (d in t.docs && t.docs[d].framework == framework && t.docs[d].version == version ==>
                               t.edges[k].toControl.Some?)
         && exists n :: n in moves && n.fromIdx == m.fromIdx && n.toCitationNorm == m.toCitationNorm
                        && t.edges[k].relationship == n.relationship && t.edges[k].provenance == n.provenance
  }

  // The last mapping with the key of the i-th.
  lemma {:induction false} NewestOf(mappings: seq<Stages.MapRow>, i: nat) returns (j: nat)
    requires i < |mappings|
    ensures j < |mappings| && Stages.Newest(mappings, j)
    ensures mappings[j] == mappings[i].(relationship := mappings[j].relationship, provenance := mappings[j].provenance)
    decreases |mappings| - i
  {
    j := i;
    if !Stages.Newest(mappings, i) {
      var k :| i < k < |mappings|
        && mappings[k] == mappings[i].(relationship := mappings[k].relationship, provenance := mappings[k].provenance);
      j := NewestOf(mappings, k);
    }
  }

  lemma MovesAreStored(t: Tables, d: int, titles: map<string, string>, framework: string, version: string,
                       upper: Oscal.Upper, gs: seq<Oscal.Group>, ids: seq<int>, mappings: seq<Stages.MapRow>,
                       current: map<string, string>)
    requires var moves := Oscal.Built(upper, gs).mappings;
             |mappings| == |moves|
             && forall i :: 0 <= i < |moves| ==>
                  0 <= moves[i].fromIdx < |ids| && mappings[i] == CatalogEdge(framework, version, moves[i])
    requires |ids| == |Oscal.Built(upper, gs).rows|
    requires Stages.Planted(t, titles, d, Oscal.Built(upper, gs).rows, ids)
    requires Stages.Carries(t, d, ids, mappings) && Stages.AllTargeted(t, current)
    requires Stages.AllStored(t, ids, mappings)
    ensures MovesStored(t, d, framework, version, ids, Oscal.Built(upper, gs).mappings)
  {
    var moves, rows := Oscal.Built(upper, gs).mappings, Oscal.Built(upper, gs).rows;
    forall m | m in moves
      ensures 0 <= m.fromIdx < |ids|
      ensures var k := EdgeKey(ids[m.fromIdx], framework, Some(version), m.toCitationNorm, "publisher-catalog");
              k in t.edges && (d in t.docs && t.docs[d].framework == framework && t.docs[d].version == version ==>
                                 t.edges[k].toControl.Some?)
      ensures var k := EdgeKey(ids[m.fromIdx], framework, Some(version), m.toCitationNorm, "publisher-catalog");
              exists n :: n in moves && n.fromIdx == m.fromIdx && n.toCitationNorm == m.toCitationNorm
                          && t.edges[k].relationship == n.relationship && t.edges[k].provenance == n.provenance
    {
      var i :| 0 <= i < |moves| && moves[i] == m;
      var k := EdgeKey(ids[m.fromIdx], framework, Some(version), m.toCitationNorm, "publisher-catalog");
      assert Stages.KeyOf(ids, mappings[i]) == k;
      assert k in Stages.Keys(ids, mappings);
      var j := NewestOf(mappings, i);
      assert moves[j] in moves && Stages.StoredAs(t, ids[mappings[j].fromIdx], mappings[j]);
      OscalLinks.EdgesLeadToRows(upper, gs, m);
      var r :| 0 <= r < |rows| && rows[r].citationNorm == m.toCitationNorm;
      if d in t.docs && t.docs[d].framework == framework && t.docs[d].version == version {
        assert ids[r] in Stages.Named(t, current, k);
      }
    }
  }
}
