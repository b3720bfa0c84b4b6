// What the rows of the OSCAL walk guarantee: they are a forest in preorder, one row for
// each group and control, and parent indices spell out the path in the catalog.
module OscalTree {
  import opened Oscal

  // --- A forest in preorder ---

  // Every row sits at its own ordinal and its parent comes before it.
  ghost predicate InOrder(rows: seq<Row>, index: int) {
    forall k :: 0 <= k < |rows| ==> rows[k].ordinal == index + k && rows[k].parentIdx < index + k
  }

  lemma {:induction false} ForestInOrder(cat: Catalog, cs: seq<Control>, kind: string, parent: int, index: int)
    requires parent < index
    ensures InOrder(Forest(cat, cs, kind, parent, index).rows, index)
    ensures forall r :: r in Forest(cat, cs, kind, parent, index).rows ==> r.parentIdx >= parent
    decreases cs
  {
    if cs != [] {
      ForestInOrder(cat, cs[0].controls, "enhancement", index, index + 1);
      ForestInOrder(cat, cs[1..], kind, parent, index + 1 + Size(cs[0].controls));
    }
  }

  lemma {:induction false} GroupsInOrder(cat: Catalog, gs: seq<Group>, index: nat)
    ensures InOrder(Groups(cat, gs, index).rows, index)
    ensures forall r :: r in Groups(cat, gs, index).rows ==> r.parentIdx >= -1
    decreases gs
  {
    if gs != [] {
      ForestInOrder(cat, gs[0].controls, "control", index, index + 1);
      GroupsInOrder(cat, gs[1..], index + 1 + Size(gs[0].controls));
    }
  }

  ghost predicate ParentsBefore(rows: seq<Row>) {
    forall k :: 0 <= k < |rows| ==> -1 <= rows[k].parentIdx < k
  }

  // One row per group and per control at any depth; ordinals count them; each parent
  // index points to an earlier row.
  lemma {:induction false} TreeIsForest(upper: Upper, gs: seq<Group>)
    ensures |Built(upper, gs).rows| == GroupSize(gs)
    ensures InOrder(Built(upper, gs).rows, 0) && ParentsBefore(Built(upper, gs).rows)
  {
    GroupsInOrder(Catalog(upper, GroupLabels(upper, gs, map[])), gs, 0);
  }

  // --- Parent indices spell out catalog paths ---

  // Citations from the root to the parent of row i, following parent indices.
  function PathTo(rows: seq<Row>, i: nat): seq<string>
    requires ParentsBefore(rows) && i < |rows|
  {
    var p := rows[i].parentIdx;
    if p < 0 then [] else PathTo(rows, p) + [rows[p].citation]
  }

  // Labels above each control of the catalog, in preorder.
  function Paths(upper: Upper, cs: seq<Control>, above: seq<string>): (paths: seq<seq<string>>)
    ensures |paths| == Size(cs)
  {
    if cs == [] then []
    else
      [above] + Paths(upper, cs[0].controls, above + [Label(upper, cs[0].props, cs[0].id)])
        + Paths(upper, cs[1..], above)
  }

  function PathsInGroup(upper: Upper, g: Group): (paths: seq<seq<string>>)
    ensures |paths| == 1 + Size(g.controls)
  {
    [[]] + Paths(upper, g.controls, [Label(upper, g.props, g.id)])
  }

  function GroupPaths(upper: Upper, gs: seq<Group>): (paths: seq<seq<string>>)
    ensures |paths| == GroupSize(gs)
  {
    if gs == [] then [] else PathsInGroup(upper, gs[0]) + GroupPaths(upper, gs[1..])
  }

  ghost predicate Holds(rows: seq<Row>, index: nat, part: seq<Row>) {
    index + |part| <= |rows| && rows[index..index + |part|] == part
  }

  lemma HoldsParts(rows: seq<Row>, index: nat, a: seq<Row>, b: seq<Row>)
    requires Holds(rows, index, a + b)
    ensures Holds(rows, index, a) && Holds(rows, index + |a|, b)
  {
    var whole := rows[index..index + |a + b|];
    assert whole[..|a|] == a && whole[|a|..] == b;
    assert rows[index..index + |a|] == whole[..|a|];
    assert rows[index + |a|..index + |a| + |b|] == whole[|a|..];
  }

  lemma JoinHolds(rows: seq<Row>, index: nat, a: Tree, b: Tree)
    requires Holds(rows, index, Join(a, b).rows)
    ensures Holds(rows, index, a.rows) && Holds(rows, index + |a.rows|, b.rows)
  {
    HoldsParts(rows, index, a.rows, b.rows);
  }

  // The rows from index on lay out the controls cs below the given parent.
  predicate Lays(rows: seq<Row>, upper: Upper, cs: seq<Control>, parent: int, index: nat)
    decreases cs
  {
    cs != [] ==>
      && index < |rows| && rows[index].parentIdx == parent
        && rows[index].citation == Label(upper, cs[0].props, cs[0].id)
      && Lays(rows, upper, cs[0].controls, index, index + 1)
      && Lays(rows, upper, cs[1..], parent, index + 1 + Size(cs[0].controls))
  }

  lemma OwnHolds(rows: seq<Row>, cat: Catalog, c: Control, kind: string, parent: int, index: nat)
    requires Holds(rows, index, Own(cat, c, kind, parent, index).rows)
    ensures index < |rows| && rows[index].parentIdx == parent && rows[index].citation == Label(cat.upper, c.props, c.id)
  {
    assert rows[index] == rows[index..index + 1][0];
  }

  lemma {:induction false} OneLays(rows: seq<Row>, cat: Catalog, c: Control, kind: string, parent: int, index: nat)
    requires Holds(rows, index, One(cat, c, kind, parent, index).rows)
    ensures index < |rows| && rows[index].parentIdx == parent && rows[index].citation == Label(cat.upper, c.props, c.id)
    ensures Lays(rows, cat.upper, c.controls, index, index + 1)
    decreases c, 1
  {
    var own, below := Own(cat, c, kind, parent, index), Forest(cat, c.controls, "enhancement", index, index + 1);
    JoinHolds(rows, index, own, below);
    OwnHolds(rows, cat, c, kind, parent, index);
    ForestLays(rows, cat, c.controls, "enhancement", index, index + 1);
  }

  lemma {:induction false} ForestLays(rows: seq<Row>, cat: Catalog, cs: seq<Control>, kind: string, parent: int,
                                      index: nat)
    requires Holds(rows, index, Forest(cat, cs, kind, parent, index).rows)
    ensures Lays(rows, cat.upper, cs, parent, index)
    decreases cs, 0
  {
    if cs != [] {
      var next := index + 1 + Size(cs[0].controls);
      JoinHolds(rows, index, One(cat, cs[0], kind, parent, index), Forest(cat, cs[1..], kind, parent, next));
      OneLays(rows, cat, cs[0], kind, parent, index);
      ForestLays(rows, cat, cs[1..], kind, parent, next);
    }
  }

  lemma {:induction false} LaidPaths(rows: seq<Row>, upper: Upper, cs: seq<Control>, parent: nat, index: nat,
                                     above: seq<string>, k: nat)
    requires ParentsBefore(rows) && parent < index && parent < |rows|
    requires Lays(rows, upper, cs, parent, index)
    requires above == PathTo(rows, parent) + [rows[parent].citation]
    requires k < Size(cs)
    ensures index + k < |rows| && PathTo(rows, index + k) == Paths(upper, cs, above)[k]
    decreases cs
  {
    var n := Size(cs[0].controls);
    if k == 0 {
    } else if k <= n {
      LaidPaths(rows, upper, cs[0].controls, index, index + 1, above + [rows[index].citation], k - 1);
    } else {
      LaidPaths(rows, upper, cs[1..], parent, index + 1 + n, above, k - 1 - n);
    }
  }

  predicate LaysGroups(rows: seq<Row>, upper: Upper, gs: seq<Group>, index: nat)
    decreases gs
  {
    gs != [] ==>
      && index < |rows| && rows[index].parentIdx == -1 && rows[index].citation == Label(upper, gs[0].props, gs[0].id)
      && Lays(rows, upper, gs[0].controls, index, index + 1)
      && LaysGroups(rows, upper, gs[1..], index + 1 + Size(gs[0].controls))
  }

  lemma FamilyHolds(rows: seq<Row>, cat: Catalog, g: Group, index: nat)
    requires Holds(rows, index, [Family(cat, g, index)])
    ensures index < |rows| && rows[index].parentIdx == -1 && rows[index].citation == Label(cat.upper, g.props, g.id)
  {
    assert rows[index] == rows[index..index + 1][0];
  }

  lemma {:induction false} GroupsLay(rows: seq<Row>, cat: Catalog, gs: seq<Group>, index: nat)
    requires Holds(rows, index, Groups(cat, gs, index).rows)
    ensures LaysGroups(rows, cat.upper, gs, index)
    decreases gs
  {
    if gs != [] {
      var family := Tree([Family(cat, gs[0], index)], [], []);
      var below := Forest(cat, gs[0].controls, "control", index, index + 1);
      var rest := Groups(cat, gs[1..], index + 1 + Size(gs[0].controls));
      JoinHolds(rows, index, family, Join(below, rest));
      JoinHolds(rows, index + 1, below, rest);
      FamilyHolds(rows, cat, gs[0], index);
      ForestLays(rows, cat, gs[0].controls, "control", index, index + 1);
      GroupsLay(rows, cat, gs[1..], index + 1 + Size(gs[0].controls));
    }
  }

  lemma BelowRoot(rows: seq<Row>, i: nat)
    requires ParentsBefore(rows) && i < |rows| && rows[i].parentIdx == -1
    ensures PathTo(rows, i) == [] && PathTo(rows, i) + [rows[i].citation] == [rows[i].citation]
  {
  }

  lemma OneGroupPaths(rows: seq<Row>, upper: Upper, g: Group, index: nat, k: nat)
    requires ParentsBefore(rows) && index < |rows| && rows[index].parentIdx == -1
    requires rows[index].citation == Label(upper, g.props, g.id)
    requires Lays(rows, upper, g.controls, index, index + 1) && k <= Size(g.controls)
    ensures index + k < |rows| && PathTo(rows, index + k) == PathsInGroup(upper, g)[k]
  {
    BelowRoot(rows, index);
    if k > 0 {
      LaidPaths(rows, upper, g.controls, index, index + 1, [Label(upper, g.props, g.id)], k - 1);
    }
  }

  lemma {:induction false} GroupsPaths(rows: seq<Row>, upper: Upper, gs: seq<Group>, index: nat, k: nat)
    requires ParentsBefore(rows) && LaysGroups(rows, upper, gs, index) && k < GroupSize(gs)
    ensures index + k < |rows| && PathTo(rows, index + k) == GroupPaths(upper, gs)[k]
    decreases gs
  {
    var n := Size(gs[0].controls);
    if k <= n {
      OneGroupPaths(rows, upper, gs[0], index, k);
    } else {
      GroupsPaths(rows, upper, gs[1..], index + 1 + n, k - 1 - n);
    }
  }

  // The parent indices of the built rows lead through exactly the groups and controls
  // that enclose each control in the catalog.
  lemma {:induction false} PathsAreCatalogPaths(upper: Upper, gs: seq<Group>, k: nat)
    requires k < GroupSize(gs)
    ensures |Built(upper, gs).rows| == GroupSize(gs) && ParentsBefore(Built(upper, gs).rows)
    ensures PathTo(Built(upper, gs).rows, k) == GroupPaths(upper, gs)[k]
  {
    TreeIsForest(upper, gs);
    var rows := Built(upper, gs).rows;
    assert rows[0..0 + |rows|] == rows;
    GroupsLay(rows, Catalog(upper, GroupLabels(upper, gs, map[])), gs, 0);
    GroupsPaths(rows, upper, gs, 0, k);
  }
}
