// What becomes of the links of withdrawn controls: row by row, each incorporated-into or
// moved-to link is recorded once, as an edge to a row of the tree or as unresolved.
module OscalLinks {
  import opened Collections
  import opened Oscal

  // --- The links behind each row ---

  function MovedLinks(c: Control): seq<Link> {
    if exists k :: 0 <= k < |c.props| && c.props[k].name == "status" && c.props[k].value == "withdrawn" then c.links
    else []
  }

  // For each control in preorder, the links the walk looks at.
  function LinksIn(cs: seq<Control>): (links: seq<seq<Link>>)
    ensures |links| == Size(cs)
  {
    if cs == [] then [] else [MovedLinks(cs[0])] + LinksIn(cs[0].controls) + LinksIn(cs[1..])
  }

  function LinksOfRows(gs: seq<Group>): (links: seq<seq<Link>>)
    ensures |links| == GroupSize(gs)
  {
    if gs == [] then [] else [[]] + LinksIn(gs[0].controls) + LinksOfRows(gs[1..])
  }

  // What the rows from index on record, row after row.
  function EdgesOfRows(cat: Catalog, links: seq<seq<Link>>, index: int): seq<Mapping> {
    if links == [] then []
    else EdgesOf(cat.upper, cat.labels, links[0], index) + EdgesOfRows(cat, links[1..], index + 1)
  }

  function MissesOfRows(cat: Catalog, links: seq<seq<Link>>, rows: seq<Row>): seq<Unresolved>
    requires |links| == |rows|
  {
    if links == [] then []
    else MissesOf(cat.upper, cat.labels, links[0], rows[0].citation) + MissesOfRows(cat, links[1..], rows[1..])
  }

  // The tree's rows are the controls with these links, and its records are theirs.
  ghost predicate Records(cat: Catalog, t: Tree, links: seq<seq<Link>>, index: int) {
    && |links| == |t.rows|
    && t.mappings == EdgesOfRows(cat, links, index) && t.unresolved == MissesOfRows(cat, links, t.rows)
    && (forall k :: 0 <= k < |links| && links[k] != [] ==> t.rows[k].status == "withdrawn")
  }

  lemma {:induction false} EdgesAppend(cat: Catalog, a: seq<seq<Link>>, b: seq<seq<Link>>, index: int)
    ensures EdgesOfRows(cat, a + b, index) == EdgesOfRows(cat, a, index) + EdgesOfRows(cat, b, index + |a|)
    decreases |a|
  {
    if a == [] {
      assert a + b == b;
    } else {
      assert (a + b)[1..] == a[1..] + b;
      EdgesAppend(cat, a[1..], b, index + 1);
    }
  }

  lemma {:induction false} MissesAppend(cat: Catalog, a: seq<seq<Link>>, b: seq<seq<Link>>, ra: seq<Row>, rb: seq<Row>)
    requires |a| == |ra| && |b| == |rb|
    ensures MissesOfRows(cat, a + b, ra + rb) == MissesOfRows(cat, a, ra) + MissesOfRows(cat, b, rb)
    decreases |a|
  {
    if a == [] {
      assert a + b == b && ra + rb == rb;
    } else {
      assert (a + b)[1..] == a[1..] + b && (ra + rb)[1..] == ra[1..] + rb;
      MissesAppend(cat, a[1..], b, ra[1..], rb);
    }
  }

  lemma JoinRecords(cat: Catalog, t: Tree, u: Tree, a: seq<seq<Link>>, b: seq<seq<Link>>, index: int)
    requires Records(cat, t, a, index) && Records(cat, u, b, index + |t.rows|)
    ensures Records(cat, Join(t, u), a + b, index)
  {
    EdgesAppend(cat, a, b, index);
    MissesAppend(cat, a, b, t.rows, u.rows);
    hide EdgesOfRows, MissesOfRows;
    forall k | 0 <= k < |a + b| && (a + b)[k] != []
      ensures (t.rows + u.rows)[k].status == "withdrawn"
    {
      if k < |a| { assert a[k] != []; } else { assert b[k - |a|] != []; }
    }
  }

  lemma OwnRecords(cat: Catalog, c: Control, kind: string, parent: int, index: int)
    ensures Records(cat, Own(cat, c, kind, parent, index), [MovedLinks(c)], index)
  {
    var t := Own(cat, c, kind, parent, index);
    assert EdgesOf(cat.upper, cat.labels, [], index) == []
      && MissesOf(cat.upper, cat.labels, [], t.rows[0].citation) == [];
    assert EdgesOfRows(cat, [MovedLinks(c)], index) == EdgesOf(cat.upper, cat.labels, MovedLinks(c), index);
    assert MissesOfRows(cat, [MovedLinks(c)], t.rows)
      == MissesOf(cat.upper, cat.labels, MovedLinks(c), t.rows[0].citation);
  }

  lemma {:induction false} OneRecords(cat: Catalog, c: Control, kind: string, parent: int, index: int)
    ensures Records(cat, One(cat, c, kind, parent, index), [MovedLinks(c)] + LinksIn(c.controls), index)
    decreases c, 1
  {
    OwnRecords(cat, c, kind, parent, index);
    ForestRecords(cat, c.controls, "enhancement", index, index + 1);
    JoinRecords(cat, Own(cat, c, kind, parent, index), Forest(cat, c.controls, "enhancement", index, index + 1),
                [MovedLinks(c)], LinksIn(c.controls), index);
  }

  lemma {:induction false} ForestRecords(cat: Catalog, cs: seq<Control>, kind: string, parent: int, index: int)
    ensures Records(cat, Forest(cat, cs, kind, parent, index), LinksIn(cs), index)
    decreases cs, 0
  {
    if cs != [] {
      var next := index + 1 + Size(cs[0].controls);
      OneRecords(cat, cs[0], kind, parent, index);
      ForestRecords(cat, cs[1..], kind, parent, next);
      JoinRecords(cat, One(cat, cs[0], kind, parent, index), Forest(cat, cs[1..], kind, parent, next),
                  [MovedLinks(cs[0])] + LinksIn(cs[0].controls), LinksIn(cs[1..]), index);
    }
  }

  lemma FamilyRecords(cat: Catalog, g: Group, index: int)
    ensures Records(cat, Tree([Family(cat, g, index)], [], []), [[]], index)
  {
    assert EdgesOf(cat.upper, cat.labels, [], index) == []
      && MissesOf(cat.upper, cat.labels, [], Family(cat, g, index).citation) == [];
    var none: seq<seq<Link>> := [[]];
    assert none[1..] == [] && [Family(cat, g, index)][1..] == [];
    assert EdgesOfRows(cat, none, index) == [];
    assert MissesOfRows(cat, none, [Family(cat, g, index)]) == [];
  }

  lemma OneGroupRecords(cat: Catalog, g: Group, index: int, rest: Tree, links: seq<seq<Link>>)
    requires Records(cat, rest, links, index + 1 + Size(g.controls))
    ensures Records(cat, OneGroup(cat, g, index, rest), [[]] + LinksIn(g.controls) + links, index)
  {
    var family, below := Tree([Family(cat, g, index)], [], []), Forest(cat, g.controls, "control", index, index + 1);
    hide Records;
    FamilyRecords(cat, g, index);
    ForestRecords(cat, g.controls, "control", index, index + 1);
    JoinRecords(cat, below, rest, LinksIn(g.controls), links, index + 1);
    JoinRecords(cat, family, Join(below, rest), [[]], LinksIn(g.controls) + links, index);
    assert [[]] + (LinksIn(g.controls) + links) == [[]] + LinksIn(g.controls) + links;
  }

  lemma NothingRecords(cat: Catalog, index: int)
    ensures Records(cat, NOTHING, [], index)
  {
  }

  lemma {:induction false} GroupsRecord(cat: Catalog, gs: seq<Group>, index: int)
    ensures Records(cat, Groups(cat, gs, index), LinksOfRows(gs), index)
    decreases gs
  {
    hide EdgesOfRows, MissesOfRows, LinksIn, OneGroup, Size;
    if gs == [] {
      NothingRecords(cat, index);
    } else {
      hide Records;
      GroupsRecord(cat, gs[1..], index + 1 + Size(gs[0].controls));
      OneGroupRecords(cat, gs[0], index, Groups(cat, gs[1..], index + 1 + Size(gs[0].controls)), LinksOfRows(gs[1..]));
    }
  }

  // --- Each link once ---

  function MovingHrefs(links: seq<Link>): multiset<string> {
    if links == [] then multiset{}
    else if links[0].rel == "incorporated-into" || links[0].rel == "moved-to"
    then multiset{links[0].href} + MovingHrefs(links[1..])
    else MovingHrefs(links[1..])
  }

  function Provenances(edges: seq<Mapping>): multiset<string> {
    if edges == [] then multiset{} else multiset{edges[0].provenance} + Provenances(edges[1..])
  }

  function MissedHrefs(misses: seq<Unresolved>): multiset<string> {
    if misses == [] then multiset{} else multiset{misses[0].href} + MissedHrefs(misses[1..])
  }

  lemma {:induction false} ProvenancesAppend(a: seq<Mapping>, b: seq<Mapping>)
    ensures Provenances(a + b) == Provenances(a) + Provenances(b)
    decreases |a|
  {
    if a == [] {
      assert a + b == b;
    } else {
      assert (a + b)[1..] == a[1..] + b;
      ProvenancesAppend(a[1..], b);
    }
  }

  lemma {:induction false} MissedAppend(a: seq<Unresolved>, b: seq<Unresolved>)
    ensures MissedHrefs(a + b) == MissedHrefs(a) + MissedHrefs(b)
    decreases |a|
  {
    if a == [] {
      assert a + b == b;
    } else {
      assert (a + b)[1..] == a[1..] + b;
      MissedAppend(a[1..], b);
    }
  }

  // One control's links: each moving one is an edge or unresolved, never both.
  lemma {:induction false} EachLinkOnce(upper: Upper, labels: map<string, string>, links: seq<Link>, from: int,
                                        citation: string)
    ensures Provenances(EdgesOf(upper, labels, links, from))
      + MissedHrefs(MissesOf(upper, labels, links, citation)) == MovingHrefs(links)
  {
    if links != [] {
      EachLinkOnce(upper, labels, links[1..], from, citation);
      FirstLink(upper, labels, links, from, citation);
      hide EdgesOf, MissesOf, ResolveHref;
      var norm := ResolveHref(upper, labels, links[0].href);
      ProvenancesAppend([Mapping(from, norm, links[0].rel, links[0].href)], EdgesOf(upper, labels, links[1..], from));
      MissedAppend([Unresolved(citation, links[0].href)], MissesOf(upper, labels, links[1..], citation));
      OneProvenance(Mapping(from, norm, links[0].rel, links[0].href), Unresolved(citation, links[0].href));
    }
  }

  // A link yields an edge or a record exactly if it moves, by its target.
  lemma FirstLink(upper: Upper, labels: map<string, string>, links: seq<Link>, from: int, citation: string)
    requires links != []
    ensures var link, norm := links[0], ResolveHref(upper, labels, links[0].href);
            var moves := link.rel == "incorporated-into" || link.rel == "moved-to";
            && EdgesOf(upper, labels, links, from)
               == (if moves && norm != "" then [Mapping(from, norm, link.rel, link.href)] else [])
                 + EdgesOf(upper, labels, links[1..], from)
            && MissesOf(upper, labels, links, citation)
               == (if moves && norm == "" then [Unresolved(citation, link.href)] else [])
                 + MissesOf(upper, labels, links[1..], citation)
  {
    hide ResolveHref;
  }

  lemma OneProvenance(m: Mapping, u: Unresolved)
    ensures Provenances([m]) == multiset{m.provenance} && MissedHrefs([u]) == multiset{u.href}
  {
  }

  // Edges carry the resolved hrefs, unresolved records the others.
  lemma {:induction false} EachLinkResolves(upper: Upper, labels: map<string, string>, links: seq<Link>, from: int,
                                            citation: string)
    ensures forall m :: m in EdgesOf(upper, labels, links, from) ==>
              m.fromIdx == from && m.toCitationNorm == ResolveHref(upper, labels, m.provenance) != ""
    ensures forall u :: u in MissesOf(upper, labels, links, citation) ==>
              u.citation == citation && ResolveHref(upper, labels, u.href) == ""
  {
    if links != [] { EachLinkResolves(upper, labels, links[1..], from, citation); }
  }

  function EdgesFrom(edges: seq<Mapping>, row: int): seq<Mapping> {
    if edges == [] then [] else (if edges[0].fromIdx == row then [edges[0]] else []) + EdgesFrom(edges[1..], row)
  }

  lemma {:induction false} FromAppend(a: seq<Mapping>, b: seq<Mapping>, row: int)
    ensures EdgesFrom(a + b, row) == EdgesFrom(a, row) + EdgesFrom(b, row)
    decreases |a|
  {
    if a == [] {
      assert a + b == b;
    } else {
      assert (a + b)[1..] == a[1..] + b && (a + b)[0] == a[0];
      FromAppend(a[1..], b, row);
      Regroup(if a[0].fromIdx == row then [a[0]] else [], EdgesFrom(a[1..], row), EdgesFrom(b, row));
    }
  }

  lemma {:induction false} FromAll(edges: seq<Mapping>, from: int, row: int)
    requires forall m :: m in edges ==> m.fromIdx == from
    ensures EdgesFrom(edges, row) == if row == from then edges else []
    decreases |edges|
  {
    if edges != [] {
      assert edges[0] in edges && forall m :: m in edges[1..] ==> m in edges;
      FromAll(edges[1..], from, row);
    }
  }

  lemma FirstRowEdges(cat: Catalog, links: seq<seq<Link>>, index: int, row: int)
    requires links != []
    ensures EdgesFrom(EdgesOfRows(cat, links, index), row)
         == (if row == index then EdgesOf(cat.upper, cat.labels, links[0], index) else [])
            + EdgesFrom(EdgesOfRows(cat, links[1..], index + 1), row)
  {
    var first := EdgesOf(cat.upper, cat.labels, links[0], index);
    EachLinkResolves(cat.upper, cat.labels, links[0], index, "");
    FromAppend(first, EdgesOfRows(cat, links[1..], index + 1), row);
    FromAll(first, index, row);
  }

  lemma {:induction false} NoEdgesBefore(cat: Catalog, links: seq<seq<Link>>, index: int, row: int)
    requires row < index
    ensures EdgesFrom(EdgesOfRows(cat, links, index), row) == []
    decreases |links|
  {
    if links != [] {
      FirstRowEdges(cat, links, index, row);
      NoEdgesBefore(cat, links[1..], index + 1, row);
    }
  }

  // A row's edges are those of its own links.
  lemma {:induction false} EdgesOfOneRow(cat: Catalog, links: seq<seq<Link>>, index: int, k: nat)
    requires k < |links|
    ensures EdgesFrom(EdgesOfRows(cat, links, index), index + k) == EdgesOf(cat.upper, cat.labels, links[k], index + k)
    decreases |links|
  {
    FirstRowEdges(cat, links, index, index + k);
    if k == 0 {
      NoEdgesBefore(cat, links[1..], index + 1, index);
    } else {
      EdgesOfOneRow(cat, links[1..], index + 1, k - 1);
    }
  }

  function AllMovingHrefs(links: seq<seq<Link>>): multiset<string> {
    if links == [] then multiset{} else MovingHrefs(links[0]) + AllMovingHrefs(links[1..])
  }

  lemma {:induction false} RecordsBalance(cat: Catalog, links: seq<seq<Link>>, rows: seq<Row>, index: int)
    requires |links| == |rows|
    ensures Provenances(EdgesOfRows(cat, links, index))
      + MissedHrefs(MissesOfRows(cat, links, rows)) == AllMovingHrefs(links)
    decreases |links|
  {
    if links != [] {
      EachLinkOnce(cat.upper, cat.labels, links[0], index, rows[0].citation);
      RecordsBalance(cat, links[1..], rows[1..], index + 1);
      ProvenancesAppend(EdgesOf(cat.upper, cat.labels, links[0], index), EdgesOfRows(cat, links[1..], index + 1));
      MissedAppend(MissesOf(cat.upper, cat.labels, links[0], rows[0].citation),
                   MissesOfRows(cat, links[1..], rows[1..]));
    }
  }

  function CatalogOf(upper: Upper, gs: seq<Group>): Catalog {
    Catalog(upper, GroupLabels(upper, gs, map[]))
  }

  // Over the whole catalog, the hrefs of the edges and of the unresolved records are,
  // with multiplicity, the incorporated-into and moved-to hrefs of withdrawn controls.
  lemma {:induction false} EveryMoveIsAccountedFor(upper: Upper, gs: seq<Group>)
    ensures Provenances(Built(upper, gs).mappings)
      + MissedHrefs(Built(upper, gs).unresolved) == AllMovingHrefs(LinksOfRows(gs))
  {
    GroupsRecord(CatalogOf(upper, gs), gs, 0);
    RecordsBalance(CatalogOf(upper, gs), LinksOfRows(gs), Built(upper, gs).rows, 0);
  }

  // And so it is row by row: the edges that start at a row and the unresolved records of
  // its links, which come in the order of the rows, have exactly its moving hrefs.
  lemma {:induction false} EachRowKeepsItsLinks(upper: Upper, gs: seq<Group>, k: nat)
    requires k < GroupSize(gs)
    ensures var t, cat, links := Built(upper, gs), CatalogOf(upper, gs), LinksOfRows(gs);
            && |t.rows| == GroupSize(gs) && t.unresolved == MissesOfRows(cat, links, t.rows)
            && Provenances(EdgesFrom(t.mappings, k))
              + MissedHrefs(MissesOf(upper, cat.labels, links[k], t.rows[k].citation))
               == MovingHrefs(links[k])
            && (links[k] != [] ==> t.rows[k].status == "withdrawn")
  {
    var cat, links := CatalogOf(upper, gs), LinksOfRows(gs);
    GroupsRecord(cat, gs, 0);
    EdgesOfOneRow(cat, links, 0, k);
    EachLinkOnce(upper, cat.labels, links[k], k, Built(upper, gs).rows[k].citation);
  }

  // --- Edges lead to rows of the tree ---

  ghost predicate HasNorm(rows: seq<Row>, norm: string) {
    exists k :: 0 <= k < |rows| && rows[k].citationNorm == norm
  }

  lemma NormInPart(a: seq<Row>, b: seq<Row>, norm: string)
    ensures HasNorm(a + b, norm) <==> HasNorm(a, norm) || HasNorm(b, norm)
  {
    if HasNorm(a, norm) {
      var k :| 0 <= k < |a| && a[k].citationNorm == norm;
      assert (a + b)[k].citationNorm == norm;
    }
    if HasNorm(b, norm) {
      var k :| 0 <= k < |b| && b[k].citationNorm == norm;
      assert (a + b)[|a| + k].citationNorm == norm;
    }
  }

  // Every label is the name of a row.
  ghost predicate Labelled(upper: Upper, labels: map<string, string>, rows: seq<Row>) {
    forall id :: id in labels ==> HasNorm(rows, Norm(upper, labels[id]))
  }

  lemma LabelledMore(upper: Upper, labels: map<string, string>, a: seq<Row>, b: seq<Row>)
    requires Labelled(upper, labels, a)
    ensures Labelled(upper, labels, a + b)
  {
    forall id | id in labels
      ensures HasNorm(a + b, Norm(upper, labels[id]))
    {
      NormInPart(a, b, Norm(upper, labels[id]));
    }
  }

  lemma LabelledOne(upper: Upper, labels: map<string, string>, rows: seq<Row>, id: string, name: string, row: Row)
    requires Labelled(upper, labels, rows) && row.citationNorm == Norm(upper, name)
    ensures Labelled(upper, labels[id := name], rows + [row])
  {
    LabelledMore(upper, labels, rows, [row]);
    assert [row][0].citationNorm == Norm(upper, name);
    NormInPart(rows, [row], Norm(upper, name));
  }

  lemma ForestRowsAfter(cat: Catalog, cs: seq<Control>, kind: string, parent: int, index: int, rows: seq<Row>)
    requires cs != []
    ensures var name, next := Label(cat.upper, cs[0].props, cs[0].id), index + 1 + Size(cs[0].controls);
            var own := Own(cat, cs[0], kind, parent, index).rows;
            && |own| == 1 && own[0].citationNorm == Norm(cat.upper, name)
            && rows + Forest(cat, cs, kind, parent, index).rows == rows + [own[0]]
              + Forest(cat, cs[0].controls, "enhancement", index, index + 1).rows
              + Forest(cat, cs[1..], kind, parent, next).rows
  {
    var next := index + 1 + Size(cs[0].controls);
    var own := Own(cat, cs[0], kind, parent, index).rows;
    var below, rest := Forest(cat, cs[0].controls, "enhancement", index, index + 1).rows,
      Forest(cat, cs[1..], kind, parent, next).rows;
    assert own == [own[0]] && own[0].citationNorm == Norm(cat.upper, Label(cat.upper, cs[0].props, cs[0].id));
    assert Forest(cat, cs, kind, parent, index).rows == own + below + rest;
    hide Forest, Norm, Label, Own;
    assert rows + (own + below + rest) == rows + own + below + rest;
  }

  lemma NoForestRows(cat: Catalog, kind: string, parent: int, index: int, rows: seq<Row>)
    ensures rows + Forest(cat, [], kind, parent, index).rows == rows
  {
  }

  lemma {:induction false} ControlsLabelled(cat: Catalog, cs: seq<Control>, kind: string, parent: int, index: int,
                                            labels: map<string, string>, rows: seq<Row>)
    requires Labelled(cat.upper, labels, rows)
    ensures Labelled(cat.upper, ControlLabels(cat.upper, cs, labels), rows + Forest(cat, cs, kind, parent, index).rows)
    decreases cs
  {
    hide Labelled, Norm, Label, Forest, Own, Size;
    if cs == [] {
      NoForestRows(cat, kind, parent, index, rows);
    } else {
      ForestRowsAfter(cat, cs, kind, parent, index, rows);
      var name, row := Label(cat.upper, cs[0].props, cs[0].id), Own(cat, cs[0], kind, parent, index).rows[0];
      var below := Forest(cat, cs[0].controls, "enhancement", index, index + 1).rows;
      LabelledOne(cat.upper, labels, rows, cs[0].id, name, row);
      ControlsLabelled(cat, cs[0].controls, "enhancement", index, index + 1, labels[cs[0].id := name], rows + [row]);
      ControlsLabelled(cat, cs[1..], kind, parent, index + 1 + Size(cs[0].controls),
                       ControlLabels(cat.upper, cs[0].controls, labels[cs[0].id := name]), rows + [row] + below);
    }
  }

  lemma NoGroupRows(cat: Catalog, index: int, rows: seq<Row>)
    ensures rows + Groups(cat, [], index).rows == rows
  {
  }

  lemma GroupRowsAfter(cat: Catalog, gs: seq<Group>, index: int, rows: seq<Row>)
    requires gs != []
    ensures var g, next := gs[0], index + 1 + Size(gs[0].controls);
            rows + Groups(cat, gs, index).rows == rows + [Family(cat, g, index)]
              + Forest(cat, g.controls, "control", index, index + 1).rows + Groups(cat, gs[1..], next).rows
  {
  }

  lemma {:induction false} GroupsLabelled(cat: Catalog, gs: seq<Group>, index: int, labels: map<string, string>,
                                          rows: seq<Row>)
    requires Labelled(cat.upper, labels, rows)
    ensures Labelled(cat.upper, GroupLabels(cat.upper, gs, labels), rows + Groups(cat, gs, index).rows)
    decreases gs
  {
    hide Labelled, Norm, Label, Forest, Groups, ControlLabels, Size;
    if gs == [] {
      NoGroupRows(cat, index, rows);
    } else {
      var name, family := Label(cat.upper, gs[0].props, gs[0].id), Family(cat, gs[0], index);
      var next := index + 1 + Size(gs[0].controls);
      var below := Forest(cat, gs[0].controls, "control", index, index + 1).rows;
      GroupRowsAfter(cat, gs, index, rows);
      LabelledOne(cat.upper, labels, rows, gs[0].id, name, family);
      ControlsLabelled(cat, gs[0].controls, "control", index, index + 1, labels[gs[0].id := name], rows + [family]);
      GroupsLabelled(cat, gs[1..], next, ControlLabels(cat.upper, gs[0].controls, labels[gs[0].id := name]),
                     rows + [family] + below);
    }
  }

  lemma {:induction false} EdgesResolve(cat: Catalog, links: seq<seq<Link>>, index: int)
    ensures forall m :: m in EdgesOfRows(cat, links, index) ==>
              index <= m.fromIdx < index + |links| && links[m.fromIdx - index] != []
              && m.toCitationNorm == ResolveHref(cat.upper, cat.labels, m.provenance) != ""
    decreases |links|
  {
    if links != [] {
      EachLinkResolves(cat.upper, cat.labels, links[0], index, "");
      EdgesResolve(cat, links[1..], index + 1);
      if links[0] == [] { assert EdgesOf(cat.upper, cat.labels, links[0], index) == []; }
    }
  }

  // Every edge starts at a withdrawn row and names the citation norm of a row.
  lemma {:induction false} EdgesLeadToRows(upper: Upper, gs: seq<Group>, m: Mapping)
    requires m in Built(upper, gs).mappings
    ensures var rows := Built(upper, gs).rows;
            0 <= m.fromIdx < |rows| && rows[m.fromIdx].status == "withdrawn" && HasNorm(rows, m.toCitationNorm)
  {
    var cat, t := CatalogOf(upper, gs), Built(upper, gs);
    GroupsRecord(cat, gs, 0);
    EdgesResolve(cat, LinksOfRows(gs), 0);
    BuiltLabelled(upper, gs);
    hide EdgesOfRows, MissesOfRows, LinksOfRows, Groups, HasNorm, Norm, GroupLabels, Labelled;
    assert Target(m.provenance) in cat.labels;
    LabelHasNorm(upper, cat.labels, t.rows, Target(m.provenance));
  }

  lemma LabelHasNorm(upper: Upper, labels: map<string, string>, rows: seq<Row>, id: string)
    requires Labelled(upper, labels, rows) && id in labels
    ensures HasNorm(rows, Norm(upper, labels[id]))
  {
  }

  lemma BuiltLabelled(upper: Upper, gs: seq<Group>)
    ensures Labelled(upper, CatalogOf(upper, gs).labels, Built(upper, gs).rows)
  {
    GroupsLabelled(CatalogOf(upper, gs), gs, 0, map[], []);
    assert [] + Built(upper, gs).rows == Built(upper, gs).rows;
  }
}
