// Building the control tree of an OSCAL catalog: a recursive walk that appends rows,
// mapping edges and unresolved links to a shared result.
module Oscal {
  datatype Prop = Prop(name: string, value: string)
  datatype Link = Link(href: string, rel: string)
  datatype Control = Control(id: string, title: string, props: seq<Prop>, links: seq<Link>, controls: seq<Control>)
  datatype Group = Group(id: string, title: string, props: seq<Prop>, controls: seq<Control>)

  datatype Row = Row(citation: string, citationNorm: string, kind: string, status: string, title: string,
                     parentIdx: int, ordinal: int)
  datatype Mapping = Mapping(fromIdx: int, toCitationNorm: string, relationship: string, provenance: string)
  datatype Unresolved = Unresolved(citation: string, href: string)

  // strings.ToUpper is an argument.
  type Upper = string -> string

  // --- Labels ---

  function Label(upper: Upper, props: seq<Prop>, id: string): string {
    if props == [] then upper(id) else if props[0].name == "label" then props[0].value else Label(upper, props[1..], id)
  }

  function NoSpaces(s: string): string {
    if s == [] then [] else (if s[0] == ' ' then [] else [s[0]]) + NoSpaces(s[1..])
  }

  function Norm(upper: Upper, label_: string): string {
    upper(NoSpaces(label_))
  }

  function Status(props: seq<Prop>): string {
    if exists k :: 0 <= k < |props| && props[k].name == "status" && props[k].value == "withdrawn" then "withdrawn"
      else "active"
  }

  // --- Links ---

  function FirstUnderscore(s: string): int {
    if s == [] then -1
    else if s[0] == '_' then 0
    else
      var i := FirstUnderscore(s[1..]);
      if i < 0 then -1 else i + 1
  }

  // The control id an href points to: without the hash sign and the part suffix.
  function Target(href: string): string {
    var t := if "#" <= href then href[1..] else href;
    var i := FirstUnderscore(t);
    if 0 < i <= |t| then t[..i] else t
  }

  function ResolveHref(upper: Upper, labels: map<string, string>, href: string): string {
    if Target(href) in labels then Norm(upper, labels[Target(href)]) else ""
  }

  predicate Moves(link: Link) {
    link.rel == "incorporated-into" || link.rel == "moved-to"
  }

  // What one withdrawn control's links yield, in order.
  function EdgesOf(upper: Upper, labels: map<string, string>, links: seq<Link>, from: int): seq<Mapping> {
    if links == [] then []
    else
      var rest := EdgesOf(upper, labels, links[1..], from);
      var norm := ResolveHref(upper, labels, links[0].href);
      if Moves(links[0]) && norm != "" then [Mapping(from, norm, links[0].rel, links[0].href)] + rest else rest
  }

  function MissesOf(upper: Upper, labels: map<string, string>, links: seq<Link>, citation: string): seq<Unresolved> {
    if links == [] then []
    else
      var rest := MissesOf(upper, labels, links[1..], citation);
      if Moves(links[0]) && ResolveHref(upper, labels, links[0].href) == "" then [Unresolved(citation, links[0].href)]
        + rest else rest
  }

  // --- The tree, in preorder ---

  // What BuildOSCALTree returns, but for the title.
  datatype Tree = Tree(rows: seq<Row>, mappings: seq<Mapping>, unresolved: seq<Unresolved>)

  const NOTHING := Tree([], [], [])

  function Join(a: Tree, b: Tree): Tree {
    Tree(a.rows + b.rows, a.mappings + b.mappings, a.unresolved + b.unresolved)
  }

  lemma JoinTwice(a: Tree, b: Tree, c: Tree)
    ensures Join(a, Join(b, c)) == Join(Join(a, b), c)
  {
  }

  lemma JoinNothing(a: Tree)
    ensures Join(a, NOTHING) == a && Join(NOTHING, a) == a
  {
  }

  // Controls of a forest, at every depth.
  function Size(cs: seq<Control>): nat {
    if cs == [] then 0 else 1 + Size(cs[0].controls) + Size(cs[1..])
  }

  // The source of the tree: its catalog's labels.
  datatype Catalog = Catalog(upper: Upper, labels: map<string, string>)

  function Own(cat: Catalog, c: Control, kind: string, parent: int, index: int): Tree {
    var name := Label(cat.upper, c.props, c.id);
    var row := Row(name, Norm(cat.upper, name), kind, Status(c.props), c.title, parent, index);
    if Status(c.props) == "withdrawn"
    then Tree([row], EdgesOf(cat.upper, cat.labels, c.links, index), MissesOf(cat.upper, cat.labels, c.links, name))
    else Tree([row], [], [])
  }

  // One control and all below it; its row has the given index.
  function One(cat: Catalog, c: Control, kind: string, parent: int, index: int): (t: Tree)
    ensures |t.rows| == 1 + Size(c.controls)
    decreases c, 1
  {
    Join(Own(cat, c, kind, parent, index), Forest(cat, c.controls, "enhancement", index, index + 1))
  }

  function Forest(cat: Catalog, cs: seq<Control>, kind: string, parent: int, index: int): (t: Tree)
    ensures |t.rows| == Size(cs)
    decreases cs, 0
  {
    if cs == [] then NOTHING
    else Join(One(cat, cs[0], kind, parent, index),
              Forest(cat, cs[1..], kind, parent, index + 1 + Size(cs[0].controls)))
  }

  function Family(cat: Catalog, g: Group, index: int): Row {
    var name := Label(cat.upper, g.props, g.id);
    Row(name, Norm(cat.upper, name), "family", "active", g.title, -1, index)
  }

  function GroupSize(gs: seq<Group>): nat {
    if gs == [] then 0 else 1 + Size(gs[0].controls) + GroupSize(gs[1..])
  }

  function OneGroup(cat: Catalog, g: Group, index: int, rest: Tree): Tree {
    Join(Tree([Family(cat, g, index)], [], []), Join(Forest(cat, g.controls, "control", index, index + 1), rest))
  }

  function Groups(cat: Catalog, gs: seq<Group>, index: int): (t: Tree)
    ensures |t.rows| == GroupSize(gs)
  {
    if gs == [] then NOTHING
    else OneGroup(cat, gs[0], index, Groups(cat, gs[1..], index + 1 + Size(gs[0].controls)))
  }

  // Labels of groups and controls by id; a later id overrides an earlier one.
  function ControlLabels(upper: Upper, cs: seq<Control>, labels: map<string, string>): map<string, string> {
    if cs == [] then labels
    else
      var mine := labels[cs[0].id := Label(upper, cs[0].props, cs[0].id)];
      ControlLabels(upper, cs[1..], ControlLabels(upper, cs[0].controls, mine))
  }

  function GroupLabels(upper: Upper, gs: seq<Group>, labels: map<string, string>): map<string, string>
    decreases gs
  {
    if gs == [] then labels
    else GroupLabels(upper, gs[1..],
                     ControlLabels(upper, gs[0].controls, labels[gs[0].id := Label(upper, gs[0].props, gs[0].id)]))
  }

  function Built(upper: Upper, gs: seq<Group>): Tree {
    Groups(Catalog(upper, GroupLabels(upper, gs, map[])), gs, 0)
  }

  // --- The walk ---

  lemma NextTree(cat: Catalog, t: Tree, cs: seq<Control>, i: nat, kind: string, parent: int)
    requires i < |cs|
    ensures var next := Join(t, One(cat, cs[i], kind, parent, |t.rows|));
            Join(t, Forest(cat, cs[i..], kind, parent, |t.rows|))
              == Join(next, Forest(cat, cs[i + 1..], kind, parent, |next.rows|))
  {
    assert cs[i..][1..] == cs[i + 1..] && cs[i..][0] == cs[i];
    JoinTwice(t, One(cat, cs[i], kind, parent, |t.rows|),
              Forest(cat, cs[i + 1..], kind, parent, |t.rows| + 1 + Size(cs[i].controls)));
  }

  // What walking one group appends.
  function WithGroup(cat: Catalog, t: Tree, g: Group): Tree {
    Join(Join(t, Tree([Family(cat, g, |t.rows|)], [], [])), Forest(cat, g.controls, "control", |t.rows|, |t.rows| + 1))
  }

  lemma FirstGroup(cat: Catalog, gs: seq<Group>, i: nat, index: int)
    requires i < |gs|
    ensures Groups(cat, gs[i..], index)
      == OneGroup(cat, gs[i], index, Groups(cat, gs[i + 1..], index + 1 + Size(gs[i].controls)))
  {
    assert gs[i..][1..] == gs[i + 1..] && gs[i..][0] == gs[i];
  }

  lemma WithGroupSize(cat: Catalog, t: Tree, g: Group)
    ensures |WithGroup(cat, t, g).rows| == |t.rows| + 1 + Size(g.controls)
  {
  }

  lemma JoinInside(t: Tree, a: Tree, b: Tree, c: Tree, whole: Tree, front: Tree)
    requires whole == Join(a, Join(b, c)) && front == Join(Join(t, a), b)
    ensures Join(t, whole) == Join(front, c)
  {
    JoinTwice(t, a, Join(b, c));
    JoinTwice(Join(t, a), b, c);
  }

  lemma NextGroup(cat: Catalog, t: Tree, gs: seq<Group>, i: nat, next: Tree)
    requires i < |gs| && next == WithGroup(cat, t, gs[i])
    ensures Join(t, Groups(cat, gs[i..], |t.rows|)) == Join(next, Groups(cat, gs[i + 1..], |next.rows|))
  {
    hide Forest, Groups;
    var n := |t.rows|;
    FirstGroup(cat, gs, i, n);
    WithGroupSize(cat, t, gs[i]);
    JoinInside(t, Tree([Family(cat, gs[i], n)], [], []), Forest(cat, gs[i].controls, "control", n, n + 1),
               Groups(cat, gs[i + 1..], n + 1 + Size(gs[i].controls)), Groups(cat, gs[i..], n), next);
  }

  class Walker {
    const upper: Upper
    var labels: map<string, string>
    var result: Tree
    var ordinal: int

    ghost function Cat(): Catalog reads this { Catalog(upper, labels) }

    constructor (upper: Upper)
      ensures this.upper == upper && result == NOTHING && ordinal == 0 && labels == map[]
    {
      this.upper, labels, result, ordinal := upper, map[], NOTHING, 0;
    }

    // The links of a withdrawn control.
    method Follow(links: seq<Link>, from: int, citation: string)
      modifies this`result
      ensures result == Join(old(result),
                             Tree([], EdgesOf(upper, labels, links, from), MissesOf(upper, labels, links, citation)))
    {
      ghost var whole := Join(result,
                              Tree([], EdgesOf(upper, labels, links, from), MissesOf(upper, labels, links, citation)));
      var i := 0;
      while i < |links|
        invariant i <= |links|
        invariant whole == Join(result,
                                Tree([], EdgesOf(upper, labels, links[i..], from),
                                     MissesOf(upper, labels, links[i..], citation)))
      {
        assert links[i..][1..] == links[i + 1..];
        ghost var rest := Tree([], EdgesOf(upper, labels, links[i + 1..], from),
                               MissesOf(upper, labels, links[i + 1..], citation));
        if Moves(links[i]) {
          var norm := ResolveHref(upper, labels, links[i].href);
          if norm == "" {
            JoinTwice(result, Tree([], [], [Unresolved(citation, links[i].href)]), rest);
            result := result.(unresolved := result.unresolved + [Unresolved(citation, links[i].href)]);
          } else {
            JoinTwice(result, Tree([], [Mapping(from, norm, links[i].rel, links[i].href)], []), rest);
            result := result.(mappings := result.mappings + [Mapping(from, norm, links[i].rel, links[i].href)]);
          }
        }
        i := i + 1;
      }
      JoinNothing(result);
    }

    // walkOSCALControls up to its recursive calls: the control's own row and links.
    method Visit(c: Control, parentIdx: int, kind: string)
      requires ordinal == |result.rows|
      modifies this`result, this`ordinal
      ensures result == Join(old(result), Own(Cat(), c, kind, parentIdx, |old(result).rows|))
      ensures ordinal == |result.rows|
    {
      var thisIdx := |result.rows|;
      var name := Label(upper, c.props, c.id);
      var status := Status(c.props);
      result := result.(rows := result.rows
                        + [Row(name, Norm(upper, name), kind, status, c.title, parentIdx, ordinal)]);
      ordinal := ordinal + 1;
      if status == "withdrawn" {
        Follow(c.links, thisIdx, name);
      }
    }

    // walkOSCALControls
    method Walk(c: Control, parentIdx: int, kind: string)
      requires ordinal == |result.rows|
      modifies this`result, this`ordinal
      ensures result == Join(old(result), One(Cat(), c, kind, parentIdx, |old(result).rows|))
      ensures ordinal == |result.rows|
      decreases c, 1
    {
      var thisIdx := |result.rows|;
      JoinTwice(result, Own(Cat(), c, kind, parentIdx, thisIdx),
                Forest(Cat(), c.controls, "enhancement", thisIdx, thisIdx + 1));
      Visit(c, parentIdx, kind);
      WalkAll(c, c.controls, thisIdx, "enhancement");
    }

    // The loop over nested controls.
    method WalkAll(ghost of: Control, cs: seq<Control>, parentIdx: int, kind: string)
      requires ordinal == |result.rows| && cs == of.controls
      modifies this`result, this`ordinal
      ensures result == Join(old(result), Forest(Cat(), cs, kind, parentIdx, |old(result).rows|))
      ensures ordinal == |result.rows|
      decreases of, 0
    {
      ghost var cat := Cat();
      ghost var whole := Join(result, Forest(cat, cs, kind, parentIdx, |result.rows|));
      assert cs[0..] == cs;
      var i := 0;
      while i < |cs|
        invariant i <= |cs| && ordinal == |result.rows| && cat == Cat()
        invariant whole == Join(result, Forest(cat, cs[i..], kind, parentIdx, |result.rows|))
      {
        NextTree(cat, result, cs, i, kind, parentIdx);
        Walk(cs[i], parentIdx, kind);
        i := i + 1;
      }
      JoinNothing(result);
    }

    // buildIDIndex
    method IndexIds(ghost of: Control, cs: seq<Control>)
      requires cs == of.controls
      modifies this`labels
      ensures labels == ControlLabels(upper, cs, old(labels))
      decreases of
    {
      ghost var whole := ControlLabels(upper, cs, labels);
      assert cs[0..] == cs;
      var i := 0;
      while i < |cs|
        invariant i <= |cs| && whole == ControlLabels(upper, cs[i..], labels)
      {
        assert cs[i..][1..] == cs[i + 1..] && cs[i..][0] == cs[i];
        labels := labels[cs[i].id := Label(upper, cs[i].props, cs[i].id)];
        IndexIds(cs[i], cs[i].controls);
        i := i + 1;
      }
    }

    method AppendFamily(g: Group)
      requires ordinal == |result.rows|
      modifies this`result, this`ordinal
      ensures result == Join(old(result), Tree([Family(Cat(), g, |old(result).rows|)], [], []))
      ensures ordinal == |result.rows|
    {
      var familyLabel := Label(upper, g.props, g.id);
      result := result.(rows := result.rows
                        + [Row(familyLabel, Norm(upper, familyLabel), "family", "active", g.title, -1, ordinal)]);
      ordinal := ordinal + 1;
    }

    // One group's row and its controls.
    method WalkGroup(g: Group)
      requires ordinal == |result.rows|
      modifies this`result, this`ordinal
      ensures result == WithGroup(Cat(), old(result), g) && ordinal == |result.rows|
    {
      var familyIdx := |result.rows|;
      AppendFamily(g);
      WalkAll(Control(g.id, g.title, g.props, [], g.controls), g.controls, familyIdx, "control");
    }

    // BuildOSCALTree, from the decoded groups on.
    method Build(gs: seq<Group>)
      requires labels == map[] && result == NOTHING && ordinal == 0
      modifies this`labels, this`result, this`ordinal
      ensures result == Built(upper, gs)
    {
      IndexGroups(gs);
      ghost var cat := Cat();
      ghost var whole := Groups(cat, gs, 0);
      assert gs[0..] == gs;
      JoinNothing(whole);
      var i := 0;
      while i < |gs|
        invariant i <= |gs| && ordinal == |result.rows| && cat == Cat()
        invariant whole == Join(result, Groups(cat, gs[i..], |result.rows|))
      {
        NextGroup(cat, result, gs, i, WithGroup(cat, result, gs[i]));
        WalkGroup(gs[i]);
        i := i + 1;
      }
      JoinNothing(result);
    }

    method IndexGroups(gs: seq<Group>)
      modifies this`labels
      ensures labels == GroupLabels(upper, gs, old(labels))
    {
      ghost var whole := GroupLabels(upper, gs, labels);
      assert gs[0..] == gs;
      var i := 0;
      while i < |gs|
        invariant i <= |gs| && whole == GroupLabels(upper, gs[i..], labels)
      {
        assert gs[i..][1..] == gs[i + 1..] && gs[i..][0] == gs[i];
        labels := labels[gs[i].id := Label(upper, gs[i].props, gs[i].id)];
        IndexIds(Control(gs[i].id, gs[i].title, gs[i].props, [], gs[i].controls), gs[i].controls);
        i := i + 1;
      }
    }
  }
}
