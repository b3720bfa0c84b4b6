// The rows, edges and unresolved records of a catalog, each traced to the group, control
// or link that it comes from, in the catalog's own terms.
module OscalSources {
  import opened Collections
  import opened Oscal
  import opened OscalLinks

  // A group or control, without what is below it.
  datatype Source = Source(id: string, title: string, kind: string, props: seq<Prop>, links: seq<Link>)

  function ControlSources(cs: seq<Control>, kind: string): (s: seq<Source>)
    ensures |s| == Size(cs)
  {
    if cs == [] then []
    else
      [Source(cs[0].id, cs[0].title, kind, cs[0].props, cs[0].links)]
        + ControlSources(cs[0].controls, "enhancement") + ControlSources(cs[1..], kind)
  }

  // Each group, followed by all its controls at every depth.
  function Sources(gs: seq<Group>): (s: seq<Source>)
    ensures |s| == GroupSize(gs)
  {
    if gs == [] then []
    else
      [Source(gs[0].id, gs[0].title, "family", gs[0].props, [])]
        + ControlSources(gs[0].controls, "control") + Sources(gs[1..])
  }

  // --- Rows ---

  ghost predicate HasProp(props: seq<Prop>, name: string) {
    exists j :: 0 <= j < |props| && props[j].name == name
  }

  // The value of the first property of the name.
  ghost predicate FirstValue(props: seq<Prop>, name: string, value: string) {
    exists j :: 0 <= j < |props| && props[j].name == name && props[j].value == value
      && forall i :: 0 <= i < j ==> props[i].name != name
  }

  ghost predicate IsLabel(upper: Upper, s: Source, name: string) {
    if HasProp(s.props, "label") then FirstValue(s.props, "label", name) else name == upper(s.id)
  }

  ghost predicate Withdrawn(s: Source) {
    s.kind != "family"
    && exists j :: 0 <= j < |s.props| && s.props[j].name == "status" && s.props[j].value == "withdrawn"
  }

  ghost predicate RowIs(upper: Upper, row: Row, s: Source) {
    && IsLabel(upper, s, row.citation) && row.citationNorm == upper(NoSpaces(row.citation))
    && row.kind == s.kind && row.title == s.title && row.status == (if Withdrawn(s) then "withdrawn" else "active")
  }

  ghost predicate RowsAre(upper: Upper, rows: seq<Row>, sources: seq<Source>) {
    |rows| == |sources| && forall k :: 0 <= k < |rows| ==> RowIs(upper, rows[k], sources[k])
  }

  // Spaces go, whatever is around them, and nothing else does.
  lemma {:induction false} SpacesGo(a: string, b: string)
    ensures NoSpaces(a + b) == NoSpaces(a) + NoSpaces(b) && NoSpaces(" ") == []
    ensures ' ' !in NoSpaces(a) && (' ' !in a ==> NoSpaces(a) == a)
    decreases |a|
  {
    if a == [] {
      assert a + b == b;
    } else {
      assert (a + b)[1..] == a[1..] + b && (a + b)[0] == a[0];
      SpacesGo(a[1..], b);
      FirstSpace(a);
      FirstSpace(a + b);
      hide NoSpaces;
      Regroup(if a[0] == ' ' then [] else [a[0]], NoSpaces(a[1..]), NoSpaces(b));
      assert a == [a[0]] + a[1..];
    }
    OneSpace();
  }

  lemma FirstSpace(a: string)
    requires a != []
    ensures NoSpaces(a) == (if a[0] == ' ' then [] else [a[0]]) + NoSpaces(a[1..])
  {
  }

  lemma OneSpace()
    ensures NoSpaces("") == "" && NoSpaces(" ") == ""
  {
    assert " "[1..] == "";
  }

  lemma {:induction false} LabelIsFirst(upper: Upper, props: seq<Prop>, id: string)
    ensures if HasProp(props, "label") then FirstValue(props, "label", Label(upper, props, id))
            else Label(upper, props, id) == upper(id)
    decreases |props|
  {
    if props != [] {
      if props[0].name == "label" {
        assert FirstValue(props, "label", props[0].value);
      } else {
        LabelIsFirst(upper, props[1..], id);
        PropInTail(props, "label");
        if HasProp(props[1..], "label") { LaterLabel(props, Label(upper, props, id)); }
      }
    }
  }

  lemma PropInTail(props: seq<Prop>, name: string)
    requires props != []
    ensures HasProp(props, name) <==> props[0].name == name || HasProp(props[1..], name)
  {
    if HasProp(props[1..], name) {
      var j :| 0 <= j < |props| - 1 && props[1..][j].name == name;
      assert props[j + 1].name == name;
    }
    if HasProp(props, name) && props[0].name != name {
      var j :| 0 <= j < |props| && props[j].name == name;
      assert props[1..][j - 1].name == name;
    }
  }

  lemma LaterLabel(props: seq<Prop>, value: string)
    requires props != [] && props[0].name != "label" && FirstValue(props[1..], "label", value)
    ensures HasProp(props, "label") && FirstValue(props, "label", value)
  {
    var j :| 0 <= j < |props| - 1 && props[1..][j].name == "label" && props[1..][j].value == value
      && forall i :: 0 <= i < j ==> props[1..][i].name != "label";
    assert props[j + 1] == props[1..][j];
    forall i | 0 <= i < j + 1 ensures props[i].name != "label" {
      if i > 0 { assert props[i] == props[1..][i - 1]; }
    }
  }

  lemma OwnRowIs(cat: Catalog, c: Control, kind: string, parent: int, index: int)
    requires kind != "family"
    ensures RowsAre(cat.upper, Own(cat, c, kind, parent, index).rows,
                    [Source(c.id, c.title, kind, c.props, c.links)])
  {
    LabelIsFirst(cat.upper, c.props, c.id);
  }

  lemma RowsAppend(upper: Upper, a: seq<Row>, b: seq<Row>, sa: seq<Source>, sb: seq<Source>)
    requires RowsAre(upper, a, sa) && RowsAre(upper, b, sb)
    ensures RowsAre(upper, a + b, sa + sb)
  {
  }

  lemma {:induction false} ForestRowsAre(cat: Catalog, cs: seq<Control>, kind: string, parent: int, index: int)
    requires kind != "family"
    ensures RowsAre(cat.upper, Forest(cat, cs, kind, parent, index).rows, ControlSources(cs, kind))
    decreases cs
  {
    hide RowsAre, Own;
    if cs == [] {
      NoRows(cat.upper);
    } else {
      var next, c := index + 1 + Size(cs[0].controls), cs[0];
      var own, below := Own(cat, c, kind, parent, index).rows,
        Forest(cat, c.controls, "enhancement", index, index + 1).rows;
      OwnRowIs(cat, c, kind, parent, index);
      ForestRowsAre(cat, c.controls, "enhancement", index, index + 1);
      ForestRowsAre(cat, cs[1..], kind, parent, next);
      var s := [Source(c.id, c.title, kind, c.props, c.links)];
      RowsAppend(cat.upper, own, below, s, ControlSources(c.controls, "enhancement"));
      RowsAppend(cat.upper, own + below, Forest(cat, cs[1..], kind, parent, next).rows,
                 s + ControlSources(c.controls, "enhancement"), ControlSources(cs[1..], kind));
    }
  }

  lemma FamilyRowIs(cat: Catalog, g: Group, index: int)
    ensures RowsAre(cat.upper, [Family(cat, g, index)], [Source(g.id, g.title, "family", g.props, [])])
  {
    LabelIsFirst(cat.upper, g.props, g.id);
  }

  lemma {:induction false} GroupsRowsAre(cat: Catalog, gs: seq<Group>, index: int)
    ensures RowsAre(cat.upper, Groups(cat, gs, index).rows, Sources(gs))
    decreases gs
  {
    hide RowsAre, Forest, Family, ControlSources;
    if gs == [] {
      NoRows(cat.upper);
    } else {
      var g, next := gs[0], index + 1 + Size(gs[0].controls);
      var below, rest := Forest(cat, g.controls, "control", index, index + 1).rows, Groups(cat, gs[1..], next).rows;
      FamilyRowIs(cat, g, index);
      ForestRowsAre(cat, g.controls, "control", index, index + 1);
      GroupsRowsAre(cat, gs[1..], next);
      var s, inner := [Source(g.id, g.title, "family", g.props, [])], ControlSources(g.controls, "control");
      RowsAppend(cat.upper, below, rest, inner, Sources(gs[1..]));
      RowsAppend(cat.upper, [Family(cat, g, index)], below + rest, s, inner + Sources(gs[1..]));
      Regroup(s, inner, Sources(gs[1..]));
    }
  }

  lemma NoRows(upper: Upper)
    ensures RowsAre(upper, [], [])
  {
  }

  // Row by row: the label is the value of the first property named so, or else the id in
  // upper case; the norm is the label without spaces in upper case; and exactly a control
  // with a status property of value "withdrawn" is withdrawn.
  lemma {:induction false} EachRowSaysItsSource(upper: Upper, gs: seq<Group>)
    ensures RowsAre(upper, Built(upper, gs).rows, Sources(gs))
  {
    GroupsRowsAre(CatalogOf(upper, gs), gs, 0);
  }

  // --- The row an href names ---

  // The href carries the id, after an optional hash sign and before an underscore that is
  // not its first character.
  ghost predicate CarriesId(href: string, id: string) {
    var t := if href != "" && href[0] == '#' then href[1..] else href;
    if t == "" || t[0] == '_' || '_' !in t then id == t else '_' !in id && id + "_" <= t
  }

  // The last row with the id that the href carries.
  ghost predicate Names(sources: seq<Source>, href: string, k: int) {
    && 0 <= k < |sources| && CarriesId(href, sources[k].id)
    && forall j :: k < j < |sources| ==> sources[j].id != sources[k].id
  }

  lemma {:induction false} UnderscoreIsFirst(s: string)
    ensures var i := FirstUnderscore(s);
            if '_' in s then 0 <= i < |s| && s[i] == '_' && '_' !in s[..i] else i == -1
    decreases |s|
  {
    if s != [] && s[0] != '_' {
      UnderscoreIsFirst(s[1..]);
      var i := FirstUnderscore(s[1..]);
      if '_' in s {
        assert s[..i + 1] == [s[0]] + s[1..][..i];
      }
    }
  }

  lemma NotUnderscore(a: string, t: string, k: nat)
    requires '_' !in a && a + "_" <= t && k < |t|
    ensures k >= |a| || t[k] != '_'
  {
    if k < |a| { assert t[k] == (a + "_")[k] == a[k]; }
  }

  lemma PrefixIsSame(t: string, a: string, b: string)
    requires '_' !in a && '_' !in b && a + "_" <= t && b + "_" <= t
    ensures a == b
  {
    assert (a + "_")[|a|] == t[|a|] && (b + "_")[|b|] == t[|b|];
    NotUnderscore(b, t, |a|);
    NotUnderscore(a, t, |b|);
    assert (a + "_")[..|a|] == a && (b + "_")[..|b|] == b;
  }

  lemma TargetIsCarried(href: string, id: string)
    ensures CarriesId(href, id) <==> id == Target(href)
  {
    var t := if "#" <= href then href[1..] else href;
    UnderscoreIsFirst(t);
    if t != "" && t[0] != '_' && '_' in t {
      var i := FirstUnderscore(t);
      assert t[..i] + "_" == t[..i + 1];
      assert Target(href) == t[..i] && CarriesId(href, t[..i]);
      if CarriesId(href, id) { PrefixIsSame(t, id, t[..i]); }
    }
  }

  function LabelOf(upper: Upper, s: Source): string {
    Label(upper, s.props, s.id)
  }

  // Labels by id, from first to last.
  function Indexed(upper: Upper, sources: seq<Source>, labels: map<string, string>): map<string, string> {
    if sources == [] then labels
    else Indexed(upper, sources[1..], labels[sources[0].id := LabelOf(upper, sources[0])])
  }

  lemma {:induction false} IndexedAppend(upper: Upper, a: seq<Source>, b: seq<Source>, labels: map<string, string>)
    ensures Indexed(upper, a + b, labels) == Indexed(upper, b, Indexed(upper, a, labels))
    decreases |a|
  {
    if a == [] {
      assert a + b == b;
    } else {
      assert (a + b)[1..] == a[1..] + b;
      IndexedAppend(upper, a[1..], b, labels[a[0].id := LabelOf(upper, a[0])]);
    }
  }

  lemma IndexedOne(upper: Upper, s: Source, labels: map<string, string>)
    ensures Indexed(upper, [s], labels) == labels[s.id := LabelOf(upper, s)]
  {
    assert Indexed(upper, [s][1..], labels[s.id := LabelOf(upper, s)]) == labels[s.id := LabelOf(upper, s)];
  }

  lemma {:induction false} ControlsIndexed(upper: Upper, cs: seq<Control>, kind: string, labels: map<string, string>)
    ensures ControlLabels(upper, cs, labels) == Indexed(upper, ControlSources(cs, kind), labels)
    decreases cs
  {
    if cs != [] {
      var c, s := cs[0], Source(cs[0].id, cs[0].title, kind, cs[0].props, cs[0].links);
      var mine := labels[c.id := LabelOf(upper, s)];
      var below := ControlSources(c.controls, "enhancement");
      ControlsIndexed(upper, c.controls, "enhancement", mine);
      ControlsIndexed(upper, cs[1..], kind, ControlLabels(upper, c.controls, mine));
      IndexedOne(upper, s, labels);
      IndexedAppend(upper, [s], below, labels);
      IndexedAppend(upper, [s] + below, ControlSources(cs[1..], kind), labels);
    }
  }

  lemma {:induction false} GroupsIndexed(upper: Upper, gs: seq<Group>, labels: map<string, string>)
    ensures GroupLabels(upper, gs, labels) == Indexed(upper, Sources(gs), labels)
    decreases gs
  {
    if gs != [] {
      var g, s := gs[0], Source(gs[0].id, gs[0].title, "family", gs[0].props, []);
      var mine, below := labels[g.id := LabelOf(upper, s)], ControlSources(gs[0].controls, "control");
      ControlsIndexed(upper, g.controls, "control", mine);
      GroupsIndexed(upper, gs[1..], ControlLabels(upper, g.controls, mine));
      IndexedOne(upper, s, labels);
      IndexedAppend(upper, [s], below, labels);
      IndexedAppend(upper, [s] + below, Sources(gs[1..]), labels);
    }
  }

  ghost predicate LastWith(sources: seq<Source>, id: string, k: int) {
    0 <= k < |sources| && sources[k].id == id && forall j :: k < j < |sources| ==> sources[j].id != id
  }

  // A later source of an id overrides an earlier one.
  lemma {:induction false} LastLabelStays(upper: Upper, sources: seq<Source>, id: string, n: nat)
    requires n <= |sources|
    ensures id in Indexed(upper, sources[..n], map[]) <==> exists k :: LastWith(sources[..n], id, k)
    ensures forall k :: LastWith(sources[..n], id, k) ==>
              id in Indexed(upper, sources[..n], map[])
              && Indexed(upper, sources[..n], map[])[id] == LabelOf(upper, sources[k])
    decreases n
  {
    if n > 0 {
      var front, last := sources[..n - 1], sources[n - 1];
      LastLabelStays(upper, sources, id, n - 1);
      assert sources[..n] == front + [last];
      IndexedAppend(upper, front, [last], map[]);
      IndexedOne(upper, last, Indexed(upper, front, map[]));
      hide Indexed, LabelOf;
      if last.id == id {
        assert LastWith(sources[..n], id, n - 1);
      } else {
        forall k ensures LastWith(sources[..n], id, k) <==> LastWith(front, id, k) {
          LastInFront(sources, id, n, k);
        }
      }
    }
  }

  lemma LastInFront(sources: seq<Source>, id: string, n: nat, k: int)
    requires 0 < n <= |sources| && sources[n - 1].id != id
    ensures LastWith(sources[..n], id, k) <==> LastWith(sources[..n - 1], id, k)
  {
    var a, b := sources[..n], sources[..n - 1];
    assert forall j :: 0 <= j < n - 1 ==> a[j] == b[j];
    assert a[n - 1].id != id;
  }

  // An href resolves to the norm of the last row of the id it carries, if there is one.
  lemma {:induction false} HrefNamesItsRow(upper: Upper, gs: seq<Group>, href: string)
    ensures |Built(upper, gs).rows| == |Sources(gs)|
    ensures (forall k :: !Names(Sources(gs), href, k)) ==>
              ResolveHref(upper, CatalogOf(upper, gs).labels, href) == ""
    ensures forall k :: Names(Sources(gs), href, k) ==>
              ResolveHref(upper, CatalogOf(upper, gs).labels, href) == Built(upper, gs).rows[k].citationNorm
  {
    var sources, rows, id := Sources(gs), Built(upper, gs).rows, Target(href);
    GroupsIndexed(upper, gs, map[]);
    LastLabelStays(upper, sources, id, |sources|);
    assert sources[..|sources|] == sources;
    EachRowSaysItsSource(upper, gs);
    forall k
      ensures Names(sources, href, k) <==> LastWith(sources, id, k)
    {
      if 0 <= k < |sources| { TargetIsCarried(href, sources[k].id); }
    }
    forall k | Names(sources, href, k)
      ensures ResolveHref(upper, CatalogOf(upper, gs).labels, href) == rows[k].citationNorm
    {
      RowHasLabel(upper, gs, k);
    }
  }

  lemma OneLabel(upper: Upper, s: Source, a: string, b: string)
    requires IsLabel(upper, s, a) && IsLabel(upper, s, b)
    ensures a == b
  {
    if HasProp(s.props, "label") {
      var i :| 0 <= i < |s.props| && s.props[i].name == "label" && s.props[i].value == a
        && forall h :: 0 <= h < i ==> s.props[h].name != "label";
      var j :| 0 <= j < |s.props| && s.props[j].name == "label" && s.props[j].value == b
        && forall h :: 0 <= h < j ==> s.props[h].name != "label";
      assert i == j;
    }
  }

  lemma RowHasLabel(upper: Upper, gs: seq<Group>, k: nat)
    requires k < |Sources(gs)| && |Built(upper, gs).rows| == |Sources(gs)|
    ensures Built(upper, gs).rows[k].citationNorm == Norm(upper, LabelOf(upper, Sources(gs)[k]))
  {
    var s, row := Sources(gs)[k], Built(upper, gs).rows[k];
    EachRowSaysItsSource(upper, gs);
    assert RowIs(upper, row, s);
    LabelIsFirst(upper, s.props, s.id);
    OneLabel(upper, s, row.citation, LabelOf(upper, s));
  }

  // --- The links behind the records ---

  // The j-th link of a withdrawn control says where the control went.
  ghost predicate Moving(s: Source, j: int) {
    && Withdrawn(s) && 0 <= j < |s.links|
    && (s.links[j].rel == "incorporated-into" || s.links[j].rel == "moved-to")
  }

  // The href names a row whose norm is not empty.
  ghost predicate NamesNorm(sources: seq<Source>, rows: seq<Row>, href: string, norm: string)
    requires |rows| == |sources|
  {
    norm != "" && exists k :: Names(sources, href, k) && rows[k].citationNorm == norm
  }

  // The links that the edge m stands for.
  ghost function LinksOfEdge(sources: seq<Source>, rows: seq<Row>, m: Mapping): set<int>
    requires |rows| == |sources|
  {
    set j | 0 <= m.fromIdx < |sources| && 0 <= j < |sources[m.fromIdx].links| && Moving(sources[m.fromIdx], j)
            && sources[m.fromIdx].links[j] == Link(m.provenance, m.relationship)
            && NamesNorm(sources, rows, m.provenance, m.toCitationNorm)
  }

  // The links that the unresolved record u stands for, each with its row.
  ghost function LinksOfRecord(sources: seq<Source>, rows: seq<Row>, u: Unresolved): set<(int, int)>
    requires |rows| == |sources|
  {
    set k, j | 0 <= k < |sources| && 0 <= j < |sources[k].links| && Moving(sources[k], j)
               && rows[k].citation == u.citation && sources[k].links[j].href == u.href
               && !exists norm :: NamesNorm(sources, rows, u.href, norm) :: (k, j)
  }

  ghost predicate LinksFit(links: seq<seq<Link>>, sources: seq<Source>) {
    |links| == |sources|
    && forall k :: 0 <= k < |links| ==> links[k] == if Withdrawn(sources[k]) then sources[k].links else []
  }

  lemma FitAppend(a: seq<seq<Link>>, b: seq<seq<Link>>, sa: seq<Source>, sb: seq<Source>)
    requires LinksFit(a, sa) && LinksFit(b, sb)
    ensures LinksFit(a + b, sa + sb)
  {
    hide Withdrawn;
  }

  lemma OwnLinksFit(c: Control, kind: string)
    requires kind != "family"
    ensures LinksFit([MovedLinks(c)], [Source(c.id, c.title, kind, c.props, c.links)])
  {
  }

  lemma NoLinksFit(title: string, id: string, props: seq<Prop>)
    ensures LinksFit([], []) && LinksFit([[]], [Source(id, title, "family", props, [])])
  {
  }

  lemma {:induction false} ControlLinksFit(cs: seq<Control>, kind: string)
    requires kind != "family"
    ensures LinksFit(LinksIn(cs), ControlSources(cs, kind))
    decreases cs
  {
    hide LinksFit, MovedLinks;
    if cs == [] {
      NoLinksFit("", "", []);
    } else {
      var c, s := cs[0], [Source(cs[0].id, cs[0].title, kind, cs[0].props, cs[0].links)];
      OwnLinksFit(c, kind);
      ControlLinksFit(c.controls, "enhancement");
      ControlLinksFit(cs[1..], kind);
      FitAppend([MovedLinks(c)], LinksIn(c.controls), s, ControlSources(c.controls, "enhancement"));
      FitAppend([MovedLinks(c)] + LinksIn(c.controls), LinksIn(cs[1..]),
                s + ControlSources(c.controls, "enhancement"), ControlSources(cs[1..], kind));
    }
  }

  lemma {:induction false} GroupLinksFit(gs: seq<Group>)
    ensures LinksFit(LinksOfRows(gs), Sources(gs))
    decreases gs
  {
    hide LinksFit;
    NoLinksFit("", "", []);
    if gs != [] {
      var g, s := gs[0], [Source(gs[0].id, gs[0].title, "family", gs[0].props, [])];
      NoLinksFit(g.title, g.id, g.props);
      ControlLinksFit(g.controls, "control");
      GroupLinksFit(gs[1..]);
      FitAppend([[]], LinksIn(g.controls), s, ControlSources(g.controls, "control"));
      FitAppend([[]] + LinksIn(g.controls), LinksOfRows(gs[1..]),
                s + ControlSources(g.controls, "control"), Sources(gs[1..]));
    }
  }

  // --- Counting ---

  // Of the links from lo on, those that yield the edge m.
  ghost function EdgeSpots(upper: Upper, labels: map<string, string>, links: seq<Link>, m: Mapping, lo: int): set<int>
    requires 0 <= lo
  {
    set j | lo <= j < |links| && (links[j].rel == "incorporated-into" || links[j].rel == "moved-to")
            && links[j] == Link(m.provenance, m.relationship) && m.toCitationNorm != ""
            && ResolveHref(upper, labels, m.provenance) == m.toCitationNorm
  }

  lemma {:induction false} EdgeSpotsCount(upper: Upper, labels: map<string, string>, links: seq<Link>, m: Mapping,
                                          lo: nat)
    requires lo <= |links|
    ensures multiset(EdgesOf(upper, labels, links[lo..], m.fromIdx))[m] == |EdgeSpots(upper, labels, links, m, lo)|
    decreases |links| - lo
  {
    hide ResolveHref;
    if lo == |links| {
      assert links[lo..] == [] && EdgeSpots(upper, labels, links, m, lo) == {};
    } else {
      EdgeSpotsCount(upper, labels, links, m, lo + 1);
      assert links[lo..][1..] == links[lo + 1..] && links[lo..][0] == links[lo];
      FirstLink(upper, labels, links[lo..], m.fromIdx, "");
      FirstEdgeSpot(upper, labels, links, m, lo);
      hide EdgeSpots, EdgesOf;
    }
  }

  lemma FirstEdgeSpot(upper: Upper, labels: map<string, string>, links: seq<Link>, m: Mapping, lo: nat)
    requires lo < |links|
    ensures var link, norm := links[lo], ResolveHref(upper, labels, links[lo].href);
            var moves := link.rel == "incorporated-into" || link.rel == "moved-to";
            |EdgeSpots(upper, labels, links, m, lo)| == |EdgeSpots(upper, labels, links, m, lo + 1)|
              + if moves && norm != "" && m == Mapping(m.fromIdx, norm, link.rel, link.href) then 1 else 0
  {
    var link, norm := links[lo], ResolveHref(upper, labels, links[lo].href);
    var rest := EdgeSpots(upper, labels, links, m, lo + 1);
    hide ResolveHref;
    if m == Mapping(m.fromIdx, norm, link.rel, link.href) && norm != ""
      && (link.rel == "incorporated-into" || link.rel == "moved-to") {
      assert EdgeSpots(upper, labels, links, m, lo) == rest + {lo as int};
    } else {
      assert EdgeSpots(upper, labels, links, m, lo) == rest;
    }
  }

  lemma {:induction false} CountFrom(edges: seq<Mapping>, m: Mapping)
    ensures multiset(EdgesFrom(edges, m.fromIdx))[m] == multiset(edges)[m]
    decreases |edges|
  {
    if edges != [] {
      assert edges == [edges[0]] + edges[1..];
      CountFrom(edges[1..], m);
    }
  }

  lemma EdgeCount(cat: Catalog, links: seq<seq<Link>>, m: Mapping)
    requires 0 <= m.fromIdx < |links|
    ensures multiset(EdgesOfRows(cat, links, 0))[m] == |EdgeSpots(cat.upper, cat.labels, links[m.fromIdx], m, 0)|
  {
    CountFrom(EdgesOfRows(cat, links, 0), m);
    EdgesOfOneRow(cat, links, 0, m.fromIdx);
    assert links[m.fromIdx][0..] == links[m.fromIdx];
    EdgeSpotsCount(cat.upper, cat.labels, links[m.fromIdx], m, 0);
  }

  lemma NoEdgeOutside(cat: Catalog, links: seq<seq<Link>>, m: Mapping)
    requires m.fromIdx < 0 || |links| <= m.fromIdx
    ensures multiset(EdgesOfRows(cat, links, 0))[m] == 0
  {
    EdgesResolve(cat, links, 0);
    hide EdgesOfRows, ResolveHref;
    assert m !in EdgesOfRows(cat, links, 0);
  }

  // Each edge is there once for each link it stands for: an "incorporated-into" or
  // "moved-to" link of the withdrawn control at its row, of its href and relationship,
  // whose href names a row with the edge's norm.
  lemma {:induction false} EdgesAreMovingLinks(upper: Upper, gs: seq<Group>, m: Mapping)
    ensures |Built(upper, gs).rows| == |Sources(gs)|
    ensures multiset(Built(upper, gs).mappings)[m] == |LinksOfEdge(Sources(gs), Built(upper, gs).rows, m)|
  {
    GroupsRecord(CatalogOf(upper, gs), gs, 0);
    HrefNamesItsRow(upper, gs, m.provenance);
    if 0 <= m.fromIdx < |LinksOfRows(gs)| {
      EdgeCount(CatalogOf(upper, gs), LinksOfRows(gs), m);
      SpotsAreLinks(upper, gs, m);
    } else {
      NoEdgeOutside(CatalogOf(upper, gs), LinksOfRows(gs), m);
      NoLinksOutside(Sources(gs), Built(upper, gs).rows, m);
    }
    hide LinksOfEdge, EdgeSpots, EdgesOfRows, MissesOfRows, Groups, Sources, LinksOfRows, Names, ResolveHref;
  }

  lemma NoLinksOutside(sources: seq<Source>, rows: seq<Row>, m: Mapping)
    requires |rows| == |sources| && (m.fromIdx < 0 || |sources| <= m.fromIdx)
    ensures LinksOfEdge(sources, rows, m) == {}
  {
  }

  lemma ResolvesExactly(upper: Upper, gs: seq<Group>, href: string, norm: string)
    requires |Built(upper, gs).rows| == |Sources(gs)|
    ensures NamesNorm(Sources(gs), Built(upper, gs).rows, href, norm)
       <==> norm != "" && ResolveHref(upper, CatalogOf(upper, gs).labels, href) == norm
  {
    HrefNamesItsRow(upper, gs, href);
    hide Names, ResolveHref, Sources, Built, CatalogOf;
  }

  lemma SpotsAreLinks(upper: Upper, gs: seq<Group>, m: Mapping)
    requires |Built(upper, gs).rows| == |Sources(gs)| && 0 <= m.fromIdx < |LinksOfRows(gs)|
    ensures EdgeSpots(upper, CatalogOf(upper, gs).labels, LinksOfRows(gs)[m.fromIdx], m, 0)
         == LinksOfEdge(Sources(gs), Built(upper, gs).rows, m)
  {
    GroupLinksFit(gs);
    ResolvesExactly(upper, gs, m.provenance, m.toCitationNorm);
    hide NamesNorm, Withdrawn, ResolveHref, Sources, Built, CatalogOf, LinksOfRows;
  }

  ghost function MissSpots(upper: Upper, labels: map<string, string>, links: seq<Link>, href: string, lo: int): set<int>
    requires 0 <= lo
  {
    set j | lo <= j < |links| && (links[j].rel == "incorporated-into" || links[j].rel == "moved-to")
            && links[j].href == href && ResolveHref(upper, labels, href) == ""
  }

  lemma {:induction false} MissSpotsCount(upper: Upper, labels: map<string, string>, links: seq<Link>,
                                          citation: string, u: Unresolved, lo: nat)
    requires lo <= |links|
    ensures multiset(MissesOf(upper, labels, links[lo..], citation))[u]
         == if citation == u.citation then |MissSpots(upper, labels, links, u.href, lo)| else 0
    decreases |links| - lo
  {
    hide ResolveHref;
    if lo == |links| {
      assert links[lo..] == [] && MissSpots(upper, labels, links, u.href, lo) == {};
    } else {
      MissSpotsCount(upper, labels, links, citation, u, lo + 1);
      assert links[lo..][1..] == links[lo + 1..] && links[lo..][0] == links[lo];
      FirstLink(upper, labels, links[lo..], 0, citation);
      FirstMissSpot(upper, labels, links, u.href, lo);
      hide MissSpots, MissesOf;
    }
  }

  lemma FirstMissSpot(upper: Upper, labels: map<string, string>, links: seq<Link>, href: string, lo: nat)
    requires lo < |links|
    ensures var link, norm := links[lo], ResolveHref(upper, labels, links[lo].href);
            var moves := link.rel == "incorporated-into" || link.rel == "moved-to";
            |MissSpots(upper, labels, links, href, lo)| == |MissSpots(upper, labels, links, href, lo + 1)|
              + if moves && norm == "" && link.href == href then 1 else 0
  {
    var link, norm := links[lo], ResolveHref(upper, labels, links[lo].href);
    var rest := MissSpots(upper, labels, links, href, lo + 1);
    hide ResolveHref;
    if link.href == href && norm == "" && (link.rel == "incorporated-into" || link.rel == "moved-to") {
      assert MissSpots(upper, labels, links, href, lo) == rest + {lo as int};
    } else {
      assert MissSpots(upper, labels, links, href, lo) == rest;
    }
  }

  // The unresolved links of the rows from lo on.
  ghost function MissPairs(cat: Catalog, links: seq<seq<Link>>, rows: seq<Row>, u: Unresolved, lo: int): set<(int, int)>
    requires |rows| == |links| && 0 <= lo
  {
    set k, j | lo <= k < |links| && 0 <= j < |links[k]| && rows[k].citation == u.citation
               && j in MissSpots(cat.upper, cat.labels, links[k], u.href, 0) :: (k, j)
  }

  lemma {:induction false} PairsCount(k: int, s: set<int>, p: set<(int, int)>)
    requires p == set j | j in s :: (k, j)
    ensures |p| == |s|
    decreases |s|
  {
    if s == {} {
      assert p == {};
    } else {
      var x := Member(s);
      PairsCount(k, s - {x}, p - {(k, x)});
      assert (k, x) in p;
    }
  }

  lemma FirstPairs(cat: Catalog, links: seq<seq<Link>>, rows: seq<Row>, u: Unresolved, lo: nat)
    requires |rows| == |links| && lo < |links|
    ensures |MissPairs(cat, links, rows, u, lo)| == |MissPairs(cat, links, rows, u, lo + 1)|
              + if rows[lo].citation == u.citation then |MissSpots(cat.upper, cat.labels, links[lo], u.href, 0)| else 0
  {
    var spots, rest := MissSpots(cat.upper, cat.labels, links[lo], u.href, 0), MissPairs(cat, links, rows, u, lo + 1);
    var first := if rows[lo].citation == u.citation then set j | j in spots :: (lo as int, j) else {};
    if rows[lo].citation == u.citation { PairsCount(lo, spots, first); }
    SplitPairs(cat, links, rows, u, lo, first);
    hide MissPairs, MissSpots;
  }

  lemma SplitPairs(cat: Catalog, links: seq<seq<Link>>, rows: seq<Row>, u: Unresolved, lo: nat, first: set<(int, int)>)
    requires |rows| == |links| && lo < |links|
    requires first == if rows[lo].citation == u.citation
                      then set j | j in MissSpots(cat.upper, cat.labels, links[lo], u.href, 0) :: (lo as int, j) else {}
    ensures MissPairs(cat, links, rows, u, lo) == MissPairs(cat, links, rows, u, lo + 1) + first
    ensures MissPairs(cat, links, rows, u, lo + 1) !! first
  {
    forall x ensures x in MissPairs(cat, links, rows, u, lo) <==> x in MissPairs(cat, links, rows, u, lo + 1) + first {
      var (k, j) := x;
      if k == lo {
        SpotsInside(cat.upper, cat.labels, links[lo], u.href);
        hide MissSpots;
      }
    }
  }

  lemma SpotsInside(upper: Upper, labels: map<string, string>, links: seq<Link>, href: string)
    ensures forall j :: j in MissSpots(upper, labels, links, href, 0) ==> 0 <= j < |links|
  {
  }

  lemma {:induction false} MissPairsCount(cat: Catalog, links: seq<seq<Link>>, rows: seq<Row>, u: Unresolved, lo: nat)
    requires |rows| == |links| && lo <= |links|
    ensures multiset(MissesOfRows(cat, links[lo..], rows[lo..]))[u] == |MissPairs(cat, links, rows, u, lo)|
    decreases |links| - lo
  {
    if lo == |links| {
      assert links[lo..] == [] && MissPairs(cat, links, rows, u, lo) == {};
    } else {
      MissPairsCount(cat, links, rows, u, lo + 1);
      assert links[lo..][1..] == links[lo + 1..] && rows[lo..][1..] == rows[lo + 1..];
      assert links[lo][0..] == links[lo];
      MissSpotsCount(cat.upper, cat.labels, links[lo], rows[lo].citation, u, 0);
      FirstPairs(cat, links, rows, u, lo);
      hide MissPairs, MissSpots, MissesOf;
      assert MissesOfRows(cat, links[lo..], rows[lo..])
        == MissesOf(cat.upper, cat.labels, links[lo], rows[lo].citation)
          + MissesOfRows(cat, links[lo + 1..], rows[lo + 1..]);
    }
  }

  // Each unresolved record is there once for each such link of a control of its citation,
  // whose href names no row, or one of an empty norm.
  lemma {:induction false} RecordsAreLostLinks(upper: Upper, gs: seq<Group>, u: Unresolved)
    ensures |Built(upper, gs).rows| == |Sources(gs)|
    ensures multiset(Built(upper, gs).unresolved)[u] == |LinksOfRecord(Sources(gs), Built(upper, gs).rows, u)|
  {
    var cat, t, links := CatalogOf(upper, gs), Built(upper, gs), LinksOfRows(gs);
    GroupsRecord(cat, gs, 0);
    MissPairsCount(cat, links, t.rows, u, 0);
    assert links[0..] == links && t.rows[0..] == t.rows;
    PairsAreLinks(upper, gs, u);
  }

  lemma PairsAreLinks(upper: Upper, gs: seq<Group>, u: Unresolved)
    requires |Built(upper, gs).rows| == |Sources(gs)| == |LinksOfRows(gs)|
    ensures MissPairs(CatalogOf(upper, gs), LinksOfRows(gs), Built(upper, gs).rows, u, 0)
         == LinksOfRecord(Sources(gs), Built(upper, gs).rows, u)
  {
    var sources, links, rows, cat := Sources(gs), LinksOfRows(gs), Built(upper, gs).rows, CatalogOf(upper, gs);
    GroupLinksFit(gs);
    var norm := ResolveHref(upper, cat.labels, u.href);
    forall n ensures NamesNorm(sources, rows, u.href, n) <==> n != "" && norm == n {
      ResolvesExactly(upper, gs, u.href, n);
    }
    assert (exists n :: NamesNorm(sources, rows, u.href, n)) <==> norm != "" by {
      if norm != "" { assert NamesNorm(sources, rows, u.href, norm); }
    }
    hide NamesNorm, Withdrawn, ResolveHref, Sources, Built, LinksOfRows;
  }
}
