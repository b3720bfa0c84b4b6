// TCVN documents: classified lines become headings with verbatim bodies, and headings
// become control rows.
module Tcvn {
  import Oscal
  import OscalTree
  import Stages

  // A line that is neither blank nor skipped; citation "" when it opens no heading.
  datatype Line = Line(text: string, citation: string, title: string)
  datatype Heading = Heading(citation: string, title: string, body: seq<string>)

  // --- First occurrences ---

  predicate Opens(lines: seq<Line>, i: nat)
    requires i < |lines|
  {
    lines[i].citation != "" && forall j :: 0 <= j < i ==> lines[j].citation != lines[i].citation
  }

  // Opening lines among the first n, in order.
  function Starts(lines: seq<Line>, n: nat): seq<nat>
    requires n <= |lines|
  {
    if n == 0 then [] else if Opens(lines, n - 1) then Starts(lines, n - 1) + [n - 1] else Starts(lines, n - 1)
  }

  ghost predicate Ascending(starts: seq<nat>, n: nat) {
    && (forall k :: 0 <= k < |starts| ==> starts[k] < n)
    && (forall j, k :: 0 <= j < k < |starts| ==> starts[j] < starts[k])
  }

  ghost predicate Lists(lines: seq<Line>, n: nat, starts: seq<nat>)
    requires n <= |lines|
  {
    && Ascending(starts, n)
    && (forall k :: 0 <= k < |starts| ==> Opens(lines, starts[k]))
    && (forall i :: 0 <= i < n && Opens(lines, i) ==> i in starts)
  }

  lemma {:induction false} StartsAscend(lines: seq<Line>, n: nat)
    requires n <= |lines|
    ensures Ascending(Starts(lines, n), n)
  {
    if n > 0 { StartsAscend(lines, n - 1); }
  }

  lemma {:induction false} StartsOpen(lines: seq<Line>, n: nat, k: nat)
    requires n <= |lines| && k < |Starts(lines, n)|
    ensures Starts(lines, n)[k] < |lines| && Opens(lines, Starts(lines, n)[k])
  {
    if !Opens(lines, n - 1) || k < |Starts(lines, n)| - 1 { StartsOpen(lines, n - 1, k); }
  }

  lemma {:induction false} StartsComplete(lines: seq<Line>, n: nat, i: nat)
    requires i < n <= |lines| && Opens(lines, i)
    ensures i in Starts(lines, n)
  {
    if i < n - 1 { StartsComplete(lines, n - 1, i); }
  }

  lemma StartsList(lines: seq<Line>, n: nat)
    requires n <= |lines|
    ensures Lists(lines, n, Starts(lines, n))
  {
    StartsAscend(lines, n);
    forall k | 0 <= k < |Starts(lines, n)| ensures Opens(lines, Starts(lines, n)[k]) { StartsOpen(lines, n, k); }
    forall i | 0 <= i < n && Opens(lines, i) ensures i in Starts(lines, n) { StartsComplete(lines, n, i); }
  }

  // A line with the citation of an earlier heading and exactly that heading's text.
  predicate Repeats(lines: seq<Line>, j: nat)
    requires j < |lines|
  {
    exists i :: 0 <= i < j && Opens(lines, i) && lines[i].citation == lines[j].citation
      && lines[i].text == lines[j].text
  }

  // The texts of lines[from..to], without repeated heading lines.
  function Kept(lines: seq<Line>, from: nat, stop: nat): seq<string>
    requires from <= stop <= |lines|
    decreases stop - from
  {
    if from == stop then [] else (if Repeats(lines, from) then [] else [lines[from].text]) + Kept(lines, from + 1, stop)
  }

  function End(lines: seq<Line>, starts: seq<nat>, k: nat): nat
    requires k < |starts|
  {
    if k + 1 < |starts| then starts[k + 1] else |lines|
  }

  // --- parseTCVNPages, from the classified lines on ---

  // headingLine holds the verbatim text of each opening line.
  ghost predicate Indexes(lines: seq<Line>, headingLine: map<string, string>) {
    && (forall c :: c in headingLine <==> exists i :: 0 <= i < |lines| && Opens(lines, i) && lines[i].citation == c)
    && (forall i :: 0 <= i < |lines| && Opens(lines, i) ==> headingLine[lines[i].citation] == lines[i].text)
  }

  // Pass 1: the first occurrence of each citation, and its text.
  method FirstOccurrences(lines: seq<Line>) returns (starts: seq<nat>, headingLine: map<string, string>)
    ensures starts == Starts(lines, |lines|)
    ensures Indexes(lines, headingLine)
  {
    starts := [];
    headingLine := map[];
    var seen: set<string> := {};
    for i := 0 to |lines|
      invariant starts == Starts(lines, i)
      invariant forall j :: 0 <= j < i && lines[j].citation != "" ==> lines[j].citation in seen
      invariant forall c :: c in seen ==> exists j :: 0 <= j < i && Opens(lines, j) && lines[j].citation == c
      invariant seen == headingLine.Keys
      invariant forall j :: 0 <= j < i && Opens(lines, j) ==> headingLine[lines[j].citation] == lines[j].text
    {
      var line := lines[i];
      if line.citation == "" || line.citation in seen {
        assert !Opens(lines, i);
      } else {
        assert Opens(lines, i);
        seen := seen + {line.citation};
        headingLine := headingLine[line.citation := line.text];
        starts := starts + [i];
      }
    }
  }

  lemma KeptAppend(lines: seq<Line>, from: nat, stop: nat)
    requires from <= stop < |lines|
    ensures Kept(lines, from, stop + 1) == Kept(lines, from, stop)
      + (if Repeats(lines, stop) then [] else [lines[stop].text])
    decreases stop - from
  {
    if from < stop { KeptAppend(lines, from + 1, stop); }
  }

  // Between two starts no line opens a heading.
  lemma NoneBetween(lines: seq<Line>, starts: seq<nat>, k: nat, j: nat)
    requires Lists(lines, |lines|, starts) && k < |starts| && starts[k] < j < End(lines, starts, k) <= |lines|
    ensures !Opens(lines, j)
  {
    forall m | 0 <= m < |starts|
      ensures starts[m] != j
    {
      if m > k + 1 { assert starts[k + 1] < starts[m]; }
    }
  }

  // A line that opens nothing is dropped exactly when it repeats a heading line.
  lemma DropsRepeats(lines: seq<Line>, headingLine: map<string, string>, j: nat)
    requires j < |lines| && !Opens(lines, j)
    requires Indexes(lines, headingLine)
    ensures (lines[j].citation != "" && lines[j].citation in headingLine
             && headingLine[lines[j].citation] == lines[j].text)
       <==> Repeats(lines, j)
  {
    var c := lines[j].citation;
    if c != "" {
      FirstExists(lines, j);
    }
  }

  lemma {:induction false} FirstExists(lines: seq<Line>, j: nat)
    requires j < |lines| && lines[j].citation != ""
    ensures exists i :: 0 <= i <= j && Opens(lines, i) && lines[i].citation == lines[j].citation
    decreases j
  {
    if !Opens(lines, j) {
      var i :| 0 <= i < j && lines[i].citation == lines[j].citation;
      FirstExists(lines, i);
    }
  }

  // Pass 2 for one heading: the lines up to the next start.
  method CollectBody(lines: seq<Line>, headingLine: map<string, string>, from: nat, stop: nat)
    returns (body: seq<string>)
    requires from <= stop <= |lines| && forall j :: from <= j < stop ==> !Opens(lines, j)
    requires Indexes(lines, headingLine)
    ensures body == Kept(lines, from, stop)
  {
    body := [];
    for j := from to stop
      invariant body == Kept(lines, from, j)
    {
      KeptAppend(lines, from, j);
      DropsRepeats(lines, headingLine, j);
      var c := lines[j].citation;
      if !(c != "" && c in headingLine && headingLine[c] == lines[j].text) {
        body := body + [lines[j].text];
      }
    }
  }

  lemma InRange(lines: seq<Line>, starts: seq<nat>, k: nat)
    requires Ascending(starts, |lines|) && k < |starts|
    ensures starts[k] < End(lines, starts, k) <= |lines|
  {
  }

  ghost function HeadingOf(lines: seq<Line>, starts: seq<nat>, k: nat): Heading
    requires k < |starts| && Ascending(starts, |lines|)
  {
    InRange(lines, starts, k);
    Heading(lines[starts[k]].citation, lines[starts[k]].title, Kept(lines, starts[k] + 1, End(lines, starts, k)))
  }

  // The headings of the first n starts.
  ghost function Headings(lines: seq<Line>, starts: seq<nat>, n: nat): (hs: seq<Heading>)
    requires n <= |starts| && Ascending(starts, |lines|)
    ensures |hs| == n
  {
    if n == 0 then [] else Headings(lines, starts, n - 1) + [HeadingOf(lines, starts, n - 1)]
  }

  ghost function Parsed(lines: seq<Line>): seq<Heading> {
    StartsList(lines, |lines|);
    Headings(lines, Starts(lines, |lines|), |Starts(lines, |lines|)|)
  }

  method ParseLines(lines: seq<Line>) returns (headings: seq<Heading>)
    ensures headings == Parsed(lines)
  {
    var starts, headingLine := FirstOccurrences(lines);
    StartsList(lines, |lines|);
    forall k | 0 <= k < |starts| ensures Plain(lines, starts, k) { BodyOpensNothing(lines, starts, k); }
    headings := CollectAll(lines, starts, headingLine);
  }

  // No line between start k and the next start opens a heading.
  ghost predicate Plain(lines: seq<Line>, starts: seq<nat>, k: nat)
    requires k < |starts| && Ascending(starts, |lines|)
  {
    forall j :: starts[k] + 1 <= j < End(lines, starts, k) ==> j < |lines| && !Opens(lines, j)
  }

  lemma BodyOpensNothing(lines: seq<Line>, starts: seq<nat>, k: nat)
    requires Lists(lines, |lines|, starts) && k < |starts|
    ensures Plain(lines, starts, k)
  {
    InRange(lines, starts, k);
    forall j | starts[k] + 1 <= j < End(lines, starts, k) ensures !Opens(lines, j) { NoneBetween(lines, starts, k, j); }
  }

  // Pass 2 for heading k.
  method CollectOne(lines: seq<Line>, starts: seq<nat>, headingLine: map<string, string>, k: nat) returns (h: Heading)
    requires Ascending(starts, |lines|) && Indexes(lines, headingLine) && k < |starts| && Plain(lines, starts, k)
    ensures h == HeadingOf(lines, starts, k)
  {
    InRange(lines, starts, k);
    var endIdx := |lines|;
    if k + 1 < |starts| { endIdx := starts[k + 1]; }
    var body := CollectBody(lines, headingLine, starts[k] + 1, endIdx);
    h := Heading(lines[starts[k]].citation, lines[starts[k]].title, body);
  }

  method CollectAll(lines: seq<Line>, starts: seq<nat>, headingLine: map<string, string>)
    returns (headings: seq<Heading>)
    requires Ascending(starts, |lines|) && Indexes(lines, headingLine)
    requires forall k :: 0 <= k < |starts| ==> Plain(lines, starts, k)
    ensures headings == Headings(lines, starts, |starts|)
  {
    headings := [];
    for k := 0 to |starts|
      invariant headings == Headings(lines, starts, k)
    {
      var h := CollectOne(lines, starts, headingLine, k);
      headings := headings + [h];
    }
  }

  // --- Conservation ---

  lemma {:induction false} HeadingAt(lines: seq<Line>, starts: seq<nat>, n: nat, k: nat)
    requires k < n <= |starts| && Ascending(starts, |lines|)
    ensures Headings(lines, starts, n)[k] == HeadingOf(lines, starts, k)
    decreases n
  {
    if k < n - 1 { HeadingAt(lines, starts, n - 1, k); }
  }

  // Each of the first n heading lines followed by its body lines.
  function Reassembled(lines: seq<Line>, hs: seq<Heading>, starts: seq<nat>, n: nat): seq<string>
    requires n <= |hs| == |starts| && Ascending(starts, |lines|)
  {
    if n == 0 then []
    else Reassembled(lines, hs, starts, n - 1) + [lines[starts[n - 1]].text] + hs[n - 1].body
  }

  lemma {:induction false} KeptSplit(lines: seq<Line>, from: nat, mid: nat, stop: nat)
    requires from <= mid <= stop <= |lines|
    ensures Kept(lines, from, stop) == Kept(lines, from, mid) + Kept(lines, mid, stop)
    decreases mid - from
  {
    if from < mid { KeptSplit(lines, from + 1, mid, stop); }
  }

  lemma OpeningIsNoRepeat(lines: seq<Line>, i: nat)
    requires i < |lines| && Opens(lines, i)
    ensures !Repeats(lines, i)
  {
  }

  lemma ExtendKept(lines: seq<Line>, first: nat, s: nat, e: nat)
    requires first <= s < e <= |lines| && !Repeats(lines, s)
    ensures Kept(lines, first, e) == Kept(lines, first, s) + [lines[s].text] + Kept(lines, s + 1, e)
  {
    KeptSplit(lines, first, s, e);
    Grouped(Kept(lines, first, s), lines[s].text, Kept(lines, s + 1, e));
  }

  ghost predicate IsHeading(lines: seq<Line>, hs: seq<Heading>, starts: seq<nat>, k: nat)
    requires k < |hs| == |starts| && Ascending(starts, |lines|)
  {
    Opens(lines, starts[k]) && hs[k] == HeadingOf(lines, starts, k)
  }

  lemma HeadingBody(lines: seq<Line>, hs: seq<Heading>, starts: seq<nat>, k: nat)
    requires k < |hs| == |starts| && Ascending(starts, |lines|) && IsHeading(lines, hs, starts, k)
    ensures starts[k] < End(lines, starts, k) <= |lines| && starts[0] <= starts[k]
    ensures hs[k].body == Kept(lines, starts[k] + 1, End(lines, starts, k)) && Opens(lines, starts[k])
  {
    InRange(lines, starts, k);
  }

  lemma {:induction false} FirstHeadings(lines: seq<Line>, hs: seq<Heading>, starts: seq<nat>, n: nat)
    requires 0 < n <= |hs| == |starts| && Ascending(starts, |lines|)
    requires forall k :: 0 <= k < |starts| ==> IsHeading(lines, hs, starts, k)
    ensures starts[0] <= End(lines, starts, n - 1) <= |lines|
    ensures Reassembled(lines, hs, starts, n) == Kept(lines, starts[0], End(lines, starts, n - 1))
    decreases n
  {
    HeadingBody(lines, hs, starts, n - 1);
    if n > 1 {
      FirstHeadings(lines, hs, starts, n - 1);
      assert End(lines, starts, n - 2) == starts[n - 1];
    }
    OpeningIsNoRepeat(lines, starts[n - 1]);
    ExtendKept(lines, starts[0], starts[n - 1], End(lines, starts, n - 1));
  }

  lemma Grouped(a: seq<string>, x: string, b: seq<string>)
    ensures a + [x] + b == a + ([x] + b) && [] + b == b
  {
  }

  lemma NoHeadings(lines: seq<Line>, starts: seq<nat>)
    requires Lists(lines, |lines|, starts)
    ensures starts == [] <==> forall i :: 0 <= i < |lines| ==> lines[i].citation == ""
  {
    forall i | 0 <= i < |lines| && lines[i].citation != "" ensures starts != [] { FirstExists(lines, i); }
    if starts != [] { assert Opens(lines, starts[0]); }
  }

  // Heading lines and bodies, read in order, are the lines from the first heading on,
  // less exact repeats of heading lines; without a heading there is nothing.
  lemma {:induction false} NothingIsLost(lines: seq<Line>, starts: seq<nat>)
    requires starts == Starts(lines, |lines|)
    ensures |Parsed(lines)| == |starts| && Ascending(starts, |lines|)
    ensures starts == [] <==> forall i :: 0 <= i < |lines| ==> lines[i].citation == ""
    ensures Reassembled(lines, Parsed(lines), starts, |starts|)
      == (if starts == [] then [] else Kept(lines, starts[0], |lines|))
  {
    StartsList(lines, |lines|);
    NoHeadings(lines, starts);
    forall k | 0 <= k < |starts|
      ensures IsHeading(lines, Parsed(lines), starts, k)
    {
      HeadingAt(lines, starts, |starts|, k);
    }
    if starts != [] {
      FirstHeadings(lines, Parsed(lines), starts, |starts|);
    }
  }

  lemma {:induction false} CitationsAreUnique(lines: seq<Line>)
    ensures forall j, k :: 0 <= j < k < |Parsed(lines)| ==> Parsed(lines)[j].citation != Parsed(lines)[k].citation
    ensures forall k :: 0 <= k < |Parsed(lines)| ==> Parsed(lines)[k].citation != ""
  {
    var starts := Starts(lines, |lines|);
    StartsList(lines, |lines|);
    forall k | 0 <= k < |starts| ensures Parsed(lines)[k].citation == lines[starts[k]].citation
      && Opens(lines, starts[k]) {
      HeadingAt(lines, starts, |starts|, k);
    }
  }

  // --- buildTCVNTree ---

  function LastDot(c: string): (i: int)
    ensures -1 <= i < |c| && (i >= 0 ==> c[i] == '.')
  {
    if c == [] then -1 else if c[|c| - 1] == '.' then |c| - 1 else LastDot(c[..|c| - 1])
  }

  // tcvnParentCitation
  function ParentCitation(c: string): string {
    if LastDot(c) < 0 then "" else c[..LastDot(c)]
  }

  // c is a dotted prefix of other.
  predicate Continues(c: string, other: string) {
    c + "." <= other
  }

  // Another heading's citation continues this one.
  predicate Intermediate(hs: seq<Heading>, c: string) {
    exists k :: 0 <= k < |hs| && Continues(c, hs[k].citation)
  }

  // The latest of the first k headings with citation c, or -1.
  function IndexBefore(hs: seq<Heading>, k: nat, c: string): (i: int)
    requires k <= |hs|
    ensures -1 <= i < k && (i >= 0 ==> hs[i].citation == c)
    ensures i == -1 ==> forall j :: 0 <= j < k ==> hs[j].citation != c
  {
    if k == 0 then -1 else if hs[k - 1].citation == c then k - 1 else IndexBefore(hs, k - 1, c)
  }

  function TreeRow(hs: seq<Heading>, k: nat): Oscal.Row
    requires k < |hs|
  {
    var c := hs[k].citation;
    var clause := Intermediate(hs, c);
    Oscal.Row(c, c, if clause then "clause" else "control", "active", (if clause then "Clause " else "Control ") + c,
              IndexBefore(hs, k, ParentCitation(c)), k)
  }

  function TreeRows(hs: seq<Heading>): seq<Oscal.Row> {
    seq(|hs|, k requires 0 <= k < |hs| => TreeRow(hs, k))
  }

  method IsIntermediate(citSet: set<string>, c: string) returns (yes: bool)
    ensures yes == exists other :: other in citSet && Continues(c, other)
  {
    var left := citSet;
    while left != {}
      invariant left <= citSet && forall other :: other in citSet && other !in left ==> !Continues(c, other)
      decreases |left|
    {
      var other :| other in left;
      if Continues(c, other) { return true; }
      left := left - {other};
    }
    return false;
  }

  function Citations(hs: seq<Heading>): set<string> {
    set k | 0 <= k < |hs| :: hs[k].citation
  }

  lemma IntermediateInSet(hs: seq<Heading>, c: string)
    ensures Intermediate(hs, c) <==> exists other :: other in Citations(hs) && Continues(c, other)
  {
    forall k | 0 <= k < |hs| ensures hs[k].citation in Citations(hs) {}
  }

  // citationToIdx after the first k headings.
  ghost predicate Latest(hs: seq<Heading>, k: nat, idx: map<string, int>)
    requires k <= |hs|
  {
    forall c :: Lookup(idx, c) == IndexBefore(hs, k, c)
  }

  function Lookup(idx: map<string, int>, c: string): int {
    if c in idx then idx[c] else -1
  }

  lemma LatestGrows(hs: seq<Heading>, k: nat, idx: map<string, int>)
    requires k < |hs| && Latest(hs, k, idx)
    ensures Latest(hs, k + 1, idx[hs[k].citation := k])
  {
    var next := idx[hs[k].citation := k];
    forall c
      ensures Lookup(next, c) == IndexBefore(hs, k + 1, c)
    {
      assert Lookup(idx, c) == IndexBefore(hs, k, c);
    }
  }

  method MakeRow(hs: seq<Heading>, k: nat, citSet: set<string>, citationToIdx: map<string, int>)
    returns (row: Oscal.Row)
    requires k < |hs| && citSet == Citations(hs) && Latest(hs, k, citationToIdx)
    ensures row == TreeRows(hs)[k]
  {
    var c := hs[k].citation;
    var kind, titlePrefix := "control", "Control ";
    var clause := IsIntermediate(citSet, c);
    IntermediateInSet(hs, c);
    if clause { kind, titlePrefix := "clause", "Clause "; }
    row := Oscal.Row(c, c, kind, "active", titlePrefix + c, Lookup(citationToIdx, ParentCitation(c)), k);
  }

  method BuildTree(headings: seq<Heading>) returns (rows: seq<Oscal.Row>)
    ensures rows == TreeRows(headings)
  {
    var citSet := Citations(headings);
    var citationToIdx: map<string, int> := map[];
    rows := [];
    ghost var expected := TreeRows(headings);
    var k := 0;
    while k < |headings|
      invariant k <= |headings| && Latest(headings, k, citationToIdx)
      invariant expected == TreeRows(headings) && rows == expected[..k]
    {
      var row := MakeRow(headings, k, citSet, citationToIdx);
      LatestGrows(headings, k, citationToIdx);
      assert expected[..k + 1] == expected[..k] + [expected[k]];
      rows := rows + [row];
      citationToIdx := citationToIdx[headings[k].citation := k];
      k := k + 1;
    }
  }

  // --- The tree ---

  // A parent is an earlier row whose citation is the row's own without its last
  // segment; a row of kind control is nobody's parent.
  // The citation without its last segment: it, a dot and a segment without dots are the
  // citation; a citation without dots has none.
  lemma {:induction false} ParentDropsSegment(c: string)
    ensures if '.' in c
            then var p := ParentCitation(c); p + "." <= c && '.' !in c[|p| + 1..]
            else ParentCitation(c) == ""
    decreases |c|
  {
    LastDotIsLast(c);
    if '.' in c { assert c[..LastDot(c)] + "." == c[..LastDot(c) + 1]; }
  }

  lemma {:induction false} LastDotIsLast(c: string)
    ensures LastDot(c) >= 0 <==> '.' in c
    ensures LastDot(c) >= 0 ==> '.' !in c[LastDot(c) + 1..]
    decreases |c|
  {
    if c != [] && c[|c| - 1] != '.' {
      var front := c[..|c| - 1];
      LastDotIsLast(front);
      assert c == front + [c[|c| - 1]];
      if LastDot(c) >= 0 { assert c[LastDot(c) + 1..] == front[LastDot(c) + 1..] + [c[|c| - 1]]; }
    }
  }

  // The row of a heading has its citation as norm, no status but active, and is a clause
  // exactly if another heading's citation goes on after it with a dot. It hangs under the
  // latest earlier heading whose citation is its own without the last segment; without
  // one it is a root.
  lemma {:induction false} RowHangsUnderPrefix(hs: seq<Heading>, k: nat)
    requires k < |hs| && forall j :: 0 <= j < |hs| ==> hs[j].citation != ""
    ensures var c, row := hs[k].citation, TreeRows(hs)[k];
            var clause := exists j :: 0 <= j < |hs| && c + "." <= hs[j].citation;
            && row.citation == c && row.citationNorm == c && row.ordinal == k && row.status == "active"
            && row.kind == (if clause then "clause" else "control")
            && row.title == (if clause then "Clause " + c else "Control " + c)
    ensures var c, p := hs[k].citation, TreeRows(hs)[k].parentIdx;
            && -1 <= p < k
            && (p >= 0 ==> IsParentOf(hs[p].citation, c)
                           && forall j :: p < j < k ==> !IsParentOf(hs[j].citation, c))
            && (p < 0 ==> forall j :: 0 <= j < k ==> !IsParentOf(hs[j].citation, c))
  {
    var c, p := hs[k].citation, TreeRows(hs)[k].parentIdx;
    ParentDropsSegment(c);
    LatestBefore(hs, k, ParentCitation(c));
    forall j | 0 <= j < k
      ensures IsParentOf(hs[j].citation, c) <==> hs[j].citation == ParentCitation(c)
    {
      OneParent(hs[j].citation, c);
    }
    assert Intermediate(hs, c) <==> exists j :: 0 <= j < |hs| && c + "." <= hs[j].citation;
  }

  // c is p, a dot and one more segment.
  predicate IsParentOf(p: string, c: string) {
    p + "." <= c && '.' !in c[|p| + 1..]
  }

  lemma OneParent(p: string, c: string)
    requires p != ""
    ensures IsParentOf(p, c) <==> p == ParentCitation(c)
  {
    ParentDropsSegment(c);
    var q := ParentCitation(c);
    if IsParentOf(p, c) {
      assert (p + ".")[|p|] == '.' && (p + ".")[|p|] == c[|p|];
      assert '.' in c;
      assert (q + ".")[|q|] == '.' && (q + ".")[|q|] == c[|q|];
      DotBehind(c, p, q);
      DotBehind(c, q, p);
      assert (p + ".")[..|p|] == p && (q + ".")[..|q|] == q;
    }
  }

  lemma DotBehind(c: string, p: string, q: string)
    requires p + "." <= c && q + "." <= c && '.' !in c[|p| + 1..] && c[|q|] == '.'
    ensures |q| <= |p|
  {
    forall k | |p| < k < |c| ensures c[k] != '.' { assert c[|p| + 1..][k - |p| - 1] == c[k]; }
  }

  lemma {:induction false} LatestBefore(hs: seq<Heading>, k: nat, c: string)
    requires k <= |hs|
    ensures forall j :: IndexBefore(hs, k, c) < j < k ==> hs[j].citation != c
    decreases k
  {
    if k > 0 && hs[k - 1].citation != c { LatestBefore(hs, k - 1, c); }
  }

  lemma {:induction false} ParentsAreEarlierClauses(hs: seq<Heading>, k: nat)
    requires k < |hs|
    requires forall j :: 0 <= j < |hs| ==> hs[j].citation != ""
    ensures -1 <= TreeRow(hs, k).parentIdx < k
    ensures var p := TreeRow(hs, k).parentIdx;
            p >= 0 ==> hs[p].citation == ParentCitation(hs[k].citation) && TreeRow(hs, p).kind == "clause"
    ensures TreeRow(hs, k).parentIdx == -1
      <==> forall j :: 0 <= j < k ==> hs[j].citation != ParentCitation(hs[k].citation)
  {
    var c, p := hs[k].citation, TreeRow(hs, k).parentIdx;
    if p >= 0 {
      assert ParentCitation(c) != "";
      assert c == c[..LastDot(c)] + "." + c[LastDot(c) + 1..];
      assert Continues(hs[p].citation, hs[k].citation);
    }
  }

  // What writeTree asks of a tree holds of every parsed document: parents come first
  // and no citation repeats, so its duplicate check never refuses one.
  lemma {:induction false} ParsedTreeCanBeWritten(lines: seq<Line>)
    ensures OscalTree.ParentsBefore(TreeRows(Parsed(lines))) && !Stages.DuplicateNorm(TreeRows(Parsed(lines)))
    ensures forall k :: 0 <= k < |Parsed(lines)| && TreeRows(Parsed(lines))[k].parentIdx >= 0 ==>
              TreeRows(Parsed(lines))[TreeRows(Parsed(lines))[k].parentIdx].kind == "clause"
  {
    CitationsAreUnique(lines);
    var hs := Parsed(lines);
    forall k | 0 <= k < |hs|
      ensures -1 <= TreeRows(hs)[k].parentIdx < k
      ensures TreeRows(hs)[k].parentIdx >= 0 ==> TreeRows(hs)[TreeRows(hs)[k].parentIdx].kind == "clause"
    {
      ParentsAreEarlierClauses(hs, k);
    }
  }
}
