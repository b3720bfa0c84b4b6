// Parameter inserts in OSCAL prose: the loop that keeps rewriting the leftmost
// "{{ insert: param, id }}" of the whole text, rescanning what it has just put in.
module Inserts {
  import opened Rewriting
  import opened Searching

  const OPEN := "{{ insert: param, "
  const CLOSE := " }}"

  datatype Selection = NoSelection | Selection(howMany: string, choices: seq<string>)
  datatype Param = Param(caption: string, selection: Selection)
  type Params = map<string, Param>

  // What strings.TrimSpace strips.
  predicate IsSpace(c: char) {
    var n := c as int;
    || 9 <= n <= 13 || n == 32 || n == 0x85 || n == 0xA0 || n == 0x1680 || 0x2000 <= n <= 0x200A
    || n == 0x2028 || n == 0x2029 || n == 0x202F || n == 0x205F || n == 0x3000
  }

  function Trim(s: string): string
    decreases |s|
  {
    if s != [] && IsSpace(s[0]) then Trim(s[1..])
    else if s != [] && IsSpace(s[|s| - 1]) then Trim(s[..|s| - 1])
    else s
  }

  // --- One parameter ---

  function Join(parts: seq<string>, sep: string): string {
    if parts == [] then "" else if |parts| == 1 then parts[0] else parts[0] + sep + Join(parts[1..], sep)
  }

  // renderParam
  function Body(params: Params, id: string): (text: string)
    ensures |text| >= 2 && text[0] == '[' && text[|text| - 1] == ']'
  {
    if id !in params then "[Assignment: " + id + "]"
    else
      var p := params[id];
      if p.selection.Selection? && p.selection.choices != [] then
        if p.selection.howMany == "one-or-more" then "[Selection (one or more): " + Join(p.selection.choices, "; ")
          + "]"
        else "[Selection: " + Join(p.selection.choices, "; ") + "]"
      else if p.caption != "" then "[Assignment: " + p.caption + "]"
      else "[Assignment: " + id + "]"
  }

  lemma {:induction false} JoinSplits(a: seq<string>, b: seq<string>, sep: string, x: string)
    ensures Join([], sep) == "" && Join([x], sep) == x
    ensures a != [] && b != [] ==> Join(a + b, sep) == Join(a, sep) + sep + Join(b, sep)
    decreases |a|
  {
    if |a| > 1 && b != [] {
      JoinSplits(a[1..], b, sep, x);
      assert (a + b)[1..] == a[1..] + b && (a + b)[0] == a[0];
      var rest := Join(a[1..], sep);
      assert a[0] + sep + (rest + sep + Join(b, sep)) == a[0] + sep + rest + sep + Join(b, sep);
    } else if |a| == 1 {
      assert (a + b)[1..] == b;
    }
  }

  // t is s without some spaces around it.
  ghost predicate Middle(s: string, t: string, i: nat, j: nat) {
    i <= j <= |s| && t == s[i..j] && Spaces(s[..i]) && Spaces(s[j..])
  }

  lemma MiddleOfTail(s: string, t: string, i: nat, j: nat)
    requires s != [] && IsSpace(s[0]) && Middle(s[1..], t, i, j)
    ensures Middle(s, t, i + 1, j + 1)
  {
    assert s[..i + 1] == [s[0]] + s[1..][..i] && s[i + 1..j + 1] == s[1..][i..j] && s[j + 1..] == s[1..][j..];
  }

  lemma MiddleOfFront(s: string, t: string, i: nat, j: nat)
    requires s != [] && IsSpace(s[|s| - 1]) && Middle(s[..|s| - 1], t, i, j)
    ensures Middle(s, t, i, j)
  {
    var front := s[..|s| - 1];
    assert s[..i] == front[..i] && s[i..j] == front[i..j] && s[j..] == front[j..] + [s[|s| - 1]];
  }

  // Surrounding space goes, and only that.
  lemma {:induction false} TrimKeepsMiddle(s: string)
    ensures exists i: nat, j: nat :: Middle(s, Trim(s), i, j)
    ensures Trim(s) == "" || (!IsSpace(Trim(s)[0]) && !IsSpace(Trim(s)[|Trim(s)| - 1]))
    decreases |s|
  {
    hide IsSpace, Middle;
    if s != [] && IsSpace(s[0]) {
      TrimKeepsMiddle(s[1..]);
      var i: nat, j: nat :| Middle(s[1..], Trim(s[1..]), i, j);
      MiddleOfTail(s, Trim(s), i, j);
    } else if s != [] && IsSpace(s[|s| - 1]) {
      TrimKeepsMiddle(s[..|s| - 1]);
      var i: nat, j: nat :| Middle(s[..|s| - 1], Trim(s), i, j);
      MiddleOfFront(s, Trim(s), i, j);
    } else {
      assert Trim(s) == s;
      WholeIsMiddle(s);
    }
  }

  lemma WholeIsMiddle(s: string)
    ensures Middle(s, s, 0, |s|)
  {
    assert s[0..|s|] == s && s[..0] == [] && s[|s|..] == [];
  }

  predicate Spaces(s: string) {
    forall c :: c in s ==> IsSpace(c)
  }

  // What a parameter turns into: its choices, or else its label, or else its id.
  lemma {:induction false} ParameterShows(params: Params, id: string, choices: seq<string>)
    ensures id !in params ==> Body(params, id) == "[Assignment: " + id + "]"
    ensures id in params && params[id].selection == Selection("one-or-more", choices) && choices != [] ==>
              Body(params, id) == "[Selection (one or more): " + Join(choices, "; ") + "]"
    ensures id in params && params[id].selection.Selection? && params[id].selection.choices == choices != []
            && params[id].selection.howMany != "one-or-more" ==>
              Body(params, id) == "[Selection: " + Join(choices, "; ") + "]"
    ensures id in params && (params[id].selection.NoSelection? || params[id].selection.choices == []) ==>
              Body(params, id)
                == if params[id].caption != "" then "[Assignment: " + params[id].caption + "]"
                   else "[Assignment: " + id + "]"
  {
  }

  // --- The loop ---

  datatype PassResult =
    | Settled            // no insert left, or its end is missing: the loop stops
    | Panic              // the bounds of the id's slice have crossed
    | Rewritten(text: string)

  // How the loop slices the text around its leftmost insert.
  datatype Slicing = Stop | Crossed | Sliced(before: string, inner: string, after: string)

  function Slice(s: string, open: string, close: string): Slicing {
    var start := Index(s, open);
    if start < 0 then Stop
    else
      var end := Index(s[start..], close);
      if end < 0 then Stop
      else if end < |open| then Crossed
      else Sliced(s[..start], s[start + |open|..start + end], s[start + end + |close|..])
  }

  function OnePass(params: Params, s: string): PassResult {
    match Slice(s, OPEN, CLOSE)
    case Stop => Settled
    case Crossed => Panic
    case Sliced(before, inner, after) => Rewritten(before + Body(params, Trim(inner)) + after)
  }

  // The loop settles after exactly n passes.
  predicate SettlesIn(params: Params, s: string, n: nat)
    decreases n
  {
    match OnePass(params, s)
    case Settled => n == 0
    case Panic => false
    case Rewritten(t) => n > 0 && SettlesIn(params, t, n - 1)
  }

  ghost predicate Settles(params: Params, s: string) {
    exists n: nat :: SettlesIn(params, s, n)
  }

  // --- As rewriting rules ---

  // An insert is well formed when it is closed, by a marker of its own, and its id
  // holds no further insert.
  function CutAt(s: string, open: string, close: string): Cut
    requires close != []
  {
    match Split(s, open)
    case NotFound => Whole
    case Parts(before, rest) =>
      if close[1..] <= rest then Broken
      else
        match Split(rest, close)
        case NotFound => Broken
        case Parts(inner, after) => if Has(Trim(inner), open) then Broken else Cut(before, Trim(inner), after)
  }

  function FirstInsert(s: string): Cut {
    CutAt(s, OPEN, CLOSE)
  }

  ghost function InsertRules(params: Params): Rules {
    Rules(FirstInsert, id => Body(params, id))
  }

  // Every insert in every parameter's text is well formed.
  ghost predicate WellFormedParams(params: Params) {
    forall id :: id in params ==> WellFormed(InsertRules(params), Body(params, id))
  }

  // Every insert is well formed, and no chain of references is longer than the number
  // of parameters allows without repeating one.
  ghost predicate Acyclic(params: Params, s: string) {
    Nested(InsertRules(params), |params.Keys| + 1, s)
  }

  ghost function Rendered(params: Params, s: string): string {
    Substitute(InsertRules(params), |params.Keys| + 1, s)
  }

  // --- The rules are lawful ---

  // A missing parameter's text holds no insert.
  lemma AssignmentHasNoInsert(id: string)
    requires !Has(id, OPEN)
    ensures !Has("[Assignment: " + id + "]", OPEN)
  {
    var u, v := "[Assignment: ", "]";
    NoneWithout(u, OPEN, '{');
    NoneWithout(v, OPEN, '{');
    DistinctEdges(id, v, OPEN);
    SplitInSecond(id, v, OPEN);
    NoStartInside(u, id + v, OPEN);
    SplitInSecond(u, id + v, OPEN);
    assert u + id + v == u + (id + v);
  }

  lemma NoStartInside(u: string, v: string, pat: string)
    requires pat != [] && pat[0] !in u
    ensures NoOverlap(u, v, pat)
  {
    forall k: nat
      ensures !Straddles(u, v, pat, k)
    {
      if 0 < k < |pat| && |pat| - k <= |u| && k <= |v| {
        assert (u[|u| - (|pat| - k)..] + v[..k])[0] == u[|u| - (|pat| - k)];
      }
    }
  }

  lemma CutInFirst(u: string, v: string, open: string, close: string)
    requires close != [] && CutAt(u, open, close).Cut?
    ensures CutAt(u + v, open, close) == CutAt(u, open, close).(after := CutAt(u, open, close).after + v)
  {
    var rest := Split(u, open).after;
    SplitInFirst(u, v, open);
    SplitInFirst(rest, v, close);
    assert (rest + v)[..|close| - 1] == rest[..|close| - 1];
  }

  lemma CutInSecond(u: string, v: string, open: string, close: string)
    requires close != [] && CutAt(u, open, close).Whole? && NoOverlap(u, v, open) && open != []
    ensures var c := CutAt(v, open, close);
            CutAt(u + v, open, close) == if c.Cut? then c.(before := u + c.before) else c
  {
    SplitInSecond(u, v, open);
  }

  lemma BorderHasNoOverlap(u: string, v: string)
    requires Border(u, v)
    ensures NoOverlap(u, v, OPEN)
  {
    assert '[' !in OPEN && ']' !in OPEN;
    DistinctEdges(u, v, OPEN);
  }

  lemma InsertCutsApart(r: Rules, u: string, v: string)
    requires r.cut == FirstInsert
    ensures CutsApart(r, u, v)
  {
    if FirstInsert(u).Cut? { CutInFirst(u, v, OPEN, CLOSE); }
    if FirstInsert(u).Whole? && Border(u, v) {
      BorderHasNoOverlap(u, v);
      CutInSecond(u, v, OPEN, CLOSE);
    }
  }

  lemma BeforeIsWhole(s: string, open: string, close: string)
    requires close != [] && open != [] && CutAt(s, open, close).Cut?
    ensures CutAt(CutAt(s, open, close).before, open, close).Whole?
    ensures !Has(CutAt(s, open, close).id, open)
  {
    NothingBefore(s, open);
  }

  lemma MissingHasNoInsert(params: Params, s: string)
    requires FirstInsert(s).Cut? && FirstInsert(s).id !in params
    ensures FirstInsert(Body(params, FirstInsert(s).id)).Whole?
  {
    BeforeIsWhole(s, OPEN, CLOSE);
    AssignmentHasNoInsert(FirstInsert(s).id);
  }

  lemma AfterIsSuffix(s: string, open: string, close: string)
    requires close != [] && open != [] && CutAt(s, open, close).Cut?
    ensures var after := CutAt(s, open, close).after;
            |after| < |s| && after == s[|s| - |after|..]
  {
    SplitJoins(s, open);
    SplitJoins(Split(s, open).after, close);
  }

  lemma InsertsAreLeftmost(r: Rules)
    requires r.cut == FirstInsert
    ensures CutsLeftmost(r)
  {
    forall s | r.cut(s).Cut?
      ensures r.cut(r.cut(s).before).Whole?
      ensures |r.cut(s).after| < |s| && r.cut(s).after == s[|s| - |r.cut(s).after|..]
    {
      BeforeIsWhole(s, OPEN, CLOSE);
      AfterIsSuffix(s, OPEN, CLOSE);
    }
  }

  lemma FillingsAreWellFormed(params: Params)
    requires WellFormedParams(params)
    ensures FillsWellFormed(InsertRules(params))
  {
    var r := InsertRules(params);
    forall s | r.cut(s).Cut?
      ensures WellFormed(r, r.fill(r.cut(s).id))
    {
      if FirstInsert(s).id !in params { MissingHasNoInsert(params, s); }
    }
  }

  lemma OnlyParamsRefer(params: Params)
    ensures Keyed(InsertRules(params), params.Keys)
  {
    var r := InsertRules(params);
    forall s | r.cut(s).Cut? && r.cut(s).id !in params.Keys
      ensures r.cut(r.fill(r.cut(s).id)).Whole?
    {
      MissingHasNoInsert(params, s);
    }
  }

  lemma InsertRulesAreLawful(params: Params)
    requires WellFormedParams(params)
    ensures Lawful(InsertRules(params)) && Keyed(InsertRules(params), params.Keys)
  {
    var r := InsertRules(params);
    assert CutsApartEverywhere(r) by {
      forall u, v ensures CutsApart(r, u, v) { InsertCutsApart(r, u, v); }
    }
    InsertsAreLeftmost(r);
    FillingsAreWellFormed(params);
    OnlyParamsRefer(params);
  }

  // --- The loop follows the rules ---

  lemma OverlapIsLast(open: string, close: string, rest: string)
    requires |close| >= 2 && close[1] !in open && !(close[1..] <= rest)
    ensures NoOverlap(open, rest, close)
  {
    forall k: nat
      ensures !Straddles(open, rest, close, k)
    {
      if 0 < k < |close| && |close| - k <= |open| && k <= |rest| {
        var joined := open[|open| - (|close| - k)..] + rest[..k];
        if k < |close| - 1 {
          assert joined[1] == open[|open| - (|close| - k) + 1];
        } else {
          assert joined[1..] == rest[..k];
        }
      }
    }
  }

  lemma JoinedSlices(a: string, b: string, c: string, d: string, e: string)
    ensures var s := a + (b + (c + (d + e)));
            && s[..|a|] == a && s[|a| + |b|..|a| + |b| + |c|] == c && s[|a| + |b| + |c| + |d|..] == e
            && s[|a|..] == b + (c + (d + e))
  {
  }

  lemma IndexAt(s: string, pat: string, before: string, after: string)
    requires Split(s, pat) == Parts(before, after)
    ensures Index(s, pat) == |before|
  {
    IndexIsSplit(s, pat);
  }

  lemma SliceOfParts(s: string, open: string, close: string, before: string, inner: string, after: string)
    requires s == before + (open + (inner + (close + after)))
    requires Index(s, open) == |before| && Index(open + (inner + (close + after)), close) == |open| + |inner|
    ensures Slice(s, open, close) == Sliced(before, inner, after)
  {
    hide Index;
    JoinedSlices(before, open, inner, close, after);
  }

  // A leftmost insert that is closed, by a marker of its own.
  lemma SliceAtMarker(s: string, open: string, close: string)
    requires |close| >= 2 && close[1] !in open && open != [] && Has(s, open)
    requires !(close[1..] <= Split(s, open).after) && Has(Split(s, open).after, close)
    ensures var rest := Split(s, open).after;
            Slice(s, open, close) == Sliced(Split(s, open).before, Split(rest, close).before, Split(rest, close).after)
  {
    var before, rest := Split(s, open).before, Split(s, open).after;
    var inner, after := Split(rest, close).before, Split(rest, close).after;
    SplitJoins(s, open);
    SplitJoins(rest, close);
    IndexAt(s, open, before, rest);
    NoneWithout(open, close, close[1]);
    OverlapIsLast(open, close, rest);
    SplitInSecond(open, rest, close);
    IndexAt(open + rest, close, open + inner, after);
    SliceOfParts(s, open, close, before, inner, after);
  }

  lemma SliceIsCut(s: string, open: string, close: string)
    requires |close| >= 2 && close[1] !in open && open != [] && CutAt(s, open, close).Cut?
    ensures Slice(s, open, close).Sliced? && Slice(s, open, close).before == CutAt(s, open, close).before
    ensures Slice(s, open, close).after == CutAt(s, open, close).after
    ensures Trim(Slice(s, open, close).inner) == CutAt(s, open, close).id
  {
    SliceAtMarker(s, open, close);
  }

  lemma PassFollowsRules(params: Params, s: string)
    requires WellFormed(InsertRules(params), s)
    ensures OnePass(params, s) == if FirstInsert(s).Cut? then Rewritten(Pass(InsertRules(params), s)) else Settled
  {
    assert '}' !in OPEN;
    if FirstInsert(s).Cut? {
      SliceIsCut(s, OPEN, CLOSE);
    } else {
      IndexIsSplit(s, OPEN);
    }
  }

  lemma {:induction false} SettlingIsStopping(params: Params, s: string, n: nat)
    requires WellFormedParams(params) && WellFormed(InsertRules(params), s)
    ensures SettlesIn(params, s, n) <==> StopsIn(InsertRules(params), s, n)
    decreases n
  {
    PassFollowsRules(params, s);
    if FirstInsert(s).Cut? && n > 0 {
      InsertRulesAreLawful(params);
      PassKeepsWellFormed(InsertRules(params), s);
      SettlingIsStopping(params, Pass(InsertRules(params), s), n - 1);
    }
  }

  lemma SettlesIffStops(params: Params, s: string)
    requires WellFormedParams(params) && WellFormed(InsertRules(params), s)
    ensures Settles(params, s) <==> Stops(InsertRules(params), s)
  {
    forall n: nat
      ensures SettlesIn(params, s, n) <==> StopsIn(InsertRules(params), s, n)
    {
      SettlingIsStopping(params, s, n);
    }
  }

  lemma StopsIffAcyclic(params: Params, s: string)
    requires WellFormedParams(params) && WellFormed(InsertRules(params), s)
    ensures Stops(InsertRules(params), s) <==> Acyclic(params, s)
  {
    hide Lawful, Stops, WellFormed, FirstInsert, Body, Nested;
    InsertRulesAreLawful(params);
    StopsExactlyWhenAcyclic(InsertRules(params), params.Keys, s);
  }

  // On well-formed inserts the loop ends exactly when the references are acyclic.
  lemma {:induction false} SettlesExactlyWhenAcyclic(params: Params, prose: string)
    requires WellFormedParams(params) && WellFormed(InsertRules(params), prose)
    ensures Settles(params, prose) <==> Acyclic(params, prose)
  {
    SettlesIffStops(params, prose);
    StopsIffAcyclic(params, prose);
  }

  // A cycle of parameters, each with an insert of the next, reached from the prose.
  lemma {:induction false} CycleLoopsForever(params: Params, prose: string, ids: seq<string>, n: nat)
    requires WellFormedParams(params) && WellFormed(InsertRules(params), prose)
    requires ids != [] && Mentions(InsertRules(params), prose, ids[0])
    requires forall i :: 0 <= i < |ids| ==>
               Mentions(InsertRules(params), Body(params, ids[i]), ids[if i + 1 < |ids| then i + 1 else 0])
    ensures !SettlesIn(params, prose, n)
  {
    InsertRulesAreLawful(params);
    SettlingIsStopping(params, prose, n);
    CycleNeverStops(InsertRules(params), ids, prose, n);
  }

  lemma IterationKeepsMeaning(params: Params, s: string, t: string)
    requires WellFormedParams(params) && WellFormed(InsertRules(params), s) && Acyclic(params, s)
    requires OnePass(params, s) == Rewritten(t)
    ensures WellFormed(InsertRules(params), t) && Acyclic(params, t) && Rendered(params, t) == Rendered(params, s)
    ensures Passes(InsertRules(params), |params.Keys| + 1, t) < Passes(InsertRules(params), |params.Keys| + 1, s)
  {
    var r, d := InsertRules(params), |params.Keys| + 1;
    InsertRulesAreLawful(params);
    PassFollowsRules(params, s);
    PassKeepsWellFormed(r, s);
    PassKeepsMeaning(r, d, s);
  }

  lemma SettledIsRendered(params: Params, s: string)
    requires WellFormedParams(params) && WellFormed(InsertRules(params), s) && OnePass(params, s).Settled?
    ensures Rendered(params, s) == s && !Has(s, OPEN)
  {
    PassFollowsRules(params, s);
  }

  lemma NeverPanics(params: Params, s: string)
    requires WellFormed(InsertRules(params), s)
    ensures !OnePass(params, s).Panic?
  {
    PassFollowsRules(params, s);
  }

  lemma SliceBounds(s: string, open: string, close: string, start: int, end: int)
    requires start == Index(s, open) >= 0 && end == Index(s[start..], close) >= 0 && !Slice(s, open, close).Crossed?
    ensures |open| <= end
    ensures Slice(s, open, close) == Sliced(s[..start], s[start + |open|..start + end], s[start + end + |close|..])
  {
  }

  lemma IterationIsPass(params: Params, s: string, start: int, end: int)
    requires !OnePass(params, s).Panic?
    requires start == Index(s, OPEN) >= 0 && end == Index(s[start..], CLOSE) >= 0
    ensures |OPEN| <= end
    ensures OnePass(params, s)
         == Rewritten(s[..start] + Body(params, Trim(s[start + |OPEN|..start + end])) + s[start + end + |CLOSE|..])
  {
    SliceBounds(s, OPEN, CLOSE, start, end);
  }

  lemma StopMeansSettled(params: Params, s: string)
    requires Index(s, OPEN) < 0 || Index(s[Index(s, OPEN)..], CLOSE) < 0
    ensures OnePass(params, s).Settled?
  {
  }

  // What the loop keeps true of its text s.
  ghost predicate Rendering(params: Params, prose: string, s: string) {
    && WellFormedParams(params) && WellFormed(InsertRules(params), s) && Acyclic(params, s)
    && Rendered(params, s) == Rendered(params, prose)
  }

  ghost function Remaining(params: Params, s: string): nat {
    Passes(InsertRules(params), |params.Keys| + 1, s)
  }

  lemma LoopAdvances(params: Params, prose: string, s: string, start: int, end: int)
    requires Rendering(params, prose, s)
    requires start == Index(s, OPEN) >= 0 && end == Index(s[start..], CLOSE) >= 0
    ensures |OPEN| <= end
    ensures var t := s[..start] + Body(params, Trim(s[start + |OPEN|..start + end])) + s[start + end + |CLOSE|..];
            Rendering(params, prose, t) && Remaining(params, t) < Remaining(params, s)
  {
    NeverPanics(params, s);
    IterationIsPass(params, s, start, end);
    IterationKeepsMeaning(params, s, s[..start] + Body(params, Trim(s[start + |OPEN|..start + end]))
                          + s[start + end + |CLOSE|..]);
  }

  lemma LoopEnds(params: Params, prose: string, s: string)
    requires Rendering(params, prose, s)
    requires Index(s, OPEN) < 0 || Index(s[Index(s, OPEN)..], CLOSE) < 0
    ensures s == Rendered(params, prose) && !Has(s, OPEN)
  {
    StopMeansSettled(params, s);
    SettledIsRendered(params, s);
  }

  // renderInserts
  method RenderInserts(prose: string, params: Params) returns (result: string)
    requires WellFormedParams(params) && WellFormed(InsertRules(params), prose) && Acyclic(params, prose)
    ensures result == Rendered(params, prose)
    ensures !Has(result, OPEN)
  {
    result := prose;
    while true
      invariant Rendering(params, prose, result)
      decreases Remaining(params, result)
    {
      var start := Index(result, OPEN);
      if start < 0 { break; }
      var end := Index(result[start..], CLOSE);
      if end < 0 { break; }
      LoopAdvances(params, prose, result, start, end);
      end := end + start + 3;
      var inner := Trim(result[start + |OPEN|..end - 3]);
      var replacement := Body(params, inner);
      result := result[..start] + replacement + result[end..];
    }
    LoopEnds(params, prose, result);
  }

  // --- Malformed inserts ---

  lemma CrossedIffOverlapping(s: string, open: string, close: string)
    requires |close| >= 2 && close[1] !in open && open != [] && open[|open| - 1] == close[0]
    ensures Slice(s, open, close).Crossed? <==> Has(s, open) && close[1..] <= Split(s, open).after
  {
    hide Index, Split;
    IndexIsSplit(s, open);
    if Has(s, open) {
      var before, rest := Split(s, open).before, Split(s, open).after;
      SplitJoins(s, open);
      assert s[|before|..] == open + rest;
      NoneWithout(open, close, close[1]);
      IndexIsSplit(open + rest, close);
      if close[1..] <= rest {
        EarlyClose(open, close, rest);
      } else {
        OverlapIsLast(open, close, rest);
        SplitInSecond(open, rest, close);
      }
    }
  }

  lemma EarlyClose(open: string, close: string, rest: string)
    requires |close| >= 2 && open != [] && open[|open| - 1] == close[0] && close[1..] <= rest
    ensures 0 <= Index(open + rest, close) < |open|
  {
    var t := open + rest;
    assert t[|open| - 1..|open| - 1 + |close|] == close by {
      assert t[|open| - 1..|open| - 1 + |close|] == [close[0]] + rest[..|close| - 1];
      assert close == [close[0]] + close[1..];
    }
    IndexAtMost(t, close, |open| - 1);
  }

  // The slice bounds cross, and the program panics, exactly when the leftmost insert has
  // nothing between its markers, which then share a space.
  lemma {:induction false} PanicsExactlyOnEmptyInsert(params: Params, s: string)
    ensures OnePass(params, s).Panic? <==> Has(s, OPEN) && "}}" <= Split(s, OPEN).after
  {
    assert '}' !in OPEN && CLOSE[1..] == "}}";
    CrossedIffOverlapping(s, OPEN, CLOSE);
  }

  // --- A parameter that inserts itself ---

  // An id that survives being written into an insert.
  predicate PlainId(id: string) {
    id != [] && '{' !in id && '}' !in id && Trim(id) == id
  }

  lemma SplitAfter(pre: string, pat: string, rest: string)
    requires pat != [] && pat[0] !in pre
    ensures Split(pre + (pat + rest), pat) == Parts(pre, rest)
  {
    var tail := pat + rest;
    assert tail[..|pat|] == pat && tail[|pat|..] == rest;
    NoneWithout(pre, pat, pat[0]);
    NoStartInside(pre, tail, pat);
    SplitInSecond(pre, tail, pat);
    assert pre + [] == pre;
  }

  // The insert "{{ insert: param, }}", with or without text around it.
  lemma EmptyInsertPanics(params: Params, before: string, after: string)
    requires '{' !in before
    ensures OnePass(params, before + (OPEN + ("}}" + after))).Panic?
    ensures OnePass(params, "{{ insert: param, }}").Panic?
  {
    SplitAfter(before, OPEN, "}}" + after);
    PanicsExactlyOnEmptyInsert(params, before + (OPEN + ("}}" + after)));
    SplitAfter("", OPEN, "}}");
    assert "{{ insert: param, }}" == "" + (OPEN + "}}");
    PanicsExactlyOnEmptyInsert(params, "{{ insert: param, }}");
  }

  lemma SplitClosing(id: string, close: string, rest: string)
    requires |close| >= 2 && close[1] !in id
    ensures Split(id + (close + rest), close) == Parts(id, rest)
  {
    var tail := close + rest;
    assert tail[..|close|] == close && tail[|close|..] == rest;
    NoneWithout(id, close, close[1]);
    forall k: nat
      ensures !Straddles(id, tail, close, k)
    {
      if 0 < k < |close| && |close| - k <= |id| && k <= |tail| {
        var joined := id[|id| - (|close| - k)..] + tail[..k];
        if k < |close| - 1 {
          assert joined[1] == id[|id| - (|close| - k) + 1];
        } else {
          assert joined[1] == close[0] && joined[0] == id[|id| - 1];
        }
      }
    }
    SplitInSecond(id, tail, close);
    assert id + [] == id;
  }

  function WriteInsert(id: string, rest: string): string {
    OPEN + (id + (CLOSE + rest))
  }

  // An insert that was written is the one that is found.
  lemma {:induction false} WrittenInsertIsFound(pre: string, id: string, rest: string)
    requires '{' !in pre && PlainId(id)
    ensures FirstInsert(pre + WriteInsert(id, rest)) == Cut(pre, id, rest)
  {
    var tail := id + (CLOSE + rest);
    assert OPEN[0] == '{' && CLOSE[1] == '}' && CLOSE[1..] == "}}";
    SplitAfter(pre, OPEN, tail);
    SplitClosing(id, CLOSE, rest);
    assert tail[0] == id[0];
    NoneWithout(id, OPEN, '{');
  }

  lemma SelfInsertRefersToItself(id: string)
    requires PlainId(id)
    ensures var params := map[id := Param(WriteInsert(id, []), NoSelection)];
            FirstInsert(Body(params, id)) == Cut("[Assignment: ", id, "]")
  {
    var params := map[id := Param(WriteInsert(id, []), NoSelection)];
    WrittenInsertIsFound("[Assignment: ", id, "]");
    assert WriteInsert(id, []) + "]" == WriteInsert(id, "]");
    assert Body(params, id) == "[Assignment: " + WriteInsert(id, "]");
  }

  // A label that inserts its own parameter is rewritten for ever.
  lemma {:induction false} SelfInsertLoopsForever(id: string, n: nat)
    requires PlainId(id)
    ensures !SettlesIn(map[id := Param(WriteInsert(id, []), NoSelection)], WriteInsert(id, []), n)
  {
    var params := map[id := Param(WriteInsert(id, []), NoSelection)];
    var r := InsertRules(params);
    var prose := WriteInsert(id, []);
    WrittenInsertIsFound([], id, []);
    assert [] + prose == prose;
    SelfInsertRefersToItself(id);
    NoneWithout("]", OPEN, '{');
    assert WellFormed(r, "]");
    assert WellFormed(r, []) by { NoneWithout([], OPEN, '{'); }
    assert WellFormed(r, Body(params, id));
    CycleLoopsForever(params, prose, [id], n);
  }
}
