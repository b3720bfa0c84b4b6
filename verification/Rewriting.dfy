// Leftmost rewriting of references in a text, against recursive substitution. The
// text is cut at its leftmost reference; whatever fills a reference stands in
// brackets, so no reference can form across the edge of a filling.
module Rewriting {
  import opened Collections

  datatype Cut =
    | Whole                                              // no reference left
    | Broken                                             // the leftmost one is malformed
    | Cut(before: string, id: string, after: string)

  datatype Rules = Rules(cut: string -> Cut, fill: string -> string)

  predicate Bracketed(t: string) {
    t != [] && t[0] == '[' && t[|t| - 1] == ']'
  }

  // No reference can reach across the border of u and v.
  predicate Border(u: string, v: string) {
    u == [] || v == [] || u[|u| - 1] == ']' || v[0] == '['
  }

  // Every reference of s is well formed.
  ghost predicate WellFormed(r: Rules, s: string)
    decreases |s|
  {
    match r.cut(s)
    case Whole => true
    case Broken => false
    case Cut(_, _, after) => |after| < |s| && WellFormed(r, after)
  }

  // How cutting behaves on a concatenation, at one pair of texts.
  ghost predicate CutsApart(r: Rules, u: string, v: string) {
    && (r.cut(u).Cut? ==> r.cut(u + v) == r.cut(u).(after := r.cut(u).after + v))
    && (r.cut(u).Whole? && Border(u, v) ==>
          r.cut(u + v) == if r.cut(v).Cut? then r.cut(v).(before := u + r.cut(v).before) else r.cut(v))
  }

  ghost predicate CutsApartEverywhere(r: Rules) {
    forall u, v :: CutsApart(r, u, v)
  }

  // Nothing precedes the leftmost reference, and what follows it is a suffix.
  ghost predicate CutsLeftmost(r: Rules) {
    forall s :: r.cut(s).Cut? ==>
      && r.cut(r.cut(s).before).Whole?
      && |r.cut(s).after| < |s| && r.cut(s).after == s[|s| - |r.cut(s).after|..]
  }

  ghost predicate FillsInBrackets(r: Rules) {
    forall id :: Bracketed(r.fill(id))
  }

  ghost predicate FillsWellFormed(r: Rules) {
    forall s :: r.cut(s).Cut? ==> WellFormed(r, r.fill(r.cut(s).id))
  }

  ghost predicate Lawful(r: Rules) {
    CutsApartEverywhere(r) && CutsLeftmost(r) && FillsInBrackets(r) && FillsWellFormed(r)
  }

  // No chain of references from s is longer than d.
  ghost predicate Nested(r: Rules, d: nat, s: string)
    decreases d, |s|
  {
    match r.cut(s)
    case Cut(_, id, after) => d > 0 && |after| < |s| && Nested(r, d - 1, r.fill(id)) && Nested(r, d, after)
    case _ => true
  }

  // Each reference replaced by its filling, itself substituted.
  ghost function Substitute(r: Rules, d: nat, s: string): string
    decreases d, |s|
  {
    match r.cut(s)
    case Cut(before, id, after) =>
      if d == 0 || |after| >= |s| then s
      else before + Substitute(r, d - 1, r.fill(id)) + Substitute(r, d, after)
    case _ => s
  }

  // Passes needed: one per reference, and those of its filling.
  ghost function Passes(r: Rules, d: nat, s: string): nat
    decreases d, |s|
  {
    match r.cut(s)
    case Cut(_, id, after) =>
      if d == 0 || |after| >= |s| then 0 else 1 + Passes(r, d - 1, r.fill(id)) + Passes(r, d, after)
    case _ => 0
  }

  // One pass of the loop on a text whose leftmost reference is well formed.
  ghost function Pass(r: Rules, s: string): string
    requires r.cut(s).Cut?
  {
    r.cut(s).before + r.fill(r.cut(s).id) + r.cut(s).after
  }

  // The loop stops after exactly n passes.
  ghost predicate StopsIn(r: Rules, s: string, n: nat)
    decreases n
  {
    if r.cut(s).Cut? then n > 0 && StopsIn(r, Pass(r, s), n - 1) else n == 0
  }

  ghost predicate Stops(r: Rules, s: string) {
    exists n: nat :: StopsIn(r, s, n)
  }

  // --- Concatenation ---

  lemma {:induction false} Concat(r: Rules, u: string, v: string)
    requires Lawful(r) && WellFormed(r, u) && WellFormed(r, v) && Border(u, v)
    ensures WellFormed(r, u + v)
    decreases |u|
  {
    assert CutsApart(r, u, v);
    if r.cut(u).Cut? {
      Concat(r, r.cut(u).after, v);
    }
  }

  lemma {:induction false} ConcatNested(r: Rules, d: nat, u: string, v: string)
    requires Lawful(r) && WellFormed(r, u) && WellFormed(r, v) && Border(u, v)
    ensures Nested(r, d, u + v) <==> Nested(r, d, u) && Nested(r, d, v)
    decreases |u|
  {
    assert CutsApart(r, u, v);
    if r.cut(u).Cut? {
      ConcatNested(r, d, r.cut(u).after, v);
    }
  }

  lemma ConcatSubstituteWhole(r: Rules, d: nat, u: string, v: string)
    requires CutsApart(r, u, v) && r.cut(u).Whole? && Border(u, v) && Nested(r, d, v)
    ensures Substitute(r, d, u + v) == Substitute(r, d, u) + Substitute(r, d, v)
    ensures Passes(r, d, u + v) == Passes(r, d, u) + Passes(r, d, v)
  {
    if r.cut(v).Cut? {
      var c := r.cut(v);
      var filling := Substitute(r, d - 1, r.fill(c.id));
      Regroup(u, c.before, filling);
      Regroup(u, c.before + filling, Substitute(r, d, c.after));
    }
  }

  lemma ConcatSubstituteCut(r: Rules, d: nat, u: string, v: string)
    requires CutsApart(r, u, v) && r.cut(u).Cut? && |r.cut(u).after| < |u| && d > 0
    requires Substitute(r, d, r.cut(u).after + v) == Substitute(r, d, r.cut(u).after) + Substitute(r, d, v)
    requires Passes(r, d, r.cut(u).after + v) == Passes(r, d, r.cut(u).after) + Passes(r, d, v)
    ensures Substitute(r, d, u + v) == Substitute(r, d, u) + Substitute(r, d, v)
    ensures Passes(r, d, u + v) == Passes(r, d, u) + Passes(r, d, v)
  {
    var c := r.cut(u);
    Regroup(c.before + Substitute(r, d - 1, r.fill(c.id)), Substitute(r, d, c.after), Substitute(r, d, v));
  }

  lemma {:induction false} ConcatSubstitute(r: Rules, d: nat, u: string, v: string)
    requires Lawful(r) && WellFormed(r, u) && WellFormed(r, v) && Border(u, v)
    requires Nested(r, d, u) && Nested(r, d, v)
    ensures Substitute(r, d, u + v) == Substitute(r, d, u) + Substitute(r, d, v)
    ensures Passes(r, d, u + v) == Passes(r, d, u) + Passes(r, d, v)
    decreases |u|
  {
    assert CutsApart(r, u, v);
    if r.cut(u).Cut? {
      ConcatSubstitute(r, d, r.cut(u).after, v);
      ConcatSubstituteCut(r, d, u, v);
    } else {
      ConcatSubstituteWhole(r, d, u, v);
    }
  }

  // --- More depth changes nothing ---

  lemma {:induction false} Deeper(r: Rules, d: nat, e: nat, s: string)
    requires Nested(r, d, s) && d <= e
    ensures Nested(r, e, s) && Substitute(r, e, s) == Substitute(r, d, s) && Passes(r, e, s) == Passes(r, d, s)
    decreases d, |s|
  {
    if r.cut(s).Cut? {
      Deeper(r, d - 1, e - 1, r.fill(r.cut(s).id));
      Deeper(r, d, e, r.cut(s).after);
    }
  }

  // --- One pass keeps the meaning and uses up one pass ---

  lemma PassKeepsWellFormed(r: Rules, s: string)
    requires Lawful(r) && WellFormed(r, s) && r.cut(s).Cut?
    ensures WellFormed(r, Pass(r, s))
  {
    var c := r.cut(s);
    Concat(r, c.before, r.fill(c.id));
    assert Border(c.before + r.fill(c.id), c.after) by {
      assert (c.before + r.fill(c.id))[|c.before + r.fill(c.id)| - 1] == ']';
    }
    Concat(r, c.before + r.fill(c.id), c.after);
  }

  lemma PassNested(r: Rules, d: nat, s: string)
    requires Lawful(r) && WellFormed(r, s) && r.cut(s).Cut?
    ensures Nested(r, d, Pass(r, s)) <==> Nested(r, d, r.fill(r.cut(s).id)) && Nested(r, d, r.cut(s).after)
  {
    var c := r.cut(s);
    var head := c.before + r.fill(c.id);
    Concat(r, c.before, r.fill(c.id));
    ConcatNested(r, d, c.before, r.fill(c.id));
    assert Border(head, c.after) by { assert head[|head| - 1] == ']'; }
    ConcatNested(r, d, head, c.after);
  }

  lemma PassKeepsMeaning(r: Rules, d: nat, s: string)
    requires Lawful(r) && WellFormed(r, s) && r.cut(s).Cut? && Nested(r, d, s)
    ensures Nested(r, d, Pass(r, s)) && Substitute(r, d, Pass(r, s)) == Substitute(r, d, s)
    ensures Passes(r, d, Pass(r, s)) + 1 == Passes(r, d, s)
  {
    var c := r.cut(s);
    var filling := r.fill(c.id);
    var head := c.before + filling;
    Deeper(r, d - 1, d, filling);
    PassNested(r, d, s);
    Concat(r, c.before, filling);
    ConcatNested(r, d, c.before, filling);
    ConcatSubstitute(r, d, c.before, filling);
    assert Border(head, c.after) by { assert head[|head| - 1] == ']'; }
    ConcatSubstitute(r, d, head, c.after);
  }

  // --- When the loop stops ---

  lemma {:induction false} NestedStops(r: Rules, d: nat, s: string)
    requires Lawful(r) && WellFormed(r, s) && Nested(r, d, s)
    ensures StopsIn(r, s, Passes(r, d, s))
    decreases Passes(r, d, s)
  {
    if r.cut(s).Cut? {
      PassKeepsWellFormed(r, s);
      PassKeepsMeaning(r, d, s);
      NestedStops(r, d, Pass(r, s));
    }
  }

  lemma {:induction false} StopsNested(r: Rules, s: string, n: nat)
    requires Lawful(r) && WellFormed(r, s) && StopsIn(r, s, n)
    ensures Nested(r, n, s)
    decreases n
  {
    if r.cut(s).Cut? {
      PassKeepsWellFormed(r, s);
      StopsNested(r, Pass(r, s), n - 1);
      PassNested(r, n - 1, s);
      Deeper(r, n - 1, n, r.cut(s).after);
    }
  }

  // --- A chain longer than the keys repeats one ---

  // Only these ids have fillings with references of their own.
  ghost predicate Keyed(r: Rules, keys: set<string>) {
    forall s :: r.cut(s).Cut? && r.cut(s).id !in keys ==> r.cut(r.fill(r.cut(s).id)).Whole?
  }

  // A reference of s whose filling alone forces the depth of s.
  lemma {:induction false} DeepestReference(r: Rules, d: nat, s: string) returns (t: string)
    requires Nested(r, d + 1, s) && !Nested(r, d, s)
    ensures r.cut(t).Cut? && Nested(r, d, r.fill(r.cut(t).id)) && (d == 0 || !Nested(r, d - 1, r.fill(r.cut(t).id)))
    decreases |s|
  {
    if d == 0 || !Nested(r, d - 1, r.fill(r.cut(s).id)) {
      t := s;
    } else {
      t := DeepestReference(r, d, r.cut(s).after);
    }
  }

  // Depth d + 1 takes d keys, each with a filling less deep than the one before.
  lemma {:induction false} DepthTakesKeys(r: Rules, keys: set<string>, d: nat, s: string) returns (used: set<string>)
    requires Keyed(r, keys) && Nested(r, d + 1, s) && !Nested(r, d, s)
    ensures used <= keys && |used| == d && forall id :: id in used ==> Nested(r, d, r.fill(id))
    decreases d
  {
    if d == 0 {
      used := {};
    } else {
      var t := DeepestReference(r, d, s);
      var id := r.cut(t).id;
      var below := DepthTakesKeys(r, keys, d - 1, r.fill(id));
      forall x | x in below
        ensures Nested(r, d, r.fill(x))
      {
        Deeper(r, d - 1, d, r.fill(x));
      }
      used := below + {id};
    }
  }

  lemma {:induction false} DepthBounded(r: Rules, keys: set<string>, d: nat, s: string)
    requires Keyed(r, keys) && Nested(r, d, s)
    ensures Nested(r, |keys| + 1, s)
    decreases d
  {
    if d <= |keys| + 1 {
      Deeper(r, d, |keys| + 1, s);
    } else if Nested(r, d - 1, s) {
      DepthBounded(r, keys, d - 1, s);
    } else {
      var used := DepthTakesKeys(r, keys, d - 1, s);
      SubsetSize(used, keys);
    }
  }

  // The loop stops, after some number of passes, exactly when no chain of references
  // is longer than there are keys, one more for a reference that has none.
  lemma {:induction false} StopsExactlyWhenAcyclic(r: Rules, keys: set<string>, s: string)
    requires Lawful(r) && Keyed(r, keys) && WellFormed(r, s)
    ensures Stops(r, s) <==> Nested(r, |keys| + 1, s)
  {
    if Stops(r, s) {
      var n: nat :| StopsIn(r, s, n);
      StopsNested(r, s, n);
      DepthBounded(r, keys, n, s);
    }
    if Nested(r, |keys| + 1, s) {
      NestedStops(r, |keys| + 1, s);
    }
  }

  // --- The result ---

  lemma {:induction false} SubstituteLeavesNothing(r: Rules, d: nat, s: string)
    requires Lawful(r) && WellFormed(r, s) && Nested(r, d, s)
    ensures r.cut(Substitute(r, d, s)).Whole?
    decreases Passes(r, d, s)
  {
    if r.cut(s).Cut? {
      PassKeepsWellFormed(r, s);
      PassKeepsMeaning(r, d, s);
      SubstituteLeavesNothing(r, d, Pass(r, s));
    }
  }

  // A cycle of fillings, each with a reference to the next, is never acyclic.
  ghost predicate Mentions(r: Rules, s: string, id: string)
    decreases |s|
  {
    match r.cut(s)
    case Cut(_, x, after) => x == id || (|after| < |s| && Mentions(r, after, id))
    case _ => false
  }

  lemma {:induction false} MentionedIsNested(r: Rules, d: nat, s: string, id: string)
    requires Nested(r, d, s) && Mentions(r, s, id)
    ensures d > 0 && Nested(r, d - 1, r.fill(id))
    decreases |s|
  {
    if r.cut(s).id != id { MentionedIsNested(r, d, r.cut(s).after, id); }
  }

  lemma {:induction false} CycleNeverNests(r: Rules, ids: seq<string>, k: nat, d: nat)
    requires k < |ids|
    requires forall i :: 0 <= i < |ids| ==> Mentions(r, r.fill(ids[i]), ids[if i + 1 < |ids| then i + 1 else 0])
    ensures !Nested(r, d, r.fill(ids[k]))
    decreases d
  {
    if Nested(r, d, r.fill(ids[k])) {
      var next := if k + 1 < |ids| then k + 1 else 0;
      MentionedIsNested(r, d, r.fill(ids[k]), ids[next]);
      CycleNeverNests(r, ids, next, d - 1);
    }
  }

  lemma CycleNeverStops(r: Rules, ids: seq<string>, s: string, n: nat)
    requires Lawful(r) && WellFormed(r, s) && ids != [] && Mentions(r, s, ids[0])
    requires forall i :: 0 <= i < |ids| ==> Mentions(r, r.fill(ids[i]), ids[if i + 1 < |ids| then i + 1 else 0])
    ensures !StopsIn(r, s, n)
  {
    if StopsIn(r, s, n) {
      StopsNested(r, s, n);
      MentionedIsNested(r, n, s, ids[0]);
      CycleNeverNests(r, ids, 0, n - 1);
    }
  }
}
