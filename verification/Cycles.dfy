// Rewriting stops exactly when no chain of references comes back to one it has passed.
module Cycles {
  import opened Rewriting
  import opened Inserts

  // Each id is mentioned in the filling of the one before it, the first one in s.
  ghost predicate Chain(r: Rules, s: string, ids: seq<string>)
    decreases |ids|
  {
    ids == [] || (Mentions(r, s, ids[0]) && Chain(r, r.fill(ids[0]), ids[1..]))
  }

  predicate Repeats(ids: seq<string>) {
    exists i, j :: 0 <= i < j < |ids| && ids[i] == ids[j]
  }

  ghost predicate ReachesCycle(r: Rules, s: string) {
    exists ids :: Chain(r, s, ids) && Repeats(ids)
  }

  // --- Too deep a text holds a long chain, and a long chain repeats ---

  lemma {:induction false} LongChain(r: Rules, d: nat, s: string) returns (ids: seq<string>)
    requires Lawful(r) && WellFormed(r, s) && !Nested(r, d, s)
    ensures Chain(r, s, ids) && |ids| == d + 1
    decreases d, |s|
  {
    var c := r.cut(s);
    if d == 0 {
      ids := [c.id];
    } else if !Nested(r, d - 1, r.fill(c.id)) {
      var below := LongChain(r, d - 1, r.fill(c.id));
      ids := [c.id] + below;
    } else {
      ids := LongChain(r, d, c.after);
    }
  }

  // Only the last of a chain can be an id without references of its own.
  lemma {:induction false} ChainTakesKeys(r: Rules, keys: set<string>, s: string, ids: seq<string>)
    requires Keyed(r, keys) && Chain(r, s, ids)
    ensures forall i :: 0 <= i < |ids| - 1 ==> ids[i] in keys
    decreases |ids|
  {
    if |ids| > 1 {
      MentionedIsCut(r, s, ids[0]);
      ChainTakesKeys(r, keys, r.fill(ids[0]), ids[1..]);
      forall i | 0 <= i < |ids| - 1
        ensures ids[i] in keys
      {
        if i > 0 { assert ids[i] == ids[1..][i - 1]; }
      }
    }
  }

  lemma {:induction false} MentionedIsCut(r: Rules, s: string, id: string)
    requires Mentions(r, s, id)
    ensures exists t :: r.cut(t).Cut? && r.cut(t).id == id
    decreases |s|
  {
    if r.cut(s).id != id { MentionedIsCut(r, r.cut(s).after, id); }
  }

  lemma {:induction false} ManyFromFewRepeat(ids: seq<string>, keys: set<string>)
    requires |ids| > |keys| && forall i :: 0 <= i < |ids| ==> ids[i] in keys
    ensures Repeats(ids)
    decreases |ids|
  {
    var n := |ids| - 1;
    if j :| 0 <= j < n && ids[j] == ids[n] {
      assert ids[j] == ids[n];
    } else {
      ManyFromFewRepeat(ids[..n], keys - {ids[n]});
      var i, j :| 0 <= i < j < n && ids[..n][i] == ids[..n][j];
      assert ids[i] == ids[j];
    }
  }

  // --- A cycle is deeper than any bound ---

  lemma {:induction false} ChainNeedsDepth(r: Rules, d: nat, s: string, ids: seq<string>)
    requires Nested(r, d, s) && Chain(r, s, ids) && ids != []
    ensures d >= |ids| && Nested(r, d - |ids|, r.fill(ids[|ids| - 1]))
    decreases |ids|
  {
    MentionedIsNested(r, d, s, ids[0]);
    if |ids| > 1 {
      ChainNeedsDepth(r, d - 1, r.fill(ids[0]), ids[1..]);
    }
  }

  lemma {:induction false} LoopIsTooDeep(r: Rules, d: nat, x: string, ids: seq<string>)
    requires Chain(r, r.fill(x), ids) && ids != [] && ids[|ids| - 1] == x
    ensures !Nested(r, d, r.fill(x))
    decreases d
  {
    if Nested(r, d, r.fill(x)) {
      ChainNeedsDepth(r, d, r.fill(x), ids);
      LoopIsTooDeep(r, d - |ids|, x, ids);
    }
  }

  lemma {:induction false} ChainSplits(r: Rules, s: string, ids: seq<string>, i: nat)
    requires Chain(r, s, ids) && i < |ids|
    ensures Chain(r, s, ids[..i + 1]) && Chain(r, r.fill(ids[i]), ids[i + 1..])
    decreases |ids|
  {
    assert ids[..i + 1][0] == ids[0];
    if i == 0 {
      assert ids[..1][1..] == [];
    } else {
      ChainSplits(r, r.fill(ids[0]), ids[1..], i - 1);
      assert ids[..i + 1][1..] == ids[1..][..i] && ids[1..][i..] == ids[i + 1..];
    }
  }

  lemma {:induction false} ChainFront(r: Rules, s: string, ids: seq<string>, n: nat)
    requires Chain(r, s, ids) && n <= |ids|
    ensures Chain(r, s, ids[..n])
    decreases |ids|
  {
    if n > 0 {
      assert ids[..n][0] == ids[0] && ids[..n][1..] == ids[1..][..n - 1];
      ChainFront(r, r.fill(ids[0]), ids[1..], n - 1);
    }
  }

  lemma CycleIsTooDeep(r: Rules, d: nat, s: string, ids: seq<string>)
    requires Chain(r, s, ids) && Repeats(ids)
    ensures !Nested(r, d, s)
  {
    var i, j :| 0 <= i < j < |ids| && ids[i] == ids[j];
    ChainSplits(r, s, ids, i);
    var loop := ids[i + 1..j + 1];
    assert ids[i + 1..][..j - i] == loop;
    ChainFront(r, r.fill(ids[i]), ids[i + 1..], j - i);
    if Nested(r, d, s) {
      ChainNeedsDepth(r, d, s, ids[..i + 1]);
      LoopIsTooDeep(r, d - (i + 1), ids[i], loop);
    }
  }

  // --- The equivalence ---

  lemma {:induction false} DeepExactlyWithCycle(r: Rules, keys: set<string>, s: string)
    requires Lawful(r) && Keyed(r, keys) && WellFormed(r, s)
    ensures ReachesCycle(r, s) <==> !Nested(r, |keys| + 1, s)
  {
    if !Nested(r, |keys| + 1, s) {
      var ids := LongChain(r, |keys| + 1, s);
      var n := |ids| - 1;
      ChainTakesKeys(r, keys, s, ids);
      ManyFromFewRepeat(ids[..n], keys);
      var i, j :| 0 <= i < j < n && ids[..n][i] == ids[..n][j];
      assert ids[i] == ids[j];
      assert Chain(r, s, ids) && Repeats(ids);
    }
    if ReachesCycle(r, s) {
      var ids :| Chain(r, s, ids) && Repeats(ids);
      CycleIsTooDeep(r, |keys| + 1, s, ids);
    }
  }

  // On well-formed inserts the loop ends if and only if no chain of inserts, each in the
  // text of the parameter before it, names a parameter twice.
  lemma {:induction false} SettlesExactlyWithoutCycle(params: Params, prose: string)
    requires WellFormedParams(params) && WellFormed(InsertRules(params), prose)
    ensures Settles(params, prose) <==> !ReachesCycle(InsertRules(params), prose)
  {
    InsertRulesAreLawful(params);
    SettlesExactlyWhenAcyclic(params, prose);
    DeepExactlyWithCycle(InsertRules(params), params.Keys, prose);
  }
}
