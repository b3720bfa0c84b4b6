// strings.Index, splitting at the first occurrence of a pattern, and what both do on
// a concatenation.
module Searching {

  function Index(s: string, pat: string): (i: int)
    ensures -1 <= i
    ensures i >= 0 ==> i + |pat| <= |s|
    decreases |s|
  {
    if |s| < |pat| then -1
    else if s[..|pat|] == pat then 0
    else if s == [] then -1
    else
      var i := Index(s[1..], pat);
      if i < 0 then -1 else i + 1
  }

  lemma {:induction false} IndexAtMost(s: string, pat: string, k: nat)
    requires k + |pat| <= |s| && s[k..k + |pat|] == pat && pat != []
    ensures 0 <= Index(s, pat) <= k
    decreases |s|
  {
    if s[..|pat|] != pat {
      assert s[1..][k - 1..k - 1 + |pat|] == s[k..k + |pat|];
      IndexAtMost(s[1..], pat, k - 1);
    }
  }

  datatype Parts = NotFound | Parts(before: string, after: string)

  // The text around the first occurrence of pat.
  function Split(s: string, pat: string): (p: Parts)
    ensures p.Parts? ==> |p.before| + |pat| + |p.after| == |s|
    decreases |s|
  {
    if |s| < |pat| then NotFound
    else if s[..|pat|] == pat then Parts("", s[|pat|..])
    else if s == [] then NotFound
    else
      var p := Split(s[1..], pat);
      if p.Parts? then Parts([s[0]] + p.before, p.after) else NotFound
  }

  predicate Has(s: string, pat: string) {
    Split(s, pat).Parts?
  }

  lemma {:induction false} SplitJoins(s: string, pat: string)
    requires Has(s, pat)
    ensures s == Split(s, pat).before + (pat + Split(s, pat).after)
    decreases |s|
  {
    if s[..|pat|] == pat {
      assert s == pat + s[|pat|..];
      assert Split(s, pat).before == [];
    } else {
      var p := Split(s[1..], pat);
      SplitJoins(s[1..], pat);
      assert [s[0]] + p.before + (pat + p.after) == [s[0]] + (p.before + (pat + p.after));
      assert s == [s[0]] + s[1..];
    }
  }

  lemma {:induction false} IndexIsSplit(s: string, pat: string)
    ensures Has(s, pat) <==> Index(s, pat) >= 0
    ensures Has(s, pat) ==> |Split(s, pat).before| == Index(s, pat)
    decreases |s|
  {
    if |pat| <= |s| && s[..|pat|] != pat && s != [] {
      IndexIsSplit(s[1..], pat);
    }
  }

  lemma {:induction false} SplitInFirst(u: string, v: string, pat: string)
    requires Has(u, pat)
    ensures Split(u + v, pat) == Split(u, pat).(after := Split(u, pat).after + v)
    decreases |u|
  {
    assert (u + v)[..|pat|] == u[..|pat|];
    if u[..|pat|] != pat {
      assert (u + v)[1..] == u[1..] + v;
      SplitInFirst(u[1..], v, pat);
    } else {
      assert (u + v)[|pat|..] == u[|pat|..] + v;
    }
  }

  lemma NothingBefore(s: string, pat: string)
    requires Has(s, pat) && pat != []
    ensures !Has(Split(s, pat).before, pat)
  {
    var before, rest := Split(s, pat).before, pat + Split(s, pat).after;
    SplitJoins(s, pat);
    assert s == before + rest;
    if Has(before, pat) {
      SplitInFirst(before, rest, pat);
    }
  }

  // An occurrence of pat that ends k characters into v.
  predicate Straddles(u: string, v: string, pat: string, k: nat) {
    k < |pat| && |pat| - k <= |u| && k <= |v| && 0 < k && u[|u| - (|pat| - k)..] + v[..k] == pat
  }

  // No occurrence of pat reaches across the border of u and v.
  ghost predicate NoOverlap(u: string, v: string, pat: string) {
    forall k :: !Straddles(u, v, pat, k)
  }

  lemma HeadIsElsewhere(u: string, v: string, pat: string)
    requires !Has(u, pat) && NoOverlap(u, v, pat) && pat != [] && u != [] && |pat| <= |u + v|
    ensures (u + v)[..|pat|] != pat
  {
    if |pat| <= |u| {
      assert (u + v)[..|pat|] == u[..|pat|];
    } else {
      assert !Straddles(u, v, pat, |pat| - |u|);
      assert (u + v)[..|pat|] == u[|u| - |u|..] + v[..|pat| - |u|];
    }
  }

  lemma NoOverlapTail(u: string, v: string, pat: string)
    requires NoOverlap(u, v, pat) && u != []
    ensures NoOverlap(u[1..], v, pat)
  {
    forall k: nat
      ensures Straddles(u[1..], v, pat, k) ==> Straddles(u, v, pat, k)
    {
      if k < |pat| && |pat| - k < |u| {
        assert u[1..][|u| - 1 - (|pat| - k)..] == u[|u| - (|pat| - k)..];
      }
    }
  }

  lemma {:induction false} SplitInSecond(u: string, v: string, pat: string)
    requires !Has(u, pat) && NoOverlap(u, v, pat) && pat != []
    ensures Split(u + v, pat) == if Has(v, pat) then Split(v, pat).(before := u + Split(v, pat).before) else NotFound
    decreases |u|
  {
    if u == [] {
      assert u + v == v;
      if Has(v, pat) { assert u + Split(v, pat).before == Split(v, pat).before; }
    } else {
      if |pat| <= |u + v| { HeadIsElsewhere(u, v, pat); }
      assert (u + v)[1..] == u[1..] + v;
      assert !Has(u[1..], pat);
      NoOverlapTail(u, v, pat);
      SplitInSecond(u[1..], v, pat);
      if Has(v, pat) { assert [u[0]] + (u[1..] + Split(v, pat).before) == u + Split(v, pat).before; }
    }
  }

  lemma DistinctEdges(u: string, v: string, pat: string)
    requires u == [] || v == [] || u[|u| - 1] !in pat || v[0] !in pat
    ensures NoOverlap(u, v, pat)
  {
    forall k: nat
      ensures Straddles(u, v, pat, k) ==> u[|u| - 1] in pat && v[0] in pat
    {
      if 0 < k < |pat| && |pat| - k <= |u| && k <= |v| {
        var joined := u[|u| - (|pat| - k)..] + v[..k];
        assert joined[|pat| - k - 1] == u[|u| - 1] && joined[|pat| - k] == v[0];
      }
    }
  }

  lemma {:induction false} NoneWithout(u: string, pat: string, c: char)
    requires c in pat && c !in u
    ensures !Has(u, pat)
    decreases |u|
  {
    if |pat| <= |u| {
      assert c !in u[..|pat|];
      assert u != [] ==> c !in u[1..];
      if u != [] { NoneWithout(u[1..], pat, c); }
    }
  }
}
