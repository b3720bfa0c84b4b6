// What rank fusion guarantees: the order of rows in an arm does not matter, a better
// rank never hurts, and scores have a known ceiling.
module FusionLaws {
  import opened Collections
  import opened Fusion
  import opened Reals

  // --- Permuting an arm ---

  // The rows of one chunk that count, as a bag.
  lemma {:induction false} TakeRow(list: seq<Ranked>, j: nat, id: int, w: real, k: int)
    requires k > 0 && j < |list|
    ensures ArmScore(list, id, w, k)
         == ArmScore(list[..j] + list[j + 1..], id, w, k)
           + (if Counts(list[j], id) then Share(w, k, list[j].rank) else 0.0)
    decreases |list|
  {
    var n := |list| - 1;
    var rest := list[..j] + list[j + 1..];
    if j == n {
      assert rest == list[..n];
    } else {
      assert list[..n][..j] + list[..n][j + 1..] == rest[..n - 1];
      assert rest[n - 1] == list[n];
      TakeRow(list[..n], j, id, w, k);
    }
  }

  lemma {:induction false} SameBagSameScore(a: seq<Ranked>, b: seq<Ranked>, id: int, w: real, k: int)
    requires k > 0 && multiset(a) == multiset(b)
    ensures ArmScore(a, id, w, k) == ArmScore(b, id, w, k)
    decreases |a|
  {
    assert |a| == |multiset(a)| == |multiset(b)| == |b|;
    if a != [] {
      var n := |a| - 1;
      var j := SameRow(a, b);
      TakeRow(b, j, id, w, k);
      SameBagWithout(a, b, j);
      SameBagSameScore(a[..n], b[..j] + b[j + 1..], id, w, k);
    }
  }

  lemma SameRow(a: seq<Ranked>, b: seq<Ranked>) returns (j: nat)
    requires a != [] && multiset(a) == multiset(b)
    ensures j < |b| && b[j] == a[|a| - 1]
  {
    assert a[|a| - 1] in multiset(a);
    assert a[|a| - 1] in multiset(b);
    j :| 0 <= j < |b| && b[j] == a[|a| - 1];
  }

  lemma SameBagWithout(a: seq<Ranked>, b: seq<Ranked>, j: nat)
    requires a != [] && multiset(a) == multiset(b) && j < |b| && b[j] == a[|a| - 1]
    ensures multiset(a[..|a| - 1]) == multiset(b[..j] + b[j + 1..])
  {
    assert a == a[..|a| - 1] + [a[|a| - 1]];
    assert b == b[..j] + [b[j]] + b[j + 1..];
    assert multiset(a[..|a| - 1]) == multiset(a) - multiset{b[j]};
    assert multiset(b[..j] + b[j + 1..]) == multiset(b) - multiset{b[j]};
  }

  // Best values depend on which rows there are, not on their order.
  lemma {:induction false} RankIsLeast(list: seq<Ranked>, id: int)
    ensures forall j :: 0 <= j < |list| && Counts(list[j], id) ==> 0 < BestRank(list, id) <= list[j].rank
    ensures BestRank(list, id) != 0 ==>
      exists j :: 0 <= j < |list| && Counts(list[j], id) && list[j].rank == BestRank(list, id)
    decreases |list|
  {
    if list != [] {
      var n := |list| - 1;
      RankIsLeast(list[..n], id);
      assert forall j :: 0 <= j < n ==> list[..n][j] == list[j];
    }
  }

  lemma {:induction false} SimilarityIsGreatest(list: seq<Ranked>, id: int)
    ensures BestSimilarity(list, id) >= 0.0
    ensures forall j :: 0 <= j < |list| && Counts(list[j], id) ==> list[j].similarity <= BestSimilarity(list, id)
    ensures BestSimilarity(list, id) > 0.0 ==>
              exists j :: 0 <= j < |list| && Counts(list[j], id) && list[j].similarity == BestSimilarity(list, id)
    decreases |list|
  {
    if list != [] {
      var n := |list| - 1;
      SimilarityIsGreatest(list[..n], id);
      assert forall j :: 0 <= j < n ==> list[..n][j] == list[j];
    }
  }

  lemma {:induction false} Bm25IsGreatest(list: seq<Ranked>, id: int)
    ensures BestBm25(list, id) >= 0.0
    ensures forall j :: 0 <= j < |list| && Counts(list[j], id) ==> list[j].bm25Score <= BestBm25(list, id)
    ensures BestBm25(list, id) > 0.0 ==>
              exists j :: 0 <= j < |list| && Counts(list[j], id) && list[j].bm25Score == BestBm25(list, id)
    decreases |list|
  {
    if list != [] {
      var n := |list| - 1;
      Bm25IsGreatest(list[..n], id);
      assert forall j :: 0 <= j < n ==> list[..n][j] == list[j];
    }
  }

  // Every row of a is somewhere in b.
  ghost predicate RowsAmong(a: seq<Ranked>, b: seq<Ranked>) {
    forall j :: 0 <= j < |a| ==> a[j] in b
  }

  lemma SameBagSameRows(a: seq<Ranked>, b: seq<Ranked>)
    requires multiset(a) == multiset(b)
    ensures RowsAmong(a, b) && RowsAmong(b, a)
  {
    forall j | 0 <= j < |a| ensures a[j] in b { assert a[j] in multiset(b); }
    forall j | 0 <= j < |b| ensures b[j] in a { assert b[j] in multiset(a); }
  }

  lemma AmongRank(a: seq<Ranked>, b: seq<Ranked>, id: int)
    requires RowsAmong(a, b)
    ensures BestRank(a, id) != 0 ==> 0 < BestRank(b, id) <= BestRank(a, id)
    ensures InArm(a, id) ==> InArm(b, id)
  {
    RankIsLeast(a, id);
    RankIsLeast(b, id);
  }

  lemma AmongSimilarity(a: seq<Ranked>, b: seq<Ranked>, id: int)
    requires RowsAmong(a, b)
    ensures BestSimilarity(a, id) <= BestSimilarity(b, id)
  {
    SimilarityIsGreatest(a, id);
    SimilarityIsGreatest(b, id);
  }

  lemma AmongBm25(a: seq<Ranked>, b: seq<Ranked>, id: int)
    requires RowsAmong(a, b)
    ensures BestBm25(a, id) <= BestBm25(b, id)
  {
    Bm25IsGreatest(a, id);
    Bm25IsGreatest(b, id);
  }

  lemma PermutedArm(a: seq<Ranked>, b: seq<Ranked>, id: int, w: real, k: int)
    requires k > 0 && multiset(a) == multiset(b)
    ensures ArmScore(a, id, w, k) == ArmScore(b, id, w, k) && BestRank(a, id) == BestRank(b, id)
    ensures BestSimilarity(a, id) == BestSimilarity(b, id) && BestBm25(a, id) == BestBm25(b, id)
    ensures InArm(a, id) <==> InArm(b, id)
  {
    SameBagSameScore(a, b, id, w, k);
    SameBagSameRows(a, b);
    AmongRank(a, b, id);
    AmongRank(b, a, id);
    AmongSimilarity(a, b, id);
    AmongSimilarity(b, a, id);
    AmongBm25(a, b, id);
    AmongBm25(b, a, id);
  }

  lemma PermutedHit(v: seq<Ranked>, b: seq<Ranked>, v2: seq<Ranked>, b2: seq<Ranked>, k: int, w: real, id: int)
    requires k > 0 && multiset(v) == multiset(v2) && multiset(b) == multiset(b2)
    ensures Hit(v, b, k, w, id) == Hit(v2, b2, k, w, id)
    ensures (InArm(v, id) <==> InArm(v2, id)) && (InArm(b, id) <==> InArm(b2, id))
  {
    PermutedArm(v, v2, id, 1.0, k);
    PermutedArm(b, b2, id, w, k);
  }

  // Permuting either arm's list, the ranks staying with their rows, changes nothing.
  lemma {:induction false} FusionIgnoresRowOrder(v: seq<Ranked>, b: seq<Ranked>, v2: seq<Ranked>, b2: seq<Ranked>,
                                                 k: int, w: real,
                              x: seq<FusedHit>, y: seq<FusedHit>)
    requires k > 0 && multiset(v) == multiset(v2) && multiset(b) == multiset(b2)
    requires IsFusion(v, b, k, w, x) && IsFusion(v2, b2, k, w, y)
    ensures x == y
  {
    forall id
      ensures Hit(v, b, k, w, id) == Hit(v2, b2, k, w, id)
      ensures (InArm(v, id) <==> InArm(v2, id)) && (InArm(b, id) <==> InArm(b2, id))
    {
      PermutedHit(v, b, v2, b2, k, w, id);
    }
    assert IsFusion(v, b, k, w, y);
    FusionIsUnique(v, b, k, w, x, y);
  }

  // --- A better rank ---

  lemma AddQuotients(a: real, b: real, d: real)
    requires d > 0.0
    ensures a / d + b / d == (a + b) / d
  {
    QuotientTimes(a, d);
    QuotientTimes(b, d);
    QuotientTimes(a + b, d);
    SameFactor(a / d + b / d, (a + b) / d, d);
  }

  lemma QuotientBelowOne(a: real, d: real)
    requires d > 0.0
    ensures a / d < 1.0 <==> a < d
  {
    QuotientTimes(a, d);
    PositiveFactor(1.0 - a / d, d);
  }

  // A larger divisor makes the quotient smaller.
  lemma SmallerQuotient(w: real, p: real, q: real)
    requires 0.0 < p < q && w >= 0.0
    ensures w / p >= w / q && (w > 0.0 ==> w / p > w / q)
  {
    QuotientTimes(w, p);
    QuotientTimes(w, q);
    PositiveFactor(w / q, q);
    LargerSide(w / p, p, w / q, q);
  }

  lemma LargerSide(x: real, p: real, y: real, q: real)
    requires 0.0 < p < q && x * p == y * q >= 0.0
    ensures x >= y && (y > 0.0 ==> x > y)
  {
    PositiveFactor(-y, q);
    assert (x - y) * p == y * (q - p);
    PositiveFactor(y, q - p);
    PositiveFactor(x - y, p);
    PositiveFactor(y - x, p);
  }

  lemma ShareGrows(w: real, k: int, r: int, better: int)
    requires k > 0 && w >= 0.0 && 0 < better <= r
    ensures Share(w, k, better) >= Share(w, k, r)
  {
    if better < r { SmallerQuotient(w, (k + better) as real, (k + r) as real); }
  }

  lemma BetterRankScores(list: seq<Ranked>, i: nat, better: int, id: int, w: real, k: int)
    requires k > 0 && w >= 0.0 && i < |list| && 0 < better <= list[i].rank
    ensures var list2 := list[i := list[i].(rank := better)];
            && ArmScore(list2, id, w, k) >= ArmScore(list, id, w, k)
            && (id != list[i].chunkId ==> ArmScore(list2, id, w, k) == ArmScore(list, id, w, k))
            && (InArm(list2, id) <==> InArm(list, id))
  {
    var list2 := list[i := list[i].(rank := better)];
    TakeRow(list, i, id, w, k);
    TakeRow(list2, i, id, w, k);
    assert list2[..i] + list2[i + 1..] == list[..i] + list[i + 1..];
    ShareGrows(w, k, list[i].rank, better);
    if InArm(list, id) {
      var j :| 0 <= j < |list| && list[j].chunkId == id && list[j].rank > 0;
      assert list2[j].chunkId == id && list2[j].rank > 0;
    }
    if InArm(list2, id) {
      var j :| 0 <= j < |list| && list2[j].chunkId == id && list2[j].rank > 0;
      assert list[j].chunkId == id && list[j].rank > 0;
    }
  }

  ghost function IdsBefore(hits: seq<FusedHit>, p: nat): set<int>
    requires p <= |hits|
  {
    set j | 0 <= j < p :: hits[j].chunkId
  }

  ghost predicate DistinctIds(hits: seq<FusedHit>) {
    forall i, j :: 0 <= i < j < |hits| ==> hits[i].chunkId != hits[j].chunkId
  }

  lemma FusedIdsAreDistinct(v: seq<Ranked>, b: seq<Ranked>, k: int, w: real, x: seq<FusedHit>)
    requires k > 0 && IsFusion(v, b, k, w, x)
    ensures DistinctIds(x)
  {
    forall i, j | 0 <= i < j < |x|
      ensures x[i].chunkId != x[j].chunkId
    {
      assert Before(x[i], x[j]) && x[i] == Hit(v, b, k, w, x[i].chunkId) && x[j] == Hit(v, b, k, w, x[j].chunkId);
    }
  }

  lemma {:induction false} CountBefore(hits: seq<FusedHit>, p: nat)
    requires p <= |hits| && DistinctIds(hits)
    ensures |IdsBefore(hits, p)| == p
  {
    if p > 0 {
      CountBefore(hits, p - 1);
      assert IdsBefore(hits, p) == IdsBefore(hits, p - 1) + {hits[p - 1].chunkId};
      assert hits[p - 1].chunkId !in IdsBefore(hits, p - 1);
    }
  }

  lemma EarlierOrBehind(x: seq<FusedHit>, p: nat, i: nat)
    requires Ordered(x) && p < |x| && i < |x|
    ensures i <= p || Before(x[p], x[i])
  {
  }

  // If only chunk c's score rises, c moves down past nobody.
  lemma RisingChunk(x: seq<FusedHit>, y: seq<FusedHit>, p: nat, q: nat)
    requires Ordered(x) && Ordered(y) && DistinctIds(x) && DistinctIds(y)
    requires p < |x| && q < |y| && x[p].chunkId == y[q].chunkId && y[q].score >= x[p].score
    requires forall j :: 0 <= j < |y| && j != q ==>
               exists i :: 0 <= i < |x| && x[i].chunkId == y[j].chunkId && x[i].score == y[j].score
    ensures q <= p
  {
    forall id | id in IdsBefore(y, q)
      ensures id in IdsBefore(x, p)
    {
      var j :| 0 <= j < q && y[j].chunkId == id;
      var i :| 0 <= i < |x| && x[i].chunkId == id && x[i].score == y[j].score;
      assert Before(y[j], y[q]);
      assert i != p;
      EarlierOrBehind(x, p, i);
    }
    CountBefore(x, p);
    CountBefore(y, q);
    SubsetSize(IdsBefore(y, q), IdsBefore(x, p));
  }

  // A better rank for one row of the vector arm never moves its chunk down.
  lemma {:induction false} BetterVectorRankNeverHurts(v: seq<Ranked>, b: seq<Ranked>, i: nat, better: int, k: int,
                                                      w: real,
                                   x: seq<FusedHit>, y: seq<FusedHit>, p: nat, q: nat)
    requires k > 0 && w >= 0.0 && i < |v| && 0 < better <= v[i].rank
    requires IsFusion(v, b, k, w, x) && IsFusion(v[i := v[i].(rank := better)], b, k, w, y)
    requires p < |x| && x[p].chunkId == v[i].chunkId && q < |y| && y[q].chunkId == v[i].chunkId
    ensures q <= p
  {
    var v2 := v[i := v[i].(rank := better)];
    FusedIdsAreDistinct(v, b, k, w, x);
    FusedIdsAreDistinct(v2, b, k, w, y);
    BetterRankScores(v, i, better, v[i].chunkId, 1.0, k);
    forall j | 0 <= j < |y| && j != q
      ensures exists m :: 0 <= m < |x| && x[m].chunkId == y[j].chunkId && x[m].score == y[j].score
    {
      var id := y[j].chunkId;
      BetterRankScores(v, i, better, id, 1.0, k);
      assert Hit(v, b, k, w, id) in x;
      var m :| 0 <= m < |x| && x[m] == Hit(v, b, k, w, id);
    }
    RisingChunk(x, y, p, q);
  }

  // Nor does one in the lexical arm.
  lemma {:induction false} BetterBm25RankNeverHurts(v: seq<Ranked>, b: seq<Ranked>, i: nat, better: int, k: int,
                                                    w: real,
                                 x: seq<FusedHit>, y: seq<FusedHit>, p: nat, q: nat)
    requires k > 0 && w >= 0.0 && i < |b| && 0 < better <= b[i].rank
    requires IsFusion(v, b, k, w, x) && IsFusion(v, b[i := b[i].(rank := better)], k, w, y)
    requires p < |x| && x[p].chunkId == b[i].chunkId && q < |y| && y[q].chunkId == b[i].chunkId
    ensures q <= p
  {
    var b2 := b[i := b[i].(rank := better)];
    FusedIdsAreDistinct(v, b, k, w, x);
    FusedIdsAreDistinct(v, b2, k, w, y);
    BetterRankScores(b, i, better, b[i].chunkId, w, k);
    forall j | 0 <= j < |y| && j != q
      ensures exists m :: 0 <= m < |x| && x[m].chunkId == y[j].chunkId && x[m].score == y[j].score
    {
      var id := y[j].chunkId;
      BetterRankScores(b, i, better, id, w, k);
      assert Hit(v, b, k, w, id) in x;
      var m :| 0 <= m < |x| && x[m] == Hit(v, b, k, w, id);
    }
    RisingChunk(x, y, p, q);
  }

  // --- The ceiling of a score ---

  ghost predicate NoRepeats(list: seq<Ranked>) {
    forall i, j :: 0 <= i < j < |list| ==> list[i].chunkId != list[j].chunkId
  }

  lemma {:induction false} ArmCeiling(list: seq<Ranked>, id: int, w: real, k: int)
    requires k > 0 && w >= 0.0 && NoRepeats(list)
    ensures 0.0 <= ArmScore(list, id, w, k) <= Share(w, k, 1)
    decreases |list|
  {
    assert Share(w, k, 1) >= 0.0;
    if list != [] {
      var n := |list| - 1;
      if Counts(list[n], id) {
        assert !InArm(list[..n], id);
        AbsentHasNothing(list[..n], id, w, k);
        ShareGrows(w, k, list[n].rank, 1);
        assert Share(w, k, list[n].rank) >= 0.0;
      } else {
        ArmCeiling(list[..n], id, w, k);
      }
    }
  }

  // With arms that repeat no chunk, no score exceeds (1 + w) / (k + 1): at the default
  // k of 20 and a weight of at most 1.5 that is 2.5/21.
  lemma {:induction false} ScoreCeiling(v: seq<Ranked>, b: seq<Ranked>, k: int, w: real, id: int)
    requires k > 0 && w >= 0.0 && NoRepeats(v) && NoRepeats(b)
    ensures 0.0 <= Hit(v, b, k, w, id).score <= (1.0 + w) / (k + 1) as real
    ensures k == 20 && w <= 1.5 ==> Hit(v, b, k, w, id).score <= 2.5 / 21.0
  {
    ArmCeiling(v, id, 1.0, k);
    ArmCeiling(b, id, w, k);
    var d := (k + 1) as real;
    AddQuotients(1.0, w, d);
  }
}
