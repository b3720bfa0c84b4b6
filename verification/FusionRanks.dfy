// What a fused score is, written out over the rows of the two arms: the sum of weight
// over k plus rank. A better rank is worth strictly more, and an arm alone fuses to its
// own order of ranks.
module FusionRanks {
  import opened Collections
  import opened Sums
  import opened Fusion
  import opened FusionLaws

  // The rows of one chunk that count.
  ghost function Rows(list: seq<Ranked>, id: int): set<int> {
    set j | 0 <= j < |list| && list[j].chunkId == id && list[j].rank > 0
  }

  ghost function Reciprocals(list: seq<Ranked>, weight: real, k: int): int -> real
    requires k > 0
  {
    (j: int) => if 0 <= j < |list| && list[j].rank > 0 then weight / (k + list[j].rank) as real else 0.0
  }

  lemma {:induction false} ArmIsReciprocalSum(list: seq<Ranked>, id: int, w: real, k: int)
    requires k > 0
    ensures ArmScore(list, id, w, k) == Sum(Reciprocals(list, w, k), Rows(list, id))
    decreases |list|
  {
    if list == [] {
      assert Rows(list, id) == {};
    } else {
      var n := |list| - 1;
      var front := list[..n];
      ArmIsReciprocalSum(front, id, w, k);
      SumOfEqual(Reciprocals(front, w, k), Reciprocals(list, w, k), Rows(front, id));
      if list[n].chunkId == id && list[n].rank > 0 {
        assert Rows(list, id) == Rows(front, id) + {n};
        PutIn(Reciprocals(list, w, k), Rows(front, id), n);
      } else {
        assert Rows(list, id) == Rows(front, id);
      }
    }
  }

  // r is the least rank of the chunk's rows that count, or 0 without any.
  ghost predicate IsBestRank(list: seq<Ranked>, id: int, r: int) {
    && (Rows(list, id) == {} ==> r == 0)
    && (Rows(list, id) != {} ==> exists j :: j in Rows(list, id) && list[j].rank == r)
    && (forall j :: j in Rows(list, id) ==> r <= list[j].rank)
  }

  // s is the greatest similarity of the chunk's rows that count, or 0 if none is above it.
  ghost predicate IsBestSimilarity(list: seq<Ranked>, id: int, s: real) {
    && s >= 0.0 && (s == 0.0 || exists j :: j in Rows(list, id) && list[j].similarity == s)
    && (forall j :: j in Rows(list, id) ==> list[j].similarity <= s)
  }

  ghost predicate IsBestBm25(list: seq<Ranked>, id: int, s: real) {
    && s >= 0.0 && (s == 0.0 || exists j :: j in Rows(list, id) && list[j].bm25Score == s)
    && (forall j :: j in Rows(list, id) ==> list[j].bm25Score <= s)
  }

  lemma BestRankIsBest(list: seq<Ranked>, id: int)
    ensures IsBestRank(list, id, BestRank(list, id))
  {
    RankIsLeast(list, id);
    forall j | j in Rows(list, id) ensures 0 < BestRank(list, id) <= list[j].rank {
      assert Counts(list[j], id);
    }
    if BestRank(list, id) != 0 {
      var i :| 0 <= i < |list| && Counts(list[i], id) && list[i].rank == BestRank(list, id);
      assert i in Rows(list, id);
    }
  }

  lemma BestSimilarityIsBest(list: seq<Ranked>, id: int)
    ensures IsBestSimilarity(list, id, BestSimilarity(list, id))
  {
    SimilarityIsGreatest(list, id);
    forall j | j in Rows(list, id) ensures list[j].similarity <= BestSimilarity(list, id) {
      assert Counts(list[j], id);
    }
    if BestSimilarity(list, id) > 0.0 {
      var i :| 0 <= i < |list| && Counts(list[i], id) && list[i].similarity == BestSimilarity(list, id);
      assert i in Rows(list, id);
    }
  }

  lemma BestBm25IsBest(list: seq<Ranked>, id: int)
    ensures IsBestBm25(list, id, BestBm25(list, id))
  {
    Bm25IsGreatest(list, id);
    forall j | j in Rows(list, id) ensures list[j].bm25Score <= BestBm25(list, id) {
      assert Counts(list[j], id);
    }
    if BestBm25(list, id) > 0.0 {
      var i :| 0 <= i < |list| && Counts(list[i], id) && list[i].bm25Score == BestBm25(list, id);
      assert i in Rows(list, id);
    }
  }

  // Each hit of a fusion sums 1 / (k + rank) over its vector rows and w / (k + rank) over
  // its lexical ones, and shows its best rank and score of each arm.
  lemma {:induction false} FusedHitIsReciprocalSum(v: seq<Ranked>, b: seq<Ranked>, k: int, w: real,
                                                   x: seq<FusedHit>, i: nat)
    requires k > 0 && IsFusion(v, b, k, w, x) && i < |x|
    ensures var h := x[i];
            && h.score
               == Sum(Reciprocals(v, 1.0, k), Rows(v, h.chunkId)) + Sum(Reciprocals(b, w, k), Rows(b, h.chunkId))
            && IsBestRank(v, h.chunkId, h.vectorRank) && IsBestRank(b, h.chunkId, h.bm25Rank)
            && IsBestSimilarity(v, h.chunkId, h.similarity) && IsBestBm25(b, h.chunkId, h.bm25Score)
            && (Rows(v, h.chunkId) != {} || Rows(b, h.chunkId) != {})
  {
    var id := x[i].chunkId;
    assert x[i] == Hit(v, b, k, w, id);
    ArmIsReciprocalSum(v, id, 1.0, k);
    ArmIsReciprocalSum(b, id, w, k);
    BestRankIsBest(v, id);
    BestRankIsBest(b, id);
    BestSimilarityIsBest(v, id);
    BestBm25IsBest(b, id);
    InArmExactlyByRow(v, id);
    InArmExactlyByRow(b, id);
  }

  lemma InArmExactlyByRow(list: seq<Ranked>, id: int)
    ensures InArm(list, id) <==> Rows(list, id) != {}
  {
    if InArm(list, id) {
      var j :| 0 <= j < |list| && list[j].chunkId == id && list[j].rank > 0;
      assert j in Rows(list, id);
    }
    if j :| j in Rows(list, id) { assert list[j].chunkId == id && list[j].rank > 0; }
  }

  // Exactly the chunks with a row of positive rank are fused, once each, by descending
  // score and, where scores are equal, by ascending id.
  lemma {:induction false} FusedOnceInOrder(v: seq<Ranked>, b: seq<Ranked>, k: int, w: real, x: seq<FusedHit>, id: int)
    requires k > 0 && IsFusion(v, b, k, w, x)
    ensures (exists i :: 0 <= i < |x| && x[i].chunkId == id) <==> Rows(v, id) != {} || Rows(b, id) != {}
    ensures forall i, j :: 0 <= i < |x| && 0 <= j < |x| ==>
              (i < j <==> x[i].score > x[j].score || (x[i].score == x[j].score && x[i].chunkId < x[j].chunkId))
  {
    InArmExactlyByRow(v, id);
    InArmExactlyByRow(b, id);
    if InArm(v, id) || InArm(b, id) {
      assert Hit(v, b, k, w, id) in x;
      var i :| 0 <= i < |x| && x[i] == Hit(v, b, k, w, id);
      assert x[i].chunkId == id;
    }
    FusedIdsAreDistinct(v, b, k, w, x);
    forall i, j | 0 <= i < |x| && 0 <= j < |x|
      ensures i < j <==> x[i].score > x[j].score || (x[i].score == x[j].score && x[i].chunkId < x[j].chunkId)
    {
      OneOrder(x, i, j);
    }
  }

  lemma OneOrder(x: seq<FusedHit>, i: nat, j: nat)
    requires Ordered(x) && i < |x| && j < |x|
    ensures i < j <==> x[i].score > x[j].score || (x[i].score == x[j].score && x[i].chunkId < x[j].chunkId)
  {
    if i < j { assert Before(x[i], x[j]); }
    if j < i { assert Before(x[j], x[i]); }
  }

  // --- One row ---

  lemma OnlyRow(list: seq<Ranked>, j: nat, w: real, k: int)
    requires k > 0 && j < |list| && list[j].rank > 0 && Rows(list, list[j].chunkId) == {j as int}
    ensures ArmScore(list, list[j].chunkId, w, k) == w / (k + list[j].rank) as real
  {
    var id, f := list[j].chunkId, Reciprocals(list, w, k);
    ArmIsReciprocalSum(list, id, w, k);
    TakeOut(f, {j as int}, j);
    assert {j as int} - {j as int} == {};
  }

  lemma RepeatedChunkIsSameRow(list: seq<Ranked>, i: int, j: int)
    requires NoRepeats(list) && 0 <= i < |list| && 0 <= j < |list| && list[i].chunkId == list[j].chunkId
    ensures i == j
  {
  }

  lemma RowOfOwn(list: seq<Ranked>, j: nat)
    requires NoRepeats(list) && j < |list| && list[j].rank > 0
    ensures Rows(list, list[j].chunkId) == {j as int}
  {
    forall i | i in Rows(list, list[j].chunkId) ensures i == j {
      RepeatedChunkIsSameRow(list, i, j);
    }
  }

  // A chunk with one row that counts in each arm scores exactly 1/(k + r) + w/(k + s); with
  // a row in one arm only it scores that arm's part.
  lemma {:induction false} OneRowInEachArm(v: seq<Ranked>, b: seq<Ranked>, k: int, w: real, x: seq<FusedHit>,
                                           i: nat, p: nat, q: nat)
    requires k > 0 && IsFusion(v, b, k, w, x) && i < |x|
    ensures p < |v| && q < |b| && Rows(v, x[i].chunkId) == {p as int} && Rows(b, x[i].chunkId) == {q as int} ==>
              x[i].score == 1.0 / (k + v[p].rank) as real + w / (k + b[q].rank) as real
    ensures p < |v| && Rows(v, x[i].chunkId) == {p as int} && Rows(b, x[i].chunkId) == {} ==>
              x[i].score == 1.0 / (k + v[p].rank) as real
    ensures q < |b| && Rows(v, x[i].chunkId) == {} && Rows(b, x[i].chunkId) == {q as int} ==>
              x[i].score == w / (k + b[q].rank) as real
  {
    var id := x[i].chunkId;
    FusedHitIsReciprocalSum(v, b, k, w, x, i);
    ArmIsReciprocalSum(v, id, 1.0, k);
    ArmIsReciprocalSum(b, id, w, k);
    if p < |v| && Rows(v, id) == {p as int} {
      assert p as int in Rows(v, id);
      OnlyRow(v, p, 1.0, k);
    }
    if q < |b| && Rows(b, id) == {q as int} {
      assert q as int in Rows(b, id);
      OnlyRow(b, q, w, k);
    }
  }

  // --- A strictly better rank ---

  lemma SmallerIsMore(w: real, k: int, r: int, better: int)
    requires k > 0 && w > 0.0 && 0 < better < r
    ensures w / (k + better) as real > w / (k + r) as real
  {
    SmallerQuotient(w, (k + better) as real, (k + r) as real);
  }

  lemma ArmOfBetterRow(list: seq<Ranked>, i: nat, better: int, w: real, k: int)
    requires k > 0 && i < |list| && 0 < better && list[i].rank > 0
    ensures ArmScore(list[i := list[i].(rank := better)], list[i].chunkId, w, k) - ArmScore(list, list[i].chunkId, w, k)
         == w / (k + better) as real - w / (k + list[i].rank) as real
  {
    var list2, id := list[i := list[i].(rank := better)], list[i].chunkId;
    TakeRow(list, i, id, w, k);
    TakeRow(list2, i, id, w, k);
    assert list2[..i] + list2[i + 1..] == list[..i] + list[i + 1..];
  }

  // Changing one vector row's rank changes its chunk's score by the difference of the two
  // reciprocals, so a strictly better rank scores strictly more.
  lemma {:induction false} BetterVectorRankScoresMore(v: seq<Ranked>, b: seq<Ranked>, i: nat, better: int, k: int,
                                                      w: real, x: seq<FusedHit>, y: seq<FusedHit>, p: nat, q: nat)
    requires k > 0 && i < |v| && 0 < better && v[i].rank > 0
    requires IsFusion(v, b, k, w, x) && IsFusion(v[i := v[i].(rank := better)], b, k, w, y)
    requires p < |x| && x[p].chunkId == v[i].chunkId && q < |y| && y[q].chunkId == v[i].chunkId
    ensures y[q].score - x[p].score == 1.0 / (k + better) as real - 1.0 / (k + v[i].rank) as real
    ensures better < v[i].rank ==> y[q].score > x[p].score
  {
    ArmOfBetterRow(v, i, better, 1.0, k);
    assert x[p] == Hit(v, b, k, w, v[i].chunkId);
    assert y[q] == Hit(v[i := v[i].(rank := better)], b, k, w, v[i].chunkId);
    if better < v[i].rank { SmallerIsMore(1.0, k, v[i].rank, better); }
  }

  // The same of a lexical row, by its weight.
  lemma {:induction false} BetterBm25RankScoresMore(v: seq<Ranked>, b: seq<Ranked>, i: nat, better: int, k: int,
                                                    w: real, x: seq<FusedHit>, y: seq<FusedHit>, p: nat, q: nat)
    requires k > 0 && i < |b| && 0 < better && b[i].rank > 0
    requires IsFusion(v, b, k, w, x) && IsFusion(v, b[i := b[i].(rank := better)], k, w, y)
    requires p < |x| && x[p].chunkId == b[i].chunkId && q < |y| && y[q].chunkId == b[i].chunkId
    ensures y[q].score - x[p].score == w / (k + better) as real - w / (k + b[i].rank) as real
    ensures w > 0.0 && better < b[i].rank ==> y[q].score > x[p].score
  {
    ArmOfBetterRow(b, i, better, w, k);
    assert x[p] == Hit(v, b, k, w, b[i].chunkId);
    assert y[q] == Hit(v, b[i := b[i].(rank := better)], k, w, b[i].chunkId);
    if w > 0.0 && better < b[i].rank { SmallerIsMore(w, k, b[i].rank, better); }
  }

  // --- One arm alone ---

  lemma RankDecidesScore(w: real, k: int, r: int, s: int)
    requires k > 0 && w > 0.0 && r > 0 && s > 0
    ensures w / (k + r) as real > w / (k + s) as real <==> r < s
    ensures w / (k + r) as real == w / (k + s) as real <==> r == s
  {
    if r < s { SmallerIsMore(w, k, s, r); }
    if s < r { SmallerIsMore(w, k, r, s); }
  }

  // Fused alone, an arm that repeats no chunk keeps its order of ranks; equal ranks go by id.
  lemma {:induction false} ArmAloneKeepsItsOrder(list: seq<Ranked>, lexical: bool, k: int, w: real, x: seq<FusedHit>,
                                                 i: nat, j: nat, p: nat, q: nat)
    requires k > 0 && w > 0.0 && NoRepeats(list)
    requires IsFusion(if lexical then [] else list, if lexical then list else [], k, w, x)
    requires i < |x| && p < |list| && x[i].chunkId == list[p].chunkId && list[p].rank > 0
    requires j < |x| && q < |list| && x[j].chunkId == list[q].chunkId && list[q].rank > 0
    ensures i < j <==>
              (list[p].rank < list[q].rank || (list[p].rank == list[q].rank && list[p].chunkId < list[q].chunkId))
  {
    var v, b := if lexical then [] else list, if lexical then list else [];
    RowOfOwn(list, p);
    RowOfOwn(list, q);
    OneRowInEachArm(v, b, k, w, x, i, p, p);
    OneRowInEachArm(v, b, k, w, x, j, q, q);
    var weight := if lexical then w else 1.0;
    assert x[i].score == weight / (k + list[p].rank) as real;
    assert x[j].score == weight / (k + list[q].rank) as real;
    OneOrder(x, i, j);
    RankDecidesScore(weight, k, list[p].rank, list[q].rank);
  }
}
