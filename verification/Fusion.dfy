// Reciprocal rank fusion of two ranked lists: scores gathered in a map, whose entries
// are then sorted. Scores are reals.
module Fusion {
  import opened Collections

  const DEFAULT_RRF_K: int := 20
  const DEFAULT_LEX_WEIGHT: real := 0.5

  datatype Ranked = Ranked(chunkId: int, rank: int, similarity: real, bm25Score: real)
  datatype FusedHit = FusedHit(chunkId: int, score: real, similarity: real, bm25Score: real, vectorRank: int,
                               bm25Rank: int)

  // --- What one arm contributes ---

  function Share(weight: real, k: int, rank: int): real
    requires k > 0 && rank > 0
  {
    weight / (k + rank) as real
  }

  // The sum of an arm's shares for one chunk; ranks below 1 do not count.
  function ArmScore(list: seq<Ranked>, id: int, weight: real, k: int): real
    requires k > 0
  {
    if list == [] then 0.0
    else
      var r := list[|list| - 1];
      ArmScore(list[..|list| - 1], id, weight, k) + if r.chunkId == id && r.rank > 0 then Share(weight, k, r.rank)
        else 0.0
  }

  // The chunk's best rank in the arm, 0 if it has none.
  function BestRank(list: seq<Ranked>, id: int): int {
    if list == [] then 0
    else
      var best, r := BestRank(list[..|list| - 1], id), list[|list| - 1];
      if r.chunkId == id && r.rank > 0 && (best == 0 || r.rank < best) then r.rank else best
  }

  function BestSimilarity(list: seq<Ranked>, id: int): real {
    if list == [] then 0.0
    else
      var best, r := BestSimilarity(list[..|list| - 1], id), list[|list| - 1];
      if r.chunkId == id && r.rank > 0 && r.similarity > best then r.similarity else best
  }

  function BestBm25(list: seq<Ranked>, id: int): real {
    if list == [] then 0.0
    else
      var best, r := BestBm25(list[..|list| - 1], id), list[|list| - 1];
      if r.chunkId == id && r.rank > 0 && r.bm25Score > best then r.bm25Score else best
  }

  predicate InArm(list: seq<Ranked>, id: int) {
    exists j :: 0 <= j < |list| && list[j].chunkId == id && list[j].rank > 0
  }

  function Hit(v: seq<Ranked>, b: seq<Ranked>, k: int, w: real, id: int): FusedHit
    requires k > 0
  {
    FusedHit(id, ArmScore(v, id, 1.0, k) + ArmScore(b, id, w, k), BestSimilarity(v, id), BestBm25(b, id),
             BestRank(v, id), BestRank(b, id))
  }

  // --- Order ---

  // Higher score first, then lower id.
  predicate Before(x: FusedHit, y: FusedHit) {
    x.score > y.score || (x.score == y.score && x.chunkId < y.chunkId)
  }

  ghost predicate Ordered(hits: seq<FusedHit>) {
    forall i, j :: 0 <= i < j < |hits| ==> Before(hits[i], hits[j])
  }

  // The fusion: every chunk of positive rank in some arm, with its score, in order.
  ghost predicate IsFusion(v: seq<Ranked>, b: seq<Ranked>, k: int, w: real, hits: seq<FusedHit>)
    requires k > 0
  {
    && Ordered(hits)
    && (forall i :: 0 <= i < |hits| ==> hits[i] == Hit(v, b, k, w, hits[i].chunkId))
    && (forall i :: 0 <= i < |hits| ==> InArm(v, hits[i].chunkId) || InArm(b, hits[i].chunkId))
    && (forall id :: InArm(v, id) || InArm(b, id) ==> Hit(v, b, k, w, id) in hits)
  }

  lemma InTail(a: seq<FusedHit>, x: FusedHit)
    requires Ordered(a) && a != []
    ensures x in a[1..] <==> x in a && x != a[0]
  {
    if x in a && x != a[0] {
      var i :| 0 <= i < |a| && a[i] == x;
      assert a[1..][i - 1] == x;
    }
    if x in a[1..] {
      var i :| 0 <= i < |a| - 1 && a[1..][i] == x;
      assert a[i + 1] == x && Before(a[0], a[i + 1]);
    }
  }

  // Strictly ordered lists of the same elements are the same list.
  lemma {:induction false} OrderIsUnique(a: seq<FusedHit>, b: seq<FusedHit>)
    requires Ordered(a) && Ordered(b) && forall x :: x in a <==> x in b
    ensures a == b
    decreases |a|
  {
    if a == [] {
      assert forall i :: 0 <= i < |b| ==> b[i] in b;
    } else {
      assert a[0] in a;
      assert b != [];
      assert b[0] in b;
      assert a[0] == b[0];
      forall x
        ensures x in a[1..] <==> x in b[1..]
      {
        InTail(a, x);
        InTail(b, x);
      }
      OrderIsUnique(a[1..], b[1..]);
      assert a == [a[0]] + a[1..] && b == [b[0]] + b[1..];
    }
  }

  // Whatever order a map's entries come in, there is only one fusion.
  lemma {:induction false} FusionIsUnique(v: seq<Ranked>, b: seq<Ranked>, k: int, w: real, x: seq<FusedHit>,
                                          y: seq<FusedHit>)
    requires k > 0 && IsFusion(v, b, k, w, x) && IsFusion(v, b, k, w, y)
    ensures x == y
  {
    forall h
      ensures h in x <==> h in y
    {
      if h in x { assert h == Hit(v, b, k, w, h.chunkId); }
      if h in y { assert h == Hit(v, b, k, w, h.chunkId); }
    }
    OrderIsUnique(x, y);
  }

  // --- fuseRRF ---

  lemma ArmStep(list: seq<Ranked>, j: nat, id: int, w: real, k: int)
    requires k > 0 && j < |list|
    ensures var r := list[j];
            && ArmScore(list[..j + 1], id, w, k)
               == ArmScore(list[..j], id, w, k) + (if r.chunkId == id && r.rank > 0 then Share(w, k, r.rank) else 0.0)
            && BestRank(list[..j + 1], id)
               == (var best := BestRank(list[..j], id);
                   if r.chunkId == id && r.rank > 0 && (best == 0 || r.rank < best) then r.rank else best)
            && (InArm(list[..j + 1], id) <==> InArm(list[..j], id) || (r.chunkId == id && r.rank > 0))
  {
    assert list[..j + 1][..j] == list[..j];
    assert list[..j + 1][j] == list[j];
    if InArm(list[..j], id) {
      var i :| 0 <= i < j && list[..j][i].chunkId == id && list[..j][i].rank > 0;
      assert list[..j + 1][i].chunkId == id;
    }
  }

  lemma BestStep(list: seq<Ranked>, j: nat, id: int)
    requires j < |list|
    ensures var r := list[j];
            && BestSimilarity(list[..j + 1], id)
               == (var best := BestSimilarity(list[..j], id);
                   if r.chunkId == id && r.rank > 0 && r.similarity > best then r.similarity else best)
            && BestBm25(list[..j + 1], id)
               == (var best := BestBm25(list[..j], id);
                   if r.chunkId == id && r.rank > 0 && r.bm25Score > best then r.bm25Score else best)
  {
    assert list[..j + 1][..j] == list[..j];
  }

  // The accumulator after the prefixes v and b of the two arms.
  ghost predicate Accumulated(byId: map<int, FusedHit>, v: seq<Ranked>, b: seq<Ranked>, k: int, w: real)
    requires k > 0
  {
    && (forall id :: id in byId ==> byId[id] == Hit(v, b, k, w, id) && (InArm(v, id) || InArm(b, id)))
    && (forall id :: InArm(v, id) || InArm(b, id) ==> id in byId)
  }

  lemma ArmGrows(list: seq<Ranked>, id: int)
    requires list != []
    ensures InArm(list[..|list| - 1], id) ==> InArm(list, id)
  {
    var front := list[..|list| - 1];
    assert forall i :: 0 <= i < |front| ==> front[i] == list[i];
  }

  lemma {:induction false} AbsentHasNothing(list: seq<Ranked>, id: int, w: real, k: int)
    requires k > 0 && !InArm(list, id)
    ensures ArmScore(list, id, w, k) == 0.0 && BestRank(list, id) == 0 && BestSimilarity(list, id) == 0.0
      && BestBm25(list, id) == 0.0
    decreases |list|
  {
    if list != [] {
      ArmGrows(list, id);
      AbsentHasNothing(list[..|list| - 1], id, w, k);
    }
  }

  function Fetch(byId: map<int, FusedHit>, id: int): FusedHit {
    if id in byId then byId[id] else FusedHit(id, 0.0, 0.0, 0.0, 0, 0)
  }

  lemma FetchIsHit(byId: map<int, FusedHit>, v: seq<Ranked>, b: seq<Ranked>, k: int, w: real, id: int)
    requires k > 0 && Accumulated(byId, v, b, k, w)
    ensures Fetch(byId, id) == Hit(v, b, k, w, id)
  {
    if id !in byId {
      AbsentHasNothing(v, id, 1.0, k);
      AbsentHasNothing(b, id, w, k);
    }
  }

  // One row of the vector arm.
  function AddVector(h: FusedHit, k: int, r: Ranked): FusedHit
    requires k > 0 && r.rank > 0
  {
    h.(score := h.score + Share(1.0, k, r.rank),
       vectorRank := if h.vectorRank == 0 || r.rank < h.vectorRank then r.rank else h.vectorRank,
       similarity := if r.similarity > h.similarity then r.similarity else h.similarity)
  }

  function AddBm25(h: FusedHit, k: int, w: real, r: Ranked): FusedHit
    requires k > 0 && r.rank > 0
  {
    h.(score := h.score + Share(w, k, r.rank),
       bm25Rank := if h.bm25Rank == 0 || r.rank < h.bm25Rank then r.rank else h.bm25Rank,
       bm25Score := if r.bm25Score > h.bm25Score then r.bm25Score else h.bm25Score)
  }

  predicate Counts(r: Ranked, id: int) {
    r.chunkId == id && r.rank > 0
  }

  lemma VectorHitStep(v: seq<Ranked>, b: seq<Ranked>, j: nat, id: int, k: int, w: real)
    requires k > 0 && j < |v|
    ensures Hit(v[..j + 1], b, k, w, id)
         == if Counts(v[j], id) then AddVector(Hit(v[..j], b, k, w, id), k, v[j]) else Hit(v[..j], b, k, w, id)
    ensures InArm(v[..j + 1], id) <==> InArm(v[..j], id) || Counts(v[j], id)
  {
    ArmStep(v, j, id, 1.0, k);
    BestStep(v, j, id);
  }

  lemma Bm25HitStep(v: seq<Ranked>, b: seq<Ranked>, j: nat, id: int, k: int, w: real)
    requires k > 0 && j < |b|
    ensures Hit(v, b[..j + 1], k, w, id)
         == if Counts(b[j], id) then AddBm25(Hit(v, b[..j], k, w, id), k, w, b[j]) else Hit(v, b[..j], k, w, id)
    ensures InArm(b[..j + 1], id) <==> InArm(b[..j], id) || Counts(b[j], id)
  {
    ArmStep(b, j, id, w, k);
    BestStep(b, j, id);
  }

  lemma VectorRow(byId: map<int, FusedHit>, v: seq<Ranked>, b: seq<Ranked>, j: nat, k: int, w: real,
                  next: map<int, FusedHit>)
    requires k > 0 && j < |v| && Accumulated(byId, v[..j], b, k, w)
    requires next == if v[j].rank > 0 then byId[v[j].chunkId := AddVector(Fetch(byId, v[j].chunkId), k, v[j])] else byId
    ensures Accumulated(next, v[..j + 1], b, k, w)
  {
    FetchIsHit(byId, v[..j], b, k, w, v[j].chunkId);
    forall id | id in next
      ensures next[id] == Hit(v[..j + 1], b, k, w, id) && (InArm(v[..j + 1], id) || InArm(b, id))
    {
      VectorHitStep(v, b, j, id, k, w);
    }
    forall id | InArm(v[..j + 1], id) || InArm(b, id)
      ensures id in next
    {
      VectorHitStep(v, b, j, id, k, w);
    }
  }

  lemma Bm25Row(byId: map<int, FusedHit>, v: seq<Ranked>, b: seq<Ranked>, j: nat, k: int, w: real,
                next: map<int, FusedHit>)
    requires k > 0 && j < |b| && Accumulated(byId, v, b[..j], k, w)
    requires next == if b[j].rank > 0 then byId[b[j].chunkId := AddBm25(Fetch(byId, b[j].chunkId), k, w, b[j])]
      else byId
    ensures Accumulated(next, v, b[..j + 1], k, w)
  {
    FetchIsHit(byId, v, b[..j], k, w, b[j].chunkId);
    forall id | id in next
      ensures next[id] == Hit(v, b[..j + 1], k, w, id) && (InArm(v, id) || InArm(b[..j + 1], id))
    {
      Bm25HitStep(v, b, j, id, k, w);
    }
    forall id | InArm(v, id) || InArm(b[..j + 1], id)
      ensures id in next
    {
      Bm25HitStep(v, b, j, id, k, w);
    }
  }

  method Accumulate(v: seq<Ranked>, b: seq<Ranked>, k: int, w: real) returns (byId: map<int, FusedHit>)
    requires k > 0
    ensures Accumulated(byId, v, b, k, w)
  {
    byId := map[];
    for j := 0 to |v|
      invariant Accumulated(byId, v[..j], [], k, w)
    {
      var r := v[j];
      var next := byId;
      if r.rank > 0 { next := byId[r.chunkId := AddVector(Fetch(byId, r.chunkId), k, r)]; }
      VectorRow(byId, v, [], j, k, w, next);
      byId := next;
    }
    assert v[..|v|] == v && b[..0] == [];
    for j := 0 to |b|
      invariant Accumulated(byId, v, b[..j], k, w)
    {
      var r := b[j];
      var next := byId;
      if r.rank > 0 { next := byId[r.chunkId := AddBm25(Fetch(byId, r.chunkId), k, w, r)]; }
      Bm25Row(byId, v, b, j, k, w, next);
      byId := next;
    }
    assert b[..|b|] == b;
  }

  // Sorting: the place of a hit among sorted ones.
  method Insert(sorted: seq<FusedHit>, h: FusedHit) returns (out: seq<FusedHit>)
    requires Ordered(sorted) && forall i :: 0 <= i < |sorted| ==> sorted[i].chunkId != h.chunkId
    ensures Ordered(out) && |out| == |sorted| + 1 && forall x :: x in out <==> x in sorted || x == h
  {
    var p := 0;
    while p < |sorted| && Before(sorted[p], h)
      invariant p <= |sorted| && forall i :: 0 <= i < p ==> Before(sorted[i], h)
    {
      p := p + 1;
    }
    out := sorted[..p] + [h] + sorted[p..];
    InsertAt(sorted, p, h);
  }

  lemma InsertAt(sorted: seq<FusedHit>, p: nat, h: FusedHit)
    requires p <= |sorted| && Ordered(sorted)
    requires (forall i :: 0 <= i < p ==> Before(sorted[i], h)) && (p < |sorted| ==> Before(h, sorted[p]))
    ensures var out := sorted[..p] + [h] + sorted[p..];
            Ordered(out) && forall x :: x in out <==> x in sorted || x == h
  {
    var out := sorted[..p] + [h] + sorted[p..];
    assert sorted == sorted[..p] + sorted[p..];
    forall i | p <= i < |sorted|
      ensures Before(h, sorted[i])
    {
      if i > p { assert Before(sorted[p], sorted[i]); }
    }
    forall i, j | 0 <= i < j < |out|
      ensures Before(out[i], out[j])
    {
      assert out[i] == if i < p then sorted[i] else if i == p then h else sorted[i - 1];
      assert out[j] == if j < p then sorted[j] else if j == p then h else sorted[j - 1];
    }
  }

  // The map's values, in whatever order they come, then sorted.
  method Sorted(byId: map<int, FusedHit>) returns (out: seq<FusedHit>)
    requires forall id :: id in byId ==> byId[id].chunkId == id
    ensures Ordered(out) && forall x :: x in out <==> x.chunkId in byId && byId[x.chunkId] == x
  {
    out := [];
    var left := byId.Keys;
    while left != {}
      invariant left <= byId.Keys && Ordered(out)
      invariant forall x :: x in out <==> x.chunkId in byId.Keys - left && byId[x.chunkId] == x
      decreases |left|
    {
      ghost var some := Member(left);
      var id :| id in left;
      forall i | 0 <= i < |out| ensures out[i].chunkId != id { assert out[i] in out; }
      out := Insert(out, byId[id]);
      left := left - {id};
    }
  }

  // fuseRRF
  method FuseRRF(v: seq<Ranked>, b: seq<Ranked>, rrfK: int, lexWeight: real) returns (out: seq<FusedHit>)
    ensures IsFusion(v, b, if rrfK <= 0 then 20 else rrfK, if lexWeight <= 0.0 then 0.5 else lexWeight, out)
  {
    var k, w := rrfK, lexWeight;
    if k <= 0 { k := DEFAULT_RRF_K; }
    if w <= 0.0 { w := DEFAULT_LEX_WEIGHT; }
    var byId := Accumulate(v, b, k, w);
    out := Sorted(byId);
    forall i | 0 <= i < |out|
      ensures out[i] == Hit(v, b, k, w, out[i].chunkId) && (InArm(v, out[i].chunkId) || InArm(b, out[i].chunkId))
    {
      assert out[i] in out;
    }
  }
}
