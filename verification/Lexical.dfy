// The BM25 encoder: training, document and query vectors under the hashing trick,
// and what their inner product means. Weights are reals; the logarithm and the hash
// are arguments.
module Lexical {
  import opened Sums

  const DIM: int := 0x10_0000
  const K1: real := 1.2
  const B: real := 0.75

  type Vector = map<int, real>

  // FNV-1a of a term, a 32-bit number.
  type Hash = string -> nat

  ghost predicate Logarithm(log: real -> real) {
    forall x :: x > 1.0 ==> log(x) > 0.0
  }

  function TermId(hash: Hash, w: string): (id: int)
    ensures 1 <= id <= DIM
  {
    hash(w) % DIM + 1
  }

  datatype Encoder = Encoder(idf: map<string, real>, avgdl: real)

  // --- Counting ---

  function Distinct(toks: seq<string>): set<string> {
    set w | w in toks
  }

  function Occurrences(toks: seq<string>, w: string): nat {
    if toks == [] then 0 else (if toks[|toks| - 1] == w then 1 else 0) + Occurrences(toks[..|toks| - 1], w)
  }

  // How many documents have the term.
  function DocFreq(docs: seq<seq<string>>, w: string): nat {
    if docs == [] then 0 else (if w in docs[|docs| - 1] then 1 else 0) + DocFreq(docs[..|docs| - 1], w)
  }

  function Total(docs: seq<seq<string>>): nat {
    if docs == [] then 0 else Total(docs[..|docs| - 1]) + |docs[|docs| - 1]|
  }

  function Vocabulary(docs: seq<seq<string>>): set<string> {
    set k, w | 0 <= k < |docs| && w in docs[k] :: w
  }

  lemma {:induction false} OccursIffPresent(toks: seq<string>, w: string)
    ensures Occurrences(toks, w) >= 1 <==> w in toks
    decreases |toks|
  {
    if toks != [] {
      assert toks == toks[..|toks| - 1] + [toks[|toks| - 1]];
      OccursIffPresent(toks[..|toks| - 1], w);
    }
  }

  lemma {:induction false} DocFreqBounds(docs: seq<seq<string>>, w: string)
    ensures DocFreq(docs, w) <= |docs|
    ensures DocFreq(docs, w) >= 1 <==> exists k :: 0 <= k < |docs| && w in docs[k]
    decreases |docs|
  {
    if docs != [] {
      DocFreqBounds(docs[..|docs| - 1], w);
      assert forall k :: 0 <= k < |docs| - 1 ==> docs[..|docs| - 1][k] == docs[k];
    }
  }

  lemma {:induction false} TotalIsPositive(docs: seq<seq<string>>, k: nat)
    requires k < |docs| && docs[k] != []
    ensures Total(docs) > 0
    decreases |docs|
  {
    if k < |docs| - 1 { TotalIsPositive(docs[..|docs| - 1], k); }
  }

  // --- Training ---

  function Idf(log: real -> real, n: nat, d: nat): real {
    log(1.0 + (n as real - d as real + 0.5) / (d as real + 0.5))
  }

  ghost predicate Trained(log: real -> real, docs: seq<seq<string>>, e: Encoder) {
    && e.idf.Keys == Vocabulary(docs)
    && (forall w :: w in e.idf ==> e.idf[w] == Idf(log, |docs|, DocFreq(docs, w)))
    && e.avgdl == if |docs| > 0 && Total(docs) > 0 then Total(docs) as real / |docs| as real else 1.0
  }

  lemma DivPositive(a: real, b: real)
    requires a > 0.0 && b > 0.0
    ensures a / b > 0.0
  {
  }

  lemma IdfIsPositive(log: real -> real, n: nat, d: nat)
    requires Logarithm(log) && d <= n
    ensures Idf(log, n, d) > 0.0
  {
    DivPositive(n as real - d as real + 0.5, d as real + 0.5);
  }

  lemma AverageIsPositive(log: real -> real, docs: seq<seq<string>>, e: Encoder)
    requires Trained(log, docs, e)
    ensures e.avgdl > 0.0
  {
    if |docs| > 0 && Total(docs) > 0 { DivPositive(Total(docs) as real, |docs| as real); }
  }

  // Every term of the corpus has a positive idf, so none is skipped when the corpus
  // itself is encoded; and lengths are divided by something positive.
  lemma {:induction false} TrainingCoversTheCorpus(log: real -> real, docs: seq<seq<string>>, e: Encoder, k: nat,
                                                   w: string)
    requires Logarithm(log) && Trained(log, docs, e) && k < |docs| && w in docs[k]
    ensures 1 <= DocFreq(docs, w) <= |docs|
    ensures w in e.idf && e.idf[w] > 0.0 && e.avgdl > 0.0
  {
    DocFreqBounds(docs, w);
    IdfIsPositive(log, |docs|, DocFreq(docs, w));
    AverageIsPositive(log, docs, e);
    assert w in Vocabulary(docs);
  }

  // --- Document and query vectors ---

  // Terms that get a weight.
  function Indexed(e: Encoder, toks: seq<string>): set<string> {
    set w | w in toks && w in e.idf && e.idf[w] > 0.0
  }

  function TermWeight(idf: real, f: nat, dl: nat, avgdl: real): real
    requires avgdl > 0.0
  {
    var den := f as real + K1 * (1.0 - B + B * dl as real / avgdl);
    if den == 0.0 then 0.0 else idf * (f as real * (K1 + 1.0)) / den
  }

  ghost function Weight(e: Encoder, toks: seq<string>): string -> real {
    (w: string) =>
      if w in e.idf && e.avgdl > 0.0 then TermWeight(e.idf[w], Occurrences(toks, w), |toks|, e.avgdl) else 0.0
  }

  ghost function Ids(hash: Hash, terms: set<string>): set<int> {
    set w | w in terms :: TermId(hash, w)
  }

  ghost function Key(hash: Hash): string -> int {
    (w: string) => TermId(hash, w)
  }

  // One entry per queried dimension, holding the weights of all terms that share it.
  ghost predicate IsDocVector(hash: Hash, e: Encoder, toks: seq<string>, v: Vector) {
    && v.Keys == Ids(hash, Indexed(e, toks))
    && forall i :: i in v ==> v[i] == Sum(Weight(e, toks), Fiber(Key(hash), Indexed(e, toks), i))
  }

  function QueryTerms(stop: set<string>, toks: seq<string>): set<string> {
    set w | w in toks && w !in stop
  }

  ghost predicate IsQueryVector(hash: Hash, terms: set<string>, v: Vector) {
    v.Keys == Ids(hash, terms) && forall i :: i in v ==> v[i] == 1.0
  }

  lemma LengthFactor(dl: nat, avgdl: real)
    requires avgdl > 0.0
    ensures K1 * (1.0 - B + B * dl as real / avgdl) > 0.0
  {
    assert B * dl as real >= 0.0;
    assert B * dl as real / avgdl >= 0.0;
  }

  lemma WeightIsPositive(e: Encoder, toks: seq<string>, w: string)
    requires e.avgdl > 0.0 && w in Indexed(e, toks)
    ensures Weight(e, toks)(w) > 0.0
  {
    OccursIffPresent(toks, w);
    LengthFactor(|toks|, e.avgdl);
    var f := Occurrences(toks, w) as real;
    var den := f + K1 * (1.0 - B + B * |toks| as real / e.avgdl);
    assert e.idf[w] * (f * (K1 + 1.0)) > 0.0;
    DivPositive(e.idf[w] * (f * (K1 + 1.0)), den);
  }

  // --- The inner product ---

  ghost function Product(q: Vector, d: Vector): int -> real {
    (i: int) => if i in q && i in d then q[i] * d[i] else 0.0
  }

  ghost function Inner(q: Vector, d: Vector): real {
    Sum(Product(q, d), q.Keys * d.Keys)
  }

  // Document terms whose dimension the query asks for.
  ghost function Matched(hash: Hash, e: Encoder, toks: seq<string>, terms: set<string>): set<string> {
    set w | w in Indexed(e, toks) && TermId(hash, w) in Ids(hash, terms)
  }

  // The BM25 score: the weights of the query's own terms.
  ghost function Bm25(e: Encoder, toks: seq<string>, terms: set<string>): real {
    Sum(Weight(e, toks), Indexed(e, toks) * terms)
  }

  lemma MatchedByDimension(hash: Hash, e: Encoder, toks: seq<string>, terms: set<string>)
    ensures Within(Key(hash), Indexed(e, toks), Ids(hash, terms) * Ids(hash, Indexed(e, toks)))
      == Matched(hash, e, toks, terms)
  {
    var s := Indexed(e, toks);
    forall w | w in s ensures Key(hash)(w) in Ids(hash, s) {}
  }

  lemma ProductIsBucket(hash: Hash, e: Encoder, toks: seq<string>, terms: set<string>, q: Vector, d: Vector, i: int)
    requires IsQueryVector(hash, terms, q) && IsDocVector(hash, e, toks, d) && i in q && i in d
    ensures Product(q, d)(i) == Buckets(Weight(e, toks), Key(hash), Indexed(e, toks))(i)
  {
  }

  lemma InnerByDimension(hash: Hash, e: Encoder, toks: seq<string>, terms: set<string>, q: Vector, d: Vector)
    requires IsQueryVector(hash, terms, q) && IsDocVector(hash, e, toks, d)
    ensures Inner(q, d) == Sum(Buckets(Weight(e, toks), Key(hash), Indexed(e, toks)), q.Keys * d.Keys)
  {
    forall i | i in q.Keys * d.Keys
      ensures Product(q, d)(i) == Buckets(Weight(e, toks), Key(hash), Indexed(e, toks))(i)
    {
      ProductIsBucket(hash, e, toks, terms, q, d, i);
    }
    SumOfEqual(Product(q, d), Buckets(Weight(e, toks), Key(hash), Indexed(e, toks)), q.Keys * d.Keys);
  }

  lemma {:induction false} InnerIsSumOfMatched(hash: Hash, e: Encoder, toks: seq<string>, terms: set<string>, q: Vector,
                                               d: Vector)
    requires IsQueryVector(hash, terms, q) && IsDocVector(hash, e, toks, d)
    ensures Inner(q, d) == Sum(Weight(e, toks), Matched(hash, e, toks, terms))
  {
    InnerByDimension(hash, e, toks, terms, q, d);
    ByBucket(Weight(e, toks), Key(hash), Indexed(e, toks), q.Keys * d.Keys);
    MatchedByDimension(hash, e, toks, terms);
  }

  // A document term that is no query term but shares the dimension of one.
  ghost predicate Collides(hash: Hash, e: Encoder, toks: seq<string>, terms: set<string>) {
    exists w :: w in Indexed(e, toks) && w !in terms && TermId(hash, w) in Ids(hash, terms)
  }

  // Hashing only ever adds to the BM25 score, and adds nothing exactly when no
  // document term collides with a query term.
  lemma {:induction false} InnerAgainstBm25(hash: Hash, e: Encoder, toks: seq<string>, terms: set<string>, q: Vector,
                                            d: Vector)
    requires e.avgdl > 0.0 && IsQueryVector(hash, terms, q) && IsDocVector(hash, e, toks, d)
    ensures Inner(q, d) >= Bm25(e, toks, terms)
    ensures Inner(q, d) == Bm25(e, toks, terms) <==> !Collides(hash, e, toks, terms)
  {
    InnerIsSumOfMatched(hash, e, toks, terms, q, d);
    var m := Matched(hash, e, toks, terms);
    var own := Indexed(e, toks) * terms;
    forall w | w in m ensures Weight(e, toks)(w) > 0.0 { WeightIsPositive(e, toks, w); }
    Larger(Weight(e, toks), own, m);
    assert own == m <==> forall w :: w in m ==> w in terms;
  }

  // A score is positive exactly when some queried dimension is present, which is the
  // test the sparse arm filters on.
  lemma {:induction false} PositiveIffMatched(hash: Hash, e: Encoder, toks: seq<string>, terms: set<string>, q: Vector,
                                              d: Vector)
    requires e.avgdl > 0.0 && IsQueryVector(hash, terms, q) && IsDocVector(hash, e, toks, d)
    ensures Inner(q, d) > 0.0 <==> exists i :: i in q && i in d
    ensures Inner(q, d) >= 0.0
  {
    InnerIsSumOfMatched(hash, e, toks, terms, q, d);
    var m := Matched(hash, e, toks, terms);
    forall w | w in m ensures Weight(e, toks)(w) > 0.0 { WeightIsPositive(e, toks, w); }
    Larger(Weight(e, toks), {}, m);
    if w :| w in m {
      assert TermId(hash, w) in q && TermId(hash, w) in d;
    }
    if i :| i in q && i in d {
      var w :| w in Indexed(e, toks) && TermId(hash, w) == i;
      assert w in m;
    }
  }
}
