// What the encoder's numbers are, written out: term frequencies as multiplicities,
// document frequencies as set sizes, dimensions as residues of the hash.
module Bm25Laws {
  import opened Lexical
  import opened Reals
  import opened Sums

  // --- Counting ---

  lemma {:induction false} OccurrencesAreMultiplicity(toks: seq<string>, w: string)
    ensures Occurrences(toks, w) == multiset(toks)[w]
    decreases |toks|
  {
    if toks != [] {
      var n := |toks| - 1;
      assert toks == toks[..n] + [toks[n]];
      OccurrencesAreMultiplicity(toks[..n], w);
    }
  }

  function DocsWith(docs: seq<seq<string>>, w: string): set<int> {
    set k | 0 <= k < |docs| && w in docs[k]
  }

  lemma {:induction false} DocFreqIsSize(docs: seq<seq<string>>, w: string)
    ensures DocFreq(docs, w) == |DocsWith(docs, w)|
    decreases |docs|
  {
    if docs == [] {
      assert DocsWith(docs, w) == {};
    } else {
      var n := |docs| - 1;
      DocFreqIsSize(docs[..n], w);
      assert DocsWith(docs, w) == DocsWith(docs[..n], w) + if w in docs[n] then {n} else {};
    }
  }

  // All tokens of the corpus, one document after the other.
  function Corpus(docs: seq<seq<string>>): seq<string> {
    if docs == [] then [] else docs[0] + Corpus(docs[1..])
  }

  lemma {:induction false} CorpusGrows(docs: seq<seq<string>>, d: seq<string>)
    ensures |Corpus(docs + [d])| == |Corpus(docs)| + |d|
    decreases |docs|
  {
    if docs == [] {
      assert docs + [d] == [d];
      assert Corpus([d]) == d + Corpus([]);
    } else {
      assert (docs + [d])[1..] == docs[1..] + [d];
      CorpusGrows(docs[1..], d);
    }
  }

  lemma {:induction false} TotalIsCorpusLength(docs: seq<seq<string>>)
    ensures Total(docs) == |Corpus(docs)|
    decreases |docs|
  {
    if docs != [] {
      var n := |docs| - 1;
      TotalIsCorpusLength(docs[..n]);
      assert docs == docs[..n] + [docs[n]];
      CorpusGrows(docs[..n], docs[n]);
    }
  }

  // --- Training ---

  // An encoder trained on the documents knows exactly their terms, each with the
  // logarithm of the odds against it, and the mean document length.
  lemma {:induction false} TrainedNumbers(log: real -> real, docs: seq<seq<string>>, e: Encoder, w: string)
    requires Trained(log, docs, e)
    ensures w in e.idf <==> DocsWith(docs, w) != {}
    ensures w in e.idf ==>
              var n, d := |docs| as real, |DocsWith(docs, w)| as real;
              e.idf[w] == log(1.0 + (n - d + 0.5) / (d + 0.5))
    ensures Corpus(docs) != [] ==> docs != [] && e.avgdl * |docs| as real == |Corpus(docs)| as real
    ensures Corpus(docs) == [] ==> e.avgdl == 1.0
  {
    KnownTerms(docs, w);
    DocFreqIsSize(docs, w);
    TotalIsCorpusLength(docs);
    hide DocFreq, Vocabulary, DocsWith, Corpus, Total;
    if Corpus(docs) != [] {
      NoDocsNoTokens(docs);
      QuotientTimes(Total(docs) as real, |docs| as real);
    }
  }

  lemma NoDocsNoTokens(docs: seq<seq<string>>)
    requires Corpus(docs) != []
    ensures docs != []
  {
  }

  lemma KnownTerms(docs: seq<seq<string>>, w: string)
    ensures w in Vocabulary(docs) <==> DocsWith(docs, w) != {}
  {
    if w in Vocabulary(docs) {
      var k :| 0 <= k < |docs| && w in docs[k];
      assert k in DocsWith(docs, w);
    }
    forall k | k in DocsWith(docs, w) ensures w in Vocabulary(docs) {}
  }

  ghost predicate Increasing(log: real -> real) {
    forall x, y :: 0.0 < x < y ==> log(x) < log(y)
  }

  lemma OddsFall(n: real, d: real, more: real)
    requires 0.0 <= d < more <= n
    ensures 1.0 < 1.0 + (n - more + 0.5) / (more + 0.5) < 1.0 + (n - d + 0.5) / (d + 0.5)
  {
    Larger2(n - more + 0.5, more + 0.5, n - d + 0.5, d + 0.5);
  }

  // A fraction with the larger top and the smaller bottom is larger.
  lemma Larger2(a: real, b: real, c: real, d: real)
    requires 0.0 < a < c && 0.0 < d < b
    ensures 0.0 < a / b < c / d
  {
    assert a / b < c / b by { Quotients(a, c, b); }
    assert c / b < c / d by { Divisors(c, d, b); }
    DivPositive(a, b);
  }

  lemma Quotients(a: real, c: real, b: real)
    requires a < c && b > 0.0
    ensures a / b < c / b
  {
    DivPositive(c - a, b);
    assert (c - a) / b == c / b - a / b;
  }

  lemma Divisors(c: real, d: real, b: real)
    requires c > 0.0 && 0.0 < d < b
    ensures c / b < c / d
  {
    var q := c / d;
    DivPositive(c, d);
    QuotientTimes(c, d);
    assert q * (b - d) > 0.0;
    assert q * b > c;
    QuotientTimes(c, b);
    if c / b >= q {
      assert c / b * b >= q * b;
    }
  }

  // A term that fewer documents hold has the higher idf.
  lemma {:induction false} RarerTermsCountMore(log: real -> real, docs: seq<seq<string>>, e: Encoder, rare: string,
                                               common: string)
    requires Trained(log, docs, e) && Increasing(log) && rare in e.idf && common in e.idf
    requires |DocsWith(docs, rare)| < |DocsWith(docs, common)|
    ensures e.idf[rare] > e.idf[common]
  {
    TrainedNumbers(log, docs, e, rare);
    TrainedNumbers(log, docs, e, common);
    DocFreqIsSize(docs, common);
    DocFreqBounds(docs, common);
    OddsFall(|docs| as real, |DocsWith(docs, rare)| as real, |DocsWith(docs, common)| as real);
  }

  // --- Dimensions ---

  // Both terms land in one dimension: their hashes agree modulo 2^20.
  predicate Share(hash: Hash, w: string, x: string) {
    hash(w) % 0x10_0000 == hash(x) % 0x10_0000
  }

  lemma DimensionsAreResidues(hash: Hash, w: string, x: string)
    ensures TermId(hash, w) == hash(w) % 0x10_0000 + 1
    ensures TermId(hash, w) == TermId(hash, x) <==> Share(hash, w, x)
  {
  }

  // The terms of a document that are encoded.
  function Encoded(e: Encoder, toks: seq<string>): set<string> {
    set w | w in toks && w in e.idf && e.idf[w] > 0.0
  }

  // A query's vector is 1 in the dimensions of its words, but for the stopwords.
  lemma {:induction false} QueryVectorIsPresence(hash: Hash, stop: set<string>, toks: seq<string>, q: Vector, i: int)
    requires IsQueryVector(hash, QueryTerms(stop, toks), q)
    ensures i in q <==> exists w :: w in toks && w !in stop && i == hash(w) % 0x10_0000 + 1
    ensures i in q ==> q[i] == 1.0
  {
    if i in q {
      var w :| w in QueryTerms(stop, toks) && i == TermId(hash, w);
      assert w in toks && w !in stop && i == hash(w) % 0x10_0000 + 1;
    }
    if w :| w in toks && w !in stop && i == hash(w) % 0x10_0000 + 1 {
      assert w in QueryTerms(stop, toks) && TermId(hash, w) == i;
    }
  }

  // --- Weights ---

  // The BM25 weight of a term that occurs f times among n tokens.
  function Bm25Weight(idf: real, f: nat, n: nat, avgdl: real): real
    requires avgdl > 0.0
  {
    var saturation := f as real + 1.2 * (0.25 + 0.75 * n as real / avgdl);
    if saturation > 0.0 then idf * (f as real * 2.2) / saturation else 0.0
  }

  function Bm25Of(e: Encoder, toks: seq<string>): string -> real {
    (w: string) =>
      if w in e.idf && e.avgdl > 0.0 then Bm25Weight(e.idf[w], multiset(toks)[w], |toks|, e.avgdl) else 0.0
  }

  lemma SaturationPositive(f: nat, n: nat, avgdl: real)
    requires avgdl > 0.0
    ensures f as real + 1.2 * (0.25 + 0.75 * n as real / avgdl) > 0.0
  {
    LengthFactor(n, avgdl);
  }

  lemma TermWeightIsBm25(idf: real, f: nat, n: nat, avgdl: real)
    requires avgdl > 0.0
    ensures TermWeight(idf, f, n, avgdl) == Bm25Weight(idf, f, n, avgdl)
  {
    SaturationPositive(f, n, avgdl);
  }

  lemma WeightIsBm25(e: Encoder, toks: seq<string>, w: string)
    ensures Weight(e, toks)(w) == Bm25Of(e, toks)(w)
  {
    hide TermWeight, Bm25Weight;
    OccurrencesAreMultiplicity(toks, w);
    if w in e.idf && e.avgdl > 0.0 { TermWeightIsBm25(e.idf[w], multiset(toks)[w], |toks|, e.avgdl); }
  }

  // The inner product of a query's and a document's vectors is the sum of the BM25
  // weights of the document's encoded terms that share a dimension with a query word.
  lemma {:induction false} InnerIsLiteralBm25(hash: Hash, e: Encoder, toks: seq<string>, stop: set<string>,
                                              words: seq<string>, q: Vector, d: Vector)
    requires IsQueryVector(hash, QueryTerms(stop, words), q) && IsDocVector(hash, e, toks, d)
    ensures Inner(q, d)
         == Sum(Bm25Of(e, toks),
                set w | w in Encoded(e, toks) && exists t :: t in words && t !in stop && Share(hash, t, w))
  {
    var terms := QueryTerms(stop, words);
    InnerIsSumOfMatched(hash, e, toks, terms, q, d);
    var shared := set w | w in Encoded(e, toks) && exists t :: t in words && t !in stop && Share(hash, t, w);
    forall w
      ensures w in Matched(hash, e, toks, terms) <==> w in shared
    {
      MatchedIsShared(hash, e, toks, stop, words, w);
    }
    assert Matched(hash, e, toks, terms) == shared;
    forall w | w in shared ensures Weight(e, toks)(w) == Bm25Of(e, toks)(w) { WeightIsBm25(e, toks, w); }
    SumOfEqual(Weight(e, toks), Bm25Of(e, toks), shared);
  }

  lemma MatchedIsShared(hash: Hash, e: Encoder, toks: seq<string>, stop: set<string>, words: seq<string>, w: string)
    ensures w in Matched(hash, e, toks, QueryTerms(stop, words))
       <==> w in Encoded(e, toks) && exists t :: t in words && t !in stop && Share(hash, t, w)
  {
    if w in Matched(hash, e, toks, QueryTerms(stop, words)) {
      var t :| t in QueryTerms(stop, words) && TermId(hash, t) == TermId(hash, w);
      assert t in words && t !in stop && Share(hash, t, w);
    }
    if w in Encoded(e, toks) && exists t :: t in words && t !in stop && Share(hash, t, w) {
      var t :| t in words && t !in stop && Share(hash, t, w);
      assert t in QueryTerms(stop, words) && TermId(hash, t) == TermId(hash, w);
    }
  }

  // The dimension of w, which no other encoded term of the document shares.
  ghost predicate HeldAlone(hash: Hash, e: Encoder, toks: seq<string>, w: string) {
    w in Encoded(e, toks) && forall x :: x in Encoded(e, toks) && Share(hash, x, w) ==> x == w
  }

  // v (f + c) = a f
  predicate Balanced(v: real, f: real, c: real, a: real) {
    v * (f + c) == a * f
  }

  // What the document's length adds to the saturation.
  function LengthPart(n: nat, avgdl: real): real
    requires avgdl > 0.0
  {
    1.2 * (0.25 + 0.75 * n as real / avgdl)
  }

  lemma LengthParts(n: nat, m: nat, avgdl: real)
    requires avgdl > 0.0
    ensures LengthPart(n, avgdl) > 0.0
    ensures n < m ==> LengthPart(n, avgdl) < LengthPart(m, avgdl)
    ensures n as real == avgdl ==> LengthPart(n, avgdl) == 1.2
  {
    LengthFactor(n, avgdl);
    if n < m { Quotients(0.75 * n as real, 0.75 * m as real, avgdl); }
    if n as real == avgdl { PartOfItself(0.75, avgdl); }
  }

  lemma PartOfItself(a: real, x: real)
    requires x > 0.0
    ensures a * x / x == a
  {
    QuotientTimes(a * x, x);
    SameFactor(a * x / x, a, x);
  }

  lemma Bm25WeightBalances(idf: real, f: nat, n: nat, avgdl: real)
    requires avgdl > 0.0
    ensures Balanced(Bm25Weight(idf, f, n, avgdl), f as real, LengthPart(n, avgdl), idf * 2.2)
  {
    SaturationPositive(f, n, avgdl);
    QuotientTimes(idf * (f as real * 2.2), f as real + LengthPart(n, avgdl));
  }

  lemma AloneIsWeight(hash: Hash, e: Encoder, toks: seq<string>, d: Vector, w: string)
    requires e.avgdl > 0.0 && IsDocVector(hash, e, toks, d) && HeldAlone(hash, e, toks, w)
    ensures var i := hash(w) % 0x10_0000 + 1;
            i in d && d[i] == Bm25Weight(e.idf[w], multiset(toks)[w], |toks|, e.avgdl)
  {
    hide TermWeight, Bm25Weight;
    var i := hash(w) % 0x10_0000 + 1;
    assert w in Indexed(e, toks) && TermId(hash, w) == i;
    var fiber := Fiber(Key(hash), Indexed(e, toks), i);
    forall x | x in fiber ensures x == w { assert Share(hash, x, w); }
    assert fiber == {w};
    TakeOut(Weight(e, toks), fiber, w);
    WeightIsBm25(e, toks, w);
  }

  lemma AloneBalances(hash: Hash, e: Encoder, toks: seq<string>, d: Vector, w: string)
    requires e.avgdl > 0.0 && IsDocVector(hash, e, toks, d) && HeldAlone(hash, e, toks, w)
    ensures var i, f := hash(w) % 0x10_0000 + 1, multiset(toks)[w];
            i in d && f >= 1 && w in e.idf && e.idf[w] * 2.2 > 0.0
            && Balanced(d[i], f as real, LengthPart(|toks|, e.avgdl), e.idf[w] * 2.2)
  {
    hide IsDocVector, Bm25Weight, LengthPart, Balanced;
    AloneIsWeight(hash, e, toks, d, w);
    Bm25WeightBalances(e.idf[w], multiset(toks)[w], |toks|, e.avgdl);
  }

  // A dimension held by one term carries that term's BM25 weight.
  lemma {:induction false} AloneCarriesWeight(hash: Hash, e: Encoder, toks: seq<string>, d: Vector, w: string)
    requires e.avgdl > 0.0 && IsDocVector(hash, e, toks, d) && HeldAlone(hash, e, toks, w)
    ensures var i, f, n := hash(w) % 0x10_0000 + 1, multiset(toks)[w] as real, |toks| as real;
            i in d && d[i] * (f + 1.2 * (0.25 + 0.75 * n / e.avgdl)) == e.idf[w] * 2.2 * f
  {
    hide IsDocVector;
    AloneBalances(hash, e, toks, d, w);
  }

  // v grows with f, falls in c, and stays below a.
  lemma Saturates(v: real, f: real, c: real, a: real)
    requires f > 0.0 && c > 0.0 && a > 0.0 && Balanced(v, f, c, a)
    ensures 0.0 < v < a
  {
    assert (a - v) * (f + c) == a * c;
    assert a * c > 0.0 && a * f > 0.0;
    PositiveFactor(a - v, f + c);
    PositiveFactor(v, f + c);
  }

  lemma GrowsWithFrequency(v: real, f: real, u: real, g: real, c: real, a: real)
    requires 0.0 < f < g && c > 0.0 && a > 0.0 && Balanced(v, f, c, a) && Balanced(u, g, c, a)
    ensures v < u
  {
    Saturates(v, f, c, a);
    assert (u - v) * (g + c) == (a - v) * (g - f);
    assert (a - v) * (g - f) > 0.0;
    PositiveFactor(u - v, g + c);
  }

  lemma FallsWithLength(v: real, c: real, u: real, b: real, f: real, a: real)
    requires f > 0.0 && 0.0 < c < b && a > 0.0 && Balanced(v, f, c, a) && Balanced(u, f, b, a)
    ensures u < v
  {
    Saturates(v, f, c, a);
    assert (v - u) * (f + b) == v * (b - c);
    assert v * (b - c) > 0.0;
    PositiveFactor(v - u, f + b);
  }

  // v (1 + 1.2) = 2.2 a
  lemma AverageOnce(v: real, idf: real)
    requires Balanced(v, 1.0, 1.2, idf * 2.2)
    ensures v == idf
  {
  }

  // More occurrences among as many tokens weigh strictly more.
  lemma {:induction false} WeightGrowsWithOccurrences(hash: Hash, e: Encoder, w: string, few: seq<string>, d: Vector,
                                                      many: seq<string>, c: Vector)
    requires e.avgdl > 0.0 && IsDocVector(hash, e, few, d) && IsDocVector(hash, e, many, c)
    requires HeldAlone(hash, e, few, w) && HeldAlone(hash, e, many, w)
    requires |few| == |many| && multiset(few)[w] < multiset(many)[w]
    ensures var i := hash(w) % 0x10_0000 + 1; i in d && i in c && d[i] < c[i]
  {
    hide IsDocVector, HeldAlone, LengthPart, Balanced;
    AloneBalances(hash, e, few, d, w);
    AloneBalances(hash, e, many, c, w);
    LengthParts(|few|, |few|, e.avgdl);
    var i := hash(w) % 0x10_0000 + 1;
    GrowsWithFrequency(d[i], multiset(few)[w] as real, c[i], multiset(many)[w] as real, LengthPart(|few|, e.avgdl),
                       e.idf[w] * 2.2);
  }

  // As many occurrences in a longer document weigh strictly less.
  lemma {:induction false} WeightFallsWithLength(hash: Hash, e: Encoder, w: string, short: seq<string>, d: Vector,
                                                 long: seq<string>, c: Vector)
    requires e.avgdl > 0.0 && IsDocVector(hash, e, short, d) && IsDocVector(hash, e, long, c)
    requires HeldAlone(hash, e, short, w) && HeldAlone(hash, e, long, w)
    requires |short| < |long| && multiset(short)[w] == multiset(long)[w]
    ensures var i := hash(w) % 0x10_0000 + 1; i in d && i in c && c[i] < d[i]
  {
    hide IsDocVector, HeldAlone, LengthPart, Balanced;
    AloneBalances(hash, e, short, d, w);
    AloneBalances(hash, e, long, c, w);
    LengthParts(|short|, |long|, e.avgdl);
    var i := hash(w) % 0x10_0000 + 1;
    FallsWithLength(d[i], LengthPart(|short|, e.avgdl), c[i], LengthPart(|long|, e.avgdl), multiset(short)[w] as real,
                    e.idf[w] * 2.2);
  }

  // A weight stays below 2.2 times the idf, and is the idf for one occurrence in a
  // document of average length.
  lemma {:induction false} WeightAgainstIdf(hash: Hash, e: Encoder, w: string, toks: seq<string>, d: Vector)
    requires e.avgdl > 0.0 && IsDocVector(hash, e, toks, d) && HeldAlone(hash, e, toks, w)
    ensures var i := hash(w) % 0x10_0000 + 1;
            && i in d && 0.0 < d[i] < e.idf[w] * 2.2
            && (multiset(toks)[w] == 1 && |toks| as real == e.avgdl ==> d[i] == e.idf[w])
  {
    hide IsDocVector, HeldAlone, LengthPart, Balanced;
    AloneBalances(hash, e, toks, d, w);
    LengthParts(|toks|, |toks|, e.avgdl);
    var i := hash(w) % 0x10_0000 + 1;
    Saturates(d[i], multiset(toks)[w] as real, LengthPart(|toks|, e.avgdl), e.idf[w] * 2.2);
    if multiset(toks)[w] == 1 && |toks| as real == e.avgdl { AverageOnce(d[i], e.idf[w]); }
  }
}
