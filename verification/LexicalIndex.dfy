// The encoder's loops, and indexing a corpus with the statistics of that corpus.
module LexicalIndex {
  import opened Sums
  import opened Tokens
  import opened Lexical

  function Docs(ch: Chars, texts: seq<string>): seq<seq<string>> {
    seq(|texts|, k requires 0 <= k < |texts| => TokensOf(ch, texts[k]))
  }

  function Count(df: map<string, nat>, w: string): nat {
    if w in df then df[w] else 0
  }

  ghost predicate Counts(df: map<string, nat>, docs: seq<seq<string>>) {
    (forall w :: Count(df, w) == DocFreq(docs, w)) && (forall w :: w in df ==> df[w] >= 1)
  }

  // --- Train ---

  // One document adds one to each of its distinct terms.
  method CountDocument(df0: map<string, nat>, toks: seq<string>) returns (df: map<string, nat>)
    requires forall w :: w in df0 ==> df0[w] >= 1
    ensures forall w :: Count(df, w) == Count(df0, w) + (if w in toks then 1 else 0)
    ensures forall w :: w in df ==> df[w] >= 1
  {
    df := df0;
    var seen: set<string> := {};
    for j := 0 to |toks|
      invariant forall w :: w in seen <==> w in toks[..j]
      invariant forall w :: Count(df, w) == Count(df0, w) + (if w in seen then 1 else 0)
      invariant forall w :: w in df ==> df[w] >= 1
    {
      var w := toks[j];
      assert toks[..j + 1] == toks[..j] + [w];
      if w !in seen {
        seen := seen + {w};
        df := df[w := Count(df, w) + 1];
      }
    }
    assert toks[..|toks|] == toks;
  }

  lemma CountsKeysAreVocabulary(df: map<string, nat>, docs: seq<seq<string>>)
    requires Counts(df, docs)
    ensures df.Keys == Vocabulary(docs)
  {
    forall w
      ensures w in df <==> w in Vocabulary(docs)
    {
      DocFreqBounds(docs, w);
      assert Count(df, w) == DocFreq(docs, w);
    }
  }

  method IdfTable(log: real -> real, n: nat, df: map<string, nat>) returns (idf: map<string, real>)
    ensures idf.Keys == df.Keys && forall w :: w in idf ==> idf[w] == Idf(log, n, df[w])
  {
    idf := map[];
    var left := df.Keys;
    while left != {}
      invariant left <= df.Keys && idf.Keys == df.Keys - left
      invariant forall w :: w in idf ==> idf[w] == Idf(log, n, df[w])
      decreases |left|
    {
      var w :| w in left;
      idf := idf[w := Idf(log, n, df[w])];
      left := left - {w};
    }
  }

  lemma OneDocumentMore(docs: seq<seq<string>>, k: nat, df0: map<string, nat>, df: map<string, nat>)
    requires k < |docs| && Counts(df0, docs[..k])
    requires forall w :: Count(df, w) == Count(df0, w) + (if w in docs[k] then 1 else 0)
    requires forall w :: w in df ==> df[w] >= 1
    ensures Counts(df, docs[..k + 1]) && Total(docs[..k + 1]) == Total(docs[..k]) + |docs[k]|
  {
    assert docs[..k + 1][..k] == docs[..k];
  }

  method CountCorpus(ch: Chars, texts: seq<string>) returns (df: map<string, nat>, total: nat)
    requires Unicode(ch)
    ensures Counts(df, Docs(ch, texts)) && total == Total(Docs(ch, texts))
  {
    ghost var docs := Docs(ch, texts);
    df := map[];
    total := 0;
    for k := 0 to |texts|
      invariant Counts(df, docs[..k]) && total == Total(docs[..k])
    {
      var toks := Tokenize(ch, texts[k]);
      total := total + |toks|;
      var next := CountDocument(df, toks);
      OneDocumentMore(docs, k, df, next);
      df := next;
    }
    assert docs[..|texts|] == docs;
  }

  method Train(ch: Chars, log: real -> real, texts: seq<string>) returns (e: Encoder)
    requires Unicode(ch)
    ensures Trained(log, Docs(ch, texts), e)
  {
    ghost var docs := Docs(ch, texts);
    var n := |texts|;
    var df, total := CountCorpus(ch, texts);
    CountsKeysAreVocabulary(df, docs);
    var idf := IdfTable(log, n, df);
    forall w | w in idf
      ensures idf[w] == Idf(log, n, DocFreq(docs, w))
    {
      assert Count(df, w) == DocFreq(docs, w);
    }
    e := Encoder(idf, if n > 0 && total > 0 then total as real / n as real else 1.0);
  }

  // --- DocVector ---

  method CountTerms(toks: seq<string>) returns (tf: map<string, nat>)
    ensures tf.Keys == Distinct(toks)
    ensures forall w :: w in tf ==> tf[w] == Occurrences(toks, w)
  {
    tf := map[];
    for j := 0 to |toks|
      invariant forall w :: w in tf <==> w in toks[..j]
      invariant forall w :: Count(tf, w) == Occurrences(toks[..j], w)
    {
      assert toks[..j + 1] == toks[..j] + [toks[j]] && toks[..j + 1][..j] == toks[..j];
      tf := tf[toks[j] := Count(tf, toks[j]) + 1];
    }
    assert toks[..|toks|] == toks;
    forall w | w in tf
      ensures tf[w] == Occurrences(toks, w)
    {
      assert Count(tf, w) == Occurrences(toks, w);
    }
  }

  // The vector of the terms in s only.
  ghost predicate Partial(hash: Hash, e: Encoder, toks: seq<string>, s: set<string>, v: Vector) {
    v.Keys == Ids(hash, s) && forall i :: i in v ==> v[i] == Sum(Weight(e, toks), Fiber(Key(hash), s, i))
  }

  function Get(v: Vector, i: int): real {
    if i in v then v[i] else 0.0
  }

  lemma FiberGrows(hash: Hash, s: set<string>, w: string, i: int)
    requires w !in s
    ensures Fiber(Key(hash), s + {w}, i)
         == if TermId(hash, w) == i then Fiber(Key(hash), s, i) + {w} else Fiber(Key(hash), s, i)
  {
  }

  lemma PartialGet(hash: Hash, e: Encoder, toks: seq<string>, s: set<string>, v: Vector, i: int)
    requires Partial(hash, e, toks, s, v)
    ensures Get(v, i) == Sum(Weight(e, toks), Fiber(Key(hash), s, i))
  {
    if i !in v {
      forall x | x in s ensures TermId(hash, x) != i { assert TermId(hash, x) in Ids(hash, s); }
      assert Fiber(Key(hash), s, i) == {};
    }
  }

  lemma IdsGrow(hash: Hash, s: set<string>, w: string)
    ensures Ids(hash, s + {w}) == Ids(hash, s) + {TermId(hash, w)}
  {
    forall x | x in s ensures TermId(hash, x) in Ids(hash, s + {w}) { assert x in s + {w}; }
    assert w in s + {w};
  }

  lemma AddTerm(hash: Hash, e: Encoder, toks: seq<string>, s: set<string>, w: string, v: Vector)
    requires Partial(hash, e, toks, s, v) && w !in s
    ensures Partial(hash, e, toks, s + {w}, v[TermId(hash, w) := Get(v, TermId(hash, w)) + Weight(e, toks)(w)])
  {
    var f, id := Weight(e, toks), TermId(hash, w);
    var v' := v[id := Get(v, id) + f(w)];
    IdsGrow(hash, s, w);
    forall i | i in v'
      ensures v'[i] == Sum(f, Fiber(Key(hash), s + {w}, i))
    {
      AddedAt(hash, e, toks, s, w, v, i);
    }
  }

  lemma AddedAt(hash: Hash, e: Encoder, toks: seq<string>, s: set<string>, w: string, v: Vector, i: int)
    requires Partial(hash, e, toks, s, v) && w !in s
    ensures Sum(Weight(e, toks), Fiber(Key(hash), s + {w}, i))
         == Get(v, i) + (if i == TermId(hash, w) then Weight(e, toks)(w) else 0.0)
  {
    hide Partial, Weight, Get, Sum, TermId;
    FiberGrows(hash, s, w, i);
    PartialGet(hash, e, toks, s, v, i);
    if i == TermId(hash, w) { PutIn(Weight(e, toks), Fiber(Key(hash), s, i), w); }
  }

  // Adds one term's weight to its dimension, unless the term is skipped.
  method AddWeight(hash: Hash, e: Encoder, ghost toks: seq<string>, ghost done: set<string>, w: string, f: nat, dl: nat,
                   v0: Vector)
    returns (v: Vector)
    requires e.avgdl > 0.0 && w in toks && f == Occurrences(toks, w) && dl == |toks| && w !in done
    requires Partial(hash, e, toks, done, v0)
    ensures Partial(hash, e, toks, if w in Indexed(e, toks) then done + {w} else done, v)
  {
    v := v0;
    if w in e.idf && e.idf[w] > 0.0 {
      AddTerm(hash, e, toks, done, w, v0);
      v := v0[TermId(hash, w) := Get(v0, TermId(hash, w)) + TermWeight(e.idf[w], f, dl, e.avgdl)];
    }
  }

  method DocVector(ch: Chars, hash: Hash, e: Encoder, text: string) returns (v: Vector)
    requires Unicode(ch) && e.avgdl > 0.0
    ensures IsDocVector(hash, e, TokensOf(ch, text), v)
  {
    hide Partial, Indexed, TokensOf, IsDocVector;
    var toks := Tokenize(ch, text);
    var tf := CountTerms(toks);
    v := map[];
    var left := tf.Keys;
    NoTermYet(hash, e, toks, left);
    while left != {}
      invariant left <= tf.Keys
      invariant Partial(hash, e, toks, (tf.Keys - left) * Indexed(e, toks), v)
      decreases |left|
    {
      var w :| w in left;
      ghost var done := (tf.Keys - left) * Indexed(e, toks);
      v := AddWeight(hash, e, toks, done, w, tf[w], |toks|, v);
      left := left - {w};
      assert (tf.Keys - left) * Indexed(e, toks) == if w in Indexed(e, toks) then done + {w} else done;
    }
    AllTerms(hash, e, toks, v);
  }

  lemma NoTermYet(hash: Hash, e: Encoder, toks: seq<string>, keys: set<string>)
    ensures Partial(hash, e, toks, (keys - keys) * Indexed(e, toks), map[])
  {
  }

  lemma AllTerms(hash: Hash, e: Encoder, toks: seq<string>, v: Vector)
    requires Partial(hash, e, toks, (Distinct(toks) - {}) * Indexed(e, toks), v)
    ensures IsDocVector(hash, e, toks, v)
  {
    assert (Distinct(toks) - {}) * Indexed(e, toks) == Indexed(e, toks);
  }

  // --- QueryVector ---

  lemma QueryTermsGrow(stop: set<string>, toks: seq<string>, j: nat)
    requires j < |toks|
    ensures QueryTerms(stop, toks[..j + 1])
         == QueryTerms(stop, toks[..j]) + if toks[j] in stop then {} else {toks[j]}
  {
    assert toks[..j + 1] == toks[..j] + [toks[j]];
  }

  method QueryVector(ch: Chars, hash: Hash, stop: set<string>, text: string) returns (v: Vector)
    requires Unicode(ch)
    ensures IsQueryVector(hash, QueryTerms(stop, TokensOf(ch, text)), v)
  {
    var toks := Tokenize(ch, text);
    v := map[];
    for j := 0 to |toks|
      invariant IsQueryVector(hash, QueryTerms(stop, toks[..j]), v)
    {
      QueryTermsGrow(stop, toks, j);
      hide QueryTerms, TermId, TokensOf;
      if toks[j] !in stop {
        IdsGrow(hash, QueryTerms(stop, toks[..j]), toks[j]);
        v := v[TermId(hash, toks[j]) := 1.0];
      }
    }
    assert toks[..|toks|] == toks;
  }

  // --- IndexCorpus ---

  datatype Chunk = Chunk(id: int, prefix: string, content: string)

  function ChunkText(c: Chunk): string {
    if c.prefix != "" then c.prefix + " " + c.content else c.content
  }

  function ChunkTexts(chunks: seq<Chunk>): seq<string> {
    seq(|chunks|, k requires 0 <= k < |chunks| => ChunkText(chunks[k]))
  }

  // The space keeps the tokens of prefix and content apart.
  lemma {:induction false} PrefixAddsItsTokens(ch: Chars, c: Chunk)
    requires Unicode(ch)
    ensures TokensOf(ch, ChunkText(c)) == TokensOf(ch, c.prefix) + TokensOf(ch, c.content)
  {
    assert ' ' in ".-()& " && ' ' !in ".-()&";
    TokensSplit(ch, c.prefix, ' ', c.content);
    if c.prefix == "" { assert TokensOf(ch, "") == []; }
  }

  // The documents of a corpus: the tokens of each chunk's prefix, then of its content.
  ghost function ChunkDocs(ch: Chars, chunks: seq<Chunk>): seq<seq<string>> {
    seq(|chunks|, k requires 0 <= k < |chunks| => TokensOf(ch, chunks[k].prefix) + TokensOf(ch, chunks[k].content))
  }

  lemma CorpusIsItsChunks(ch: Chars, chunks: seq<Chunk>)
    requires Unicode(ch)
    ensures Docs(ch, ChunkTexts(chunks)) == ChunkDocs(ch, chunks)
    ensures forall k :: 0 <= k < |chunks| ==> TokensOf(ch, ChunkText(chunks[k])) == ChunkDocs(ch, chunks)[k]
  {
    forall k | 0 <= k < |chunks|
      ensures TokensOf(ch, ChunkText(chunks[k])) == ChunkDocs(ch, chunks)[k]
    {
      PrefixAddsItsTokens(ch, chunks[k]);
    }
    hide TokensOf, ChunkText;
  }

  // Writes one row per chunk; the first chunk whose update fails ends it.
  method IndexCorpus(ch: Chars, log: real -> real, hash: Hash, chunks: seq<Chunk>, failing: set<int>)
    returns (e: Encoder, stored: map<int, Vector>, written: nat, ok: bool)
    requires Unicode(ch) && Logarithm(log)
    requires forall j, k :: 0 <= j < k < |chunks| ==> chunks[j].id != chunks[k].id
    ensures Trained(log, ChunkDocs(ch, chunks), e)
    ensures written <= |chunks| && (ok <==> written == |chunks|)
    ensures !ok ==> chunks[written].id in failing
    ensures forall k :: 0 <= k < written ==>
              && chunks[k].id !in failing && chunks[k].id in stored
              && IsDocVector(hash, e, ChunkDocs(ch, chunks)[k], stored[chunks[k].id])
    ensures forall id :: id in stored ==> exists k :: 0 <= k < written && chunks[k].id == id
  {
    hide Trained, IsDocVector, TokensOf, ChunkText, Docs;
    CorpusIsItsChunks(ch, chunks);
    var texts := ChunkTexts(chunks);
    e := Train(ch, log, texts);
    AverageIsPositive(log, Docs(ch, texts), e);
    stored := map[];
    written := 0;
    while written < |chunks|
      invariant written <= |chunks|
      invariant forall k :: 0 <= k < written ==>
                  && chunks[k].id !in failing && chunks[k].id in stored
                  && IsDocVector(hash, e, TokensOf(ch, ChunkText(chunks[k])), stored[chunks[k].id])
      invariant forall id :: id in stored ==> exists k :: 0 <= k < written && chunks[k].id == id
    {
      var v := DocVector(ch, hash, e, texts[written]);
      if chunks[written].id in failing {
        return e, stored, written, false;
      }
      stored := stored[chunks[written].id := v];
      written := written + 1;
    }
    ok := true;
  }

  // An indexed chunk keeps every one of its tokens.
  lemma {:induction false} IndexedChunkKeepsAllTokens(ch: Chars, log: real -> real, chunks: seq<Chunk>, e: Encoder,
                                                      k: nat)
    requires Logarithm(log) && Trained(log, ChunkDocs(ch, chunks), e) && k < |chunks|
    ensures Indexed(e, ChunkDocs(ch, chunks)[k]) == Distinct(ChunkDocs(ch, chunks)[k])
  {
    var docs := ChunkDocs(ch, chunks);
    forall w | w in docs[k]
      ensures w in Indexed(e, docs[k])
    {
      TrainingCoversTheCorpus(log, docs, e, k, w);
    }
  }
}
