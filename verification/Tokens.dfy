// The BM25 tokenizer: lower-cased text cut into maximal runs of citation characters,
// each kept whole when it looks like a citation and cut into words otherwise.
module Tokens {
  import opened Collections

  // The Unicode classes the tokenizer asks about.
  datatype Chars = Chars(lower: char -> char, letter: char -> bool, digit: char -> bool)

  predicate Alnum(ch: Chars, c: char) {
    ch.letter(c) || ch.digit(c)
  }

  predicate CitationChar(ch: Chars, c: char) {
    Alnum(ch, c) || c in ".-()&"
  }

  // What Unicode guarantees: punctuation and space are neither letters nor digits, and
  // lower-casing keeps the space.
  ghost predicate Unicode(ch: Chars) {
    && (forall c :: c in ".-()& " ==> !Alnum(ch, c))
    && ch.lower(' ') == ' '
  }

  function Lower(ch: Chars, s: string): string {
    seq(|s|, i requires 0 <= i < |s| => ch.lower(s[i]))
  }

  // --- Maximal runs ---

  // The first run of s, from its start.
  function Run(p: char -> bool, s: string): (run: string)
    ensures |run| <= |s| && run == s[..|run|]
    ensures forall c :: c in run ==> p(c)
    ensures |run| < |s| ==> !p(s[|run|])
  {
    if s == [] || !p(s[0]) then [] else [s[0]] + Run(p, s[1..])
  }

  // All maximal runs of characters that satisfy p, in order.
  function Runs(p: char -> bool, s: string): seq<string>
    decreases |s|
  {
    if s == [] then []
    else if !p(s[0]) then Runs(p, s[1..])
    else [Run(p, s)] + Runs(p, s[|Run(p, s)|..])
  }

  function Kept(p: char -> bool, s: string): string {
    if s == [] then [] else (if p(s[0]) then [s[0]] else []) + Kept(p, s[1..])
  }

  function Flatten(ss: seq<string>): string {
    if ss == [] then [] else ss[0] + Flatten(ss[1..])
  }

  lemma {:induction false} RunOfConcat(p: char -> bool, a: string, c: char, b: string)
    requires !p(c)
    ensures Run(p, a + [c] + b) == Run(p, a)
    decreases |a|
  {
    if a != [] && p(a[0]) {
      assert (a + [c] + b)[1..] == a[1..] + [c] + b;
      RunOfConcat(p, a[1..], c, b);
    }
  }

  // A character outside the class separates the runs on its two sides.
  lemma {:induction false} RunsSplit(p: char -> bool, a: string, c: char, b: string)
    requires !p(c)
    ensures Runs(p, a + [c] + b) == Runs(p, a) + Runs(p, b)
    decreases |a|
  {
    if a == [] {
      assert (a + [c] + b)[1..] == b;
    } else if !p(a[0]) {
      assert (a + [c] + b)[1..] == a[1..] + [c] + b;
      RunsSplit(p, a[1..], c, b);
    } else {
      var run := Run(p, a);
      RunOfConcat(p, a, c, b);
      DropFromConcat(a, [c], b, |run|);
      RunsSplit(p, a[|run|..], c, b);
      Regroup([run], Runs(p, a[|run|..]), Runs(p, b));
    }
  }

  lemma DropFromConcat(a: string, c: string, b: string, k: nat)
    requires k <= |a|
    ensures (a + c + b)[k..] == a[k..] + c + b
  {
  }

  lemma {:induction false} RunIsAll(p: char -> bool, s: string)
    requires forall c :: c in s ==> p(c)
    ensures Run(p, s) == s
    ensures Runs(p, s) == if s == [] then [] else [s]
    decreases |s|
  {
    if s != [] {
      RunIsAll(p, s[1..]);
      assert s[|s|..] == [];
    }
  }

  // Runs lose no character of the class, gain none, and none is empty.
  lemma {:induction false} RunsConserve(p: char -> bool, s: string)
    ensures Flatten(Runs(p, s)) == Kept(p, s)
    ensures forall r :: r in Runs(p, s) ==> r != [] && forall c :: c in r ==> p(c)
    decreases |s|
  {
    if s != [] && !p(s[0]) {
      RunsConserve(p, s[1..]);
    } else if s != [] {
      var k := |Run(p, s)|;
      RunsConserve(p, s[k..]);
      KeptOfRun(p, s, k);
    }
  }

  lemma {:induction false} KeptOfRun(p: char -> bool, s: string, k: nat)
    requires k <= |s| && forall i :: 0 <= i < k ==> p(s[i])
    ensures Kept(p, s) == s[..k] + Kept(p, s[k..])
    decreases k
  {
    if k > 0 {
      KeptOfRun(p, s[1..], k - 1);
      assert s[1..][k - 1..] == s[k..];
      assert s[..k] == [s[0]] + s[1..][..k - 1];
    }
  }

  lemma {:induction false} KeptIsShorter(p: char -> bool, s: string)
    ensures |Kept(p, s)| <= |s|
    ensures |Kept(p, s)| == |s| ==> forall c :: c in s ==> p(c)
  {
    if s != [] { KeptIsShorter(p, s[1..]); }
  }

  // --- Tokens of one run ---

  predicate HasLetter(ch: Chars, s: string) {
    exists i :: 0 <= i < |s| && ch.letter(s[i])
  }

  predicate HasDigit(ch: Chars, s: string) {
    exists i :: 0 <= i < |s| && !ch.letter(s[i]) && ch.digit(s[i])
  }

  predicate LooksLikeCitation(ch: Chars, s: string) {
    || (HasLetter(ch, s) && (HasDigit(ch, s) || '.' in s))
    || (HasDigit(ch, s) && '.' in s)
  }

  // strings.TrimRight(s, ".")
  function TrimDots(s: string): (t: string)
    ensures t <= s && (t == [] || t[|t| - 1] != '.')
    ensures forall i :: |t| <= i < |s| ==> s[i] == '.'
  {
    if s != [] && s[|s| - 1] == '.' then TrimDots(s[..|s| - 1]) else s
  }

  function RunTokens(ch: Chars, run: string): seq<string> {
    if LooksLikeCitation(ch, run)
    then (if TrimDots(run) == [] then [] else [TrimDots(run)])
    else Runs(c => Alnum(ch, c), run)
  }

  function AllRunTokens(ch: Chars, runs: seq<string>): seq<string> {
    if runs == [] then [] else RunTokens(ch, runs[0]) + AllRunTokens(ch, runs[1..])
  }

  lemma {:induction false} AllRunTokensConcat(ch: Chars, a: seq<string>, b: seq<string>)
    ensures AllRunTokens(ch, a + b) == AllRunTokens(ch, a) + AllRunTokens(ch, b)
    decreases |a|
  {
    if a == [] {
      assert a + b == b;
    } else {
      assert (a + b)[1..] == a[1..] + b;
      AllRunTokensConcat(ch, a[1..], b);
    }
  }

  // The tokens of a text that is in lower case already.
  function RawTokens(ch: Chars, s: string): seq<string> {
    AllRunTokens(ch, Runs(c => CitationChar(ch, c), s))
  }

  function TokensOf(ch: Chars, s: string): seq<string> {
    RawTokens(ch, Lower(ch, s))
  }

  // --- What the tokens are ---

  // Tokenizing is a homomorphism across separators.
  lemma {:induction false} TokensSplit(ch: Chars, a: string, c: char, b: string)
    requires !ch.letter(ch.lower(c)) && !ch.digit(ch.lower(c)) && ch.lower(c) !in ".-()&"
    ensures TokensOf(ch, a + [c] + b) == TokensOf(ch, a) + TokensOf(ch, b)
  {
    var p := (x: char) => CitationChar(ch, x);
    assert Lower(ch, a + [c] + b) == Lower(ch, a) + [ch.lower(c)] + Lower(ch, b);
    RunsSplit(p, Lower(ch, a), ch.lower(c), Lower(ch, b));
    AllRunTokensConcat(ch, Runs(p, Lower(ch, a)), Runs(p, Lower(ch, b)));
  }

  // A token may lose nothing but trailing dots, and always keeps a letter or digit.
  predicate Substantial(ch: Chars, t: string) {
    exists i :: 0 <= i < |t| && Alnum(ch, t[i])
  }

  lemma RunTokensSubstantial(ch: Chars, run: string)
    requires Unicode(ch)
    ensures forall t :: t in RunTokens(ch, run) ==> t != [] && Substantial(ch, t)
    ensures LooksLikeCitation(ch, run) ==> RunTokens(ch, run) == [TrimDots(run)] && TrimDots(run) != []
  {
    if LooksLikeCitation(ch, run) {
      var i :| 0 <= i < |run| && Alnum(ch, run[i]);
      var t := TrimDots(run);
      assert i < |t| by { assert '.' in ".-()& "; }
      assert Alnum(ch, t[i]);
    } else {
      var p := (c: char) => Alnum(ch, c);
      RunsConserve(p, run);
      forall t | t in RunTokens(ch, run)
        ensures Substantial(ch, t)
      {
        assert t[0] in t;
      }
    }
  }

  lemma {:induction false} AllTokensSubstantial(ch: Chars, runs: seq<string>)
    requires Unicode(ch)
    ensures forall t :: t in AllRunTokens(ch, runs) ==> t != [] && Substantial(ch, t)
  {
    if runs != [] {
      RunTokensSubstantial(ch, runs[0]);
      AllTokensSubstantial(ch, runs[1..]);
    }
  }

  lemma {:induction false} NoTokenIsEmpty(ch: Chars, s: string)
    requires Unicode(ch)
    ensures forall t :: t in TokensOf(ch, s) ==> t != [] && Substantial(ch, t)
  {
    AllTokensSubstantial(ch, Runs(c => CitationChar(ch, c), Lower(ch, s)));
  }

  // --- Is a token found again when it is the query? ---

  predicate AllAlnum(ch: Chars, t: string) {
    forall i :: 0 <= i < |t| ==> Alnum(ch, t[i])
  }

  lemma OneRun(ch: Chars, t: string)
    requires t != [] && forall c :: c in t ==> CitationChar(ch, c) && ch.lower(c) == c
    ensures TokensOf(ch, t) == RunTokens(ch, t)
  {
    assert Lower(ch, t) == t;
    var p := (c: char) => CitationChar(ch, c);
    RunIsAll(p, t);
    assert AllRunTokens(ch, [t]) == RunTokens(ch, t) + AllRunTokens(ch, []);
  }

  // Where a run t of citation characters in lower case is cut: it stays whole, but for
  // trailing dots, if it has a letter and a digit, a letter and a dot, or a digit and a
  // dot; else it falls into its words.
  lemma {:induction false} RunStaysWholeExactly(ch: Chars, s: string, t: string)
    requires Unicode(ch) && s != [] && |s| == |t| && forall i :: 0 <= i < |s| ==> t[i] == ch.lower(s[i])
    requires forall c :: c in t ==> ch.letter(c) || ch.digit(c) || c in ".-()&"
    ensures var letter := exists c :: c in t && ch.letter(c);
            var digit := exists c :: c in t && !ch.letter(c) && ch.digit(c);
            if (letter && digit) || (letter && '.' in t) || (digit && '.' in t)
            then exists k: nat :: k <= |t| && TokensOf(ch, s) == [t[..k]] && (forall i :: k <= i < |t| ==> t[i] == '.')
                                  && k > 0 && t[k - 1] != '.'
            else TokensOf(ch, s) == Runs(c => ch.letter(c) || ch.digit(c), t)
  {
    assert t == Lower(ch, s);
    LoweredRun(ch, s, t);
    SameClass(ch, t);
    RunTokensSubstantial(ch, t);
    LooksExactly(ch, t);
    hide LooksLikeCitation, TokensOf, Runs, CitationChar;
    if LooksLikeCitation(ch, t) {
      assert TrimDots(t) == t[..|TrimDots(t)|] && TokensOf(ch, s) == [t[..|TrimDots(t)|]];
    }
  }

  lemma LooksExactly(ch: Chars, t: string)
    ensures var letter := exists c :: c in t && ch.letter(c);
            var digit := exists c :: c in t && !ch.letter(c) && ch.digit(c);
            LooksLikeCitation(ch, t) <==> (letter && digit) || (letter && '.' in t) || (digit && '.' in t)
  {
    if c :| c in t && ch.letter(c) {
      var i :| 0 <= i < |t| && t[i] == c;
      assert HasLetter(ch, t);
    }
    if c :| c in t && !ch.letter(c) && ch.digit(c) {
      var i :| 0 <= i < |t| && t[i] == c;
      assert HasDigit(ch, t);
    }
  }

  lemma LoweredRun(ch: Chars, s: string, t: string)
    requires t != [] && t == Lower(ch, s) && forall c :: c in t ==> CitationChar(ch, c)
    ensures TokensOf(ch, s) == RunTokens(ch, t)
  {
    var p := (c: char) => CitationChar(ch, c);
    RunIsAll(p, t);
    assert AllRunTokens(ch, [t]) == RunTokens(ch, t) + AllRunTokens(ch, []);
  }

  lemma SameClass(ch: Chars, t: string)
    ensures Runs(c => ch.letter(c) || ch.digit(c), t) == Runs(c => Alnum(ch, c), t)
  {
    SameRuns(c => ch.letter(c) || ch.digit(c), c => Alnum(ch, c), t);
  }

  lemma {:induction false} SameRuns(p: char -> bool, q: char -> bool, t: string)
    requires forall c :: p(c) == q(c)
    ensures Runs(p, t) == Runs(q, t) && Run(p, t) == Run(q, t)
    decreases |t|
  {
    if t != [] {
      SameRuns(p, q, t[1..]);
      if p(t[0]) { SameRuns(p, q, t[|Run(p, t)|..]); }
    }
  }

  lemma WordIsItself(ch: Chars, t: string)
    requires t != []
    ensures Runs(c => Alnum(ch, c), t) == [t] <==> AllAlnum(ch, t)
  {
    var q := (c: char) => Alnum(ch, c);
    if AllAlnum(ch, t) {
      RunIsAll(q, t);
    } else {
      var i :| 0 <= i < |t| && !Alnum(ch, t[i]);
      assert t[i] in t && !q(t[i]);
      KeptIsShorter(q, t);
      RunsConserve(q, t);
      FlattenOne(t);
    }
  }

  // A citation run without its trailing dots, tokenized on its own, yields itself
  // exactly when it still looks like a citation or holds letters and digits only.
  lemma {:induction false} TrimmedTokenIsStable(ch: Chars, run: string)
    requires Unicode(ch) && LooksLikeCitation(ch, run)
    requires forall c :: c in run ==> CitationChar(ch, c) && ch.lower(c) == c
    ensures var t := TrimDots(run);
            TokensOf(ch, t) == [t] <==> LooksLikeCitation(ch, t) || AllAlnum(ch, t)
  {
    var t := TrimDots(run);
    RunTokensSubstantial(ch, run);
    assert forall c :: c in t ==> c in run;
    OneRun(ch, t);
    WordIsItself(ch, t);
    TrimOnce(run);
  }

  // Lower-case letters only.
  predicate Word(ch: Chars, t: string) {
    t != [] && forall c :: c in t ==> ch.letter(c) && ch.lower(c) == c
  }

  lemma TwoWords(ch: Chars, a: string, b: string)
    requires Unicode(ch) && Word(ch, a) && Word(ch, b)
    ensures Runs(c => Alnum(ch, c), a + ['-'] + b) == [a, b]
  {
    var p := (c: char) => Alnum(ch, c);
    assert '-' in ".-()& ";
    RunsSplit(p, a, '-', b);
    RunIsAll(p, a);
    RunIsAll(p, b);
  }

  lemma HyphenIsPlain(ch: Chars, a: string, b: string)
    requires Unicode(ch) && Word(ch, a) && Word(ch, b)
    ensures var t := a + ['-'] + b;
            !LooksLikeCitation(ch, t) && LooksLikeCitation(ch, t + ['.']) && TrimDots(t + ['.']) == t
  {
    var t := a + ['-'] + b;
    assert '-' in ".-()& " && '.' in ".-()& ";
    assert forall c :: c in t ==> c in a || c == '-' || c in b;
    assert (t + ['.'])[0] == a[0] && (t + ['.'])[|t|] == '.' && (t + ['.'])[..|t|] == t;
    assert t[|t| - 1] == b[|b| - 1];
  }

  // The inputs on which it does not: the hyphenated word of "foo-bar." is one token, which
  // the text "foo-bar" does not have.
  lemma {:induction false} HyphenatedWordIsLost(ch: Chars, a: string, b: string)
    requires Unicode(ch) && ch.lower('-') == '-' && ch.lower('.') == '.' && Word(ch, a) && Word(ch, b)
    ensures var t := a + ['-'] + b; TokensOf(ch, t + ['.']) == [t] && TokensOf(ch, t) == [a, b]
  {
    var t := a + ['-'] + b;
    assert '-' in ".-()&" && '.' in ".-()&";
    assert forall c :: c in t ==> c in a || c == '-' || c in b;
    TwoWords(ch, a, b);
    HyphenIsPlain(ch, a, b);
    hide LooksLikeCitation, Runs, TokensOf;
    OneRun(ch, t);
    OneRun(ch, t + ['.']);
  }

  lemma FlattenOne(t: string)
    ensures Flatten([t]) == t
  {
    assert Flatten([t]) == t + Flatten([]);
  }

  lemma TrimOnce(s: string)
    ensures TrimDots(TrimDots(s)) == TrimDots(s)
  {
  }

  // --- The program's loops ---

  lemma OneMore(ch: Chars, s: string, c: char)
    ensures HasLetter(ch, s + [c]) <==> HasLetter(ch, s) || ch.letter(c)
    ensures HasDigit(ch, s + [c]) <==> HasDigit(ch, s) || (!ch.letter(c) && ch.digit(c))
  {
    var t := s + [c];
    assert t[|s|] == c && forall i :: 0 <= i < |s| ==> t[i] == s[i];
    if HasLetter(ch, s) { var i :| 0 <= i < |s| && ch.letter(s[i]); assert ch.letter(t[i]); }
    if HasDigit(ch, s) { var i :| 0 <= i < |s| && !ch.letter(s[i]) && ch.digit(s[i]); assert ch.digit(t[i]); }
  }

  // isCitationToken
  method IsCitationToken(ch: Chars, s: string) returns (yes: bool)
    requires Unicode(ch)
    ensures yes == LooksLikeCitation(ch, s)
  {
    assert '.' in ".-()& ";
    var hasLetter, hasDigit, hasDot := false, false, false;
    for i := 0 to |s|
      invariant hasLetter == HasLetter(ch, s[..i])
      invariant hasDigit == HasDigit(ch, s[..i])
      invariant hasDot == ('.' in s[..i])
    {
      assert s[..i + 1] == s[..i] + [s[i]];
      OneMore(ch, s[..i], s[i]);
      if ch.letter(s[i]) {
        hasLetter := true;
      } else if ch.digit(s[i]) {
        hasDigit := true;
      } else if s[i] == '.' {
        hasDot := true;
      }
    }
    assert s[..|s|] == s;
    yes := (hasLetter && (hasDigit || hasDot)) || (hasDigit && hasDot);
  }

  // The word being collected, cut off by a character that is not alphanumeric.
  lemma WordEnds(p: char -> bool, cur: string, c: char, rest: string)
    requires !p(c) && forall x :: x in cur ==> p(x)
    ensures Runs(p, cur + [c] + rest) == (if cur == [] then [] else [cur]) + Runs(p, rest)
  {
    RunsSplit(p, cur, c, rest);
    RunIsAll(p, cur);
  }

  lemma TakeOne(cur: string, tok: string, i: nat)
    requires i < |tok|
    ensures cur + tok[i..] == cur + [tok[i]] + tok[i + 1..]
  {
  }

  // The splitting of a run that is no citation.
  method Words(ch: Chars, tok: string) returns (words: seq<string>)
    ensures words == Runs(c => Alnum(ch, c), tok)
  {
    ghost var p := (c: char) => Alnum(ch, c);
    words := [];
    var cur: string := [];
    assert cur + tok[0..] == tok;
    for i := 0 to |tok|
      invariant forall x :: x in cur ==> p(x)
      invariant words + Runs(p, cur + tok[i..]) == Runs(p, tok)
    {
      TakeOne(cur, tok, i);
      if ch.letter(tok[i]) || ch.digit(tok[i]) {
        cur := cur + [tok[i]];
      } else {
        WordEnds(p, cur, tok[i], tok[i + 1..]);
        if |cur| > 0 {
          Regroup(words, [cur], Runs(p, tok[i + 1..]));
          words := words + [cur];
          cur := [];
        }
        assert cur + tok[i + 1..] == tok[i + 1..];
      }
    }
    RunIsAll(p, cur);
    assert cur + tok[|tok|..] == cur;
    if |cur| > 0 {
      words := words + [cur];
    }
  }

  lemma {:induction false} RunEndsAt(p: char -> bool, s: string, k: nat)
    requires k <= |s| && (forall i :: 0 <= i < k ==> p(s[i])) && (k < |s| ==> !p(s[k]))
    ensures Run(p, s) == s[..k]
    decreases k
  {
    if k > 0 {
      RunEndsAt(p, s[1..], k - 1);
      assert s[..k] == [s[0]] + s[1..][..k - 1];
    }
  }

  lemma SkipSeparator(ch: Chars, runes: string, i: nat)
    requires i < |runes| && !CitationChar(ch, runes[i])
    ensures RawTokens(ch, runes[i..]) == RawTokens(ch, runes[i + 1..])
  {
    assert runes[i..][1..] == runes[i + 1..];
  }

  lemma FirstRun(p: char -> bool, s: string, k: nat)
    requires 0 < k <= |s| && (forall i :: 0 <= i < k ==> p(s[i])) && (k < |s| ==> !p(s[k]))
    ensures Runs(p, s) == [s[..k]] + Runs(p, s[k..])
  {
    RunEndsAt(p, s, k);
  }

  lemma FirstTokens(ch: Chars, run: string, runs: seq<string>)
    ensures AllRunTokens(ch, [run] + runs) == RunTokens(ch, run) + AllRunTokens(ch, runs)
  {
    assert ([run] + runs)[1..] == runs;
  }

  lemma TakeRun(ch: Chars, runes: string, i: nat, j: nat)
    requires i < j <= |runes| && (forall k :: i <= k < j ==> CitationChar(ch, runes[k]))
    requires j < |runes| ==> !CitationChar(ch, runes[j])
    ensures RawTokens(ch, runes[i..]) == RunTokens(ch, runes[i..j]) + RawTokens(ch, runes[j..])
  {
    var s := runes[i..];
    assert s[..j - i] == runes[i..j] && s[j - i..] == runes[j..];
    FirstRun(c => CitationChar(ch, c), s, j - i);
    FirstTokens(ch, runes[i..j], Runs(c => CitationChar(ch, c), runes[j..]));
  }

  // What Tokenize appends for one run.
  method TokensOfRun(ch: Chars, run: string) returns (tokens: seq<string>)
    requires Unicode(ch)
    ensures tokens == RunTokens(ch, run)
  {
    tokens := [];
    var tok := run;
    var citation := IsCitationToken(ch, tok);
    if citation {
      tok := TrimDots(tok);
      if tok != "" {
        tokens := tokens + [tok];
      }
    } else {
      tokens := Words(ch, tok);
    }
  }

  // The end of the maximal run of citation characters that starts at i.
  method CollectRun(ch: Chars, runes: string, i: nat) returns (j: nat)
    requires i < |runes| && CitationChar(ch, runes[i])
    ensures i < j <= |runes| && (forall k :: i <= k < j ==> CitationChar(ch, runes[k]))
    ensures j < |runes| ==> !CitationChar(ch, runes[j])
  {
    j := i;
    while j < |runes| && CitationChar(ch, runes[j])
      invariant i <= j <= |runes|
      invariant forall k :: i <= k < j ==> CitationChar(ch, runes[k])
    {
      j := j + 1;
    }
  }

  // Tokenize
  method Tokenize(ch: Chars, s: string) returns (tokens: seq<string>)
    requires Unicode(ch)
    ensures tokens == TokensOf(ch, s)
  {
    var runes := Lower(ch, s);
    tokens := [];
    var i := 0;
    ghost var left := RawTokens(ch, runes);
    assert runes[0..] == runes;
    while i < |runes|
      invariant 0 <= i <= |runes|
      invariant left == RawTokens(ch, runes[i..])
      invariant tokens + left == TokensOf(ch, s)
    {
      if !CitationChar(ch, runes[i]) {
        SkipSeparator(ch, runes, i);
        i := i + 1;
        continue;
      }
      var j := CollectRun(ch, runes, i);
      TakeRun(ch, runes, i, j);
      left := RawTokens(ch, runes[j..]);
      var found := TokensOfRun(ch, runes[i..j]);
      Regroup(tokens, found, left);
      tokens := tokens + found;
      i := j;
    }
    assert runes[i..] == [];
  }
}
