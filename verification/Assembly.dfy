// From fused hits to the answer: the per-framework cap, pinned hits in front,
// non-current versions at the end, and the score that is reported.
module Assembly {
  import opened Fusion
  import opened FusionLaws

  datatype Hit = Hit(chunkId: int, framework: string, version: string, score: real)

  ghost predicate NoRepeatedChunk(hits: seq<Hit>) {
    forall i, j :: 0 <= i < j < |hits| ==> hits[i].chunkId != hits[j].chunkId
  }

  // --- The cap per framework ---

  function CountOf(hits: seq<Hit>, framework: string): nat {
    if hits == [] then 0 else CountOf(hits[..|hits| - 1], framework) + if hits[|hits| - 1].framework == framework then 1
      else 0
  }

  // Hits that find fewer than `limit` of their framework before them, and the others.
  function Within(hits: seq<Hit>, limit: int): seq<Hit> {
    if hits == [] then []
    else
      var h := hits[|hits| - 1];
      Within(hits[..|hits| - 1], limit) + if CountOf(hits[..|hits| - 1], h.framework) < limit then [h] else []
  }

  function Over(hits: seq<Hit>, limit: int): seq<Hit> {
    if hits == [] then []
    else
      var h := hits[|hits| - 1];
      Over(hits[..|hits| - 1], limit) + if CountOf(hits[..|hits| - 1], h.framework) < limit then [] else [h]
  }

  function Min(a: int, b: int): int {
    if a < b then a else b
  }

  function Take(hits: seq<Hit>, n: nat): seq<Hit> {
    if n < |hits| then hits[..n] else hits
  }

  lemma Bag(a: seq<Hit>, h: Hit)
    ensures multiset(a + [h]) == multiset(a) + multiset{h} && a + [] == a
  {
  }

  lemma {:induction false} CapSplits(hits: seq<Hit>, limit: int)
    ensures multiset(Within(hits, limit)) + multiset(Over(hits, limit)) == multiset(hits)
    ensures |Within(hits, limit)| + |Over(hits, limit)| == |hits|
    decreases |hits|
  {
    if hits != [] {
      var front, h := hits[..|hits| - 1], hits[|hits| - 1];
      CapSplits(front, limit);
      assert hits == front + [h];
      Bag(front, h);
      Bag(Within(front, limit), h);
      Bag(Over(front, limit), h);
    }
  }

  lemma CountAppend(a: seq<Hit>, h: Hit, framework: string)
    ensures CountOf(a + [h], framework) == CountOf(a, framework) + if h.framework == framework then 1 else 0
  {
    assert (a + [h])[..|a|] == a;
  }

  lemma WithinCountStep(front: seq<Hit>, within: seq<Hit>, h: Hit, limit: int, framework: string)
    requires limit >= 0 && CountOf(within, framework) == Min(CountOf(front, framework), limit)
    ensures CountOf(front, h.framework) < limit ==>
      CountOf(within + [h], framework) == Min(CountOf(front + [h], framework), limit)
    ensures CountOf(front, h.framework) >= limit ==>
      CountOf(within, framework) == Min(CountOf(front + [h], framework), limit)
  {
    CountAppend(front, h, framework);
    CountAppend(within, h, framework);
  }

  // How many of a framework are within the cap.
  lemma {:induction false} WithinCount(hits: seq<Hit>, limit: int, framework: string)
    requires limit >= 0
    ensures CountOf(Within(hits, limit), framework) == Min(CountOf(hits, framework), limit)
    decreases |hits|
  {
    if hits != [] {
      var front, h := hits[..|hits| - 1], hits[|hits| - 1];
      WithinCount(front, limit, framework);
      LastWithin(hits, limit);
      assert hits == front + [h];
      hide CountOf, Within, Min;
      WithinCountStep(front, Within(front, limit), h, limit, framework);
    }
  }

  lemma LastWithin(hits: seq<Hit>, limit: int)
    requires hits != []
    ensures var front, h := hits[..|hits| - 1], hits[|hits| - 1];
            Within(hits, limit)
            == if CountOf(front, h.framework) < limit then Within(front, limit) + [h] else Within(front, limit)
  {
    hide CountOf;
    assert Within(hits[..|hits| - 1], limit) + [] == Within(hits[..|hits| - 1], limit);
  }

  lemma {:induction false} WithinGrows(hits: seq<Hit>, limit: int, k: nat)
    requires k <= |hits|
    ensures Within(hits[..k], limit) <= Within(hits, limit) && Over(hits[..k], limit) <= Over(hits, limit)
    decreases |hits|
  {
    if k < |hits| {
      assert hits[..|hits| - 1][..k] == hits[..k];
      WithinGrows(hits[..|hits| - 1], limit, k);
    } else {
      assert hits[..k] == hits;
    }
  }

  lemma WithinStep(hits: seq<Hit>, limit: int, k: nat)
    requires k < |hits|
    ensures var within := CountOf(hits[..k], hits[k].framework) < limit;
            && Within(hits[..k + 1], limit) == Within(hits[..k], limit) + (if within then [hits[k]] else [])
            && Over(hits[..k + 1], limit) == Over(hits[..k], limit) + (if within then [] else [hits[k]])
  {
    assert hits[..k + 1][..k] == hits[..k];
  }

  // The first loop of capPerFramework: it stops when topK hits are selected.
  method Select(hits: seq<Hit>, limit: int, topK: nat) returns (selected: seq<Hit>, demoted: seq<Hit>)
    requires limit > 0
    ensures selected == Take(Within(hits, limit), topK)
    ensures |selected| < topK ==> demoted == Over(hits, limit)
  {
    selected, demoted := [], [];
    var perFw: map<string, nat> := map[];
    var k := 0;
    while k < |hits| && |selected| != topK
      invariant k <= |hits| && |selected| <= topK
      invariant selected == Within(hits[..k], limit) && demoted == Over(hits[..k], limit)
      invariant forall f :: (if f in perFw then perFw[f] else 0) == Min(CountOf(hits[..k], f), limit)
      decreases |hits| - k
    {
      var h := hits[k];
      var n := if h.framework in perFw then perFw[h.framework] else 0;
      WithinStep(hits, limit, k);
      assert hits[..k + 1][..k] == hits[..k];
      if n >= limit {
        demoted := demoted + [h];
      } else {
        perFw := perFw[h.framework := n + 1];
        selected := selected + [h];
      }
      k := k + 1;
    }
    WithinGrows(hits, limit, k);
    assert hits[..|hits|] == hits;
  }

  // capPerFramework
  method CapPerFramework(hits: seq<Hit>, limit: int, topK: int) returns (out: seq<Hit>)
    requires limit > 0
    ensures out == if topK <= 0 then hits else Take(Within(hits, limit) + Over(hits, limit), topK)
  {
    if topK <= 0 || |hits| == 0 { return hits; }
    var selected, demoted := Select(hits, limit, topK);
    out := selected;
    var j := 0;
    while j < |demoted| && |out| != topK
      invariant j <= |demoted| && |out| <= topK
      invariant |selected| < topK ==> out == selected + demoted[..j]
      invariant |selected| == topK ==> out == selected
    {
      out := out + [demoted[j]];
      j := j + 1;
    }
    if |selected| < topK {
      assert Within(hits, limit) == selected;
      assert (selected + demoted)[..|selected| + j] == selected + demoted[..j];
      if j == |demoted| { assert demoted[..j] == demoted; }
    } else {
      assert (Within(hits, limit) + Over(hits, limit))[..topK] == Within(hits, limit)[..topK];
    }
  }

  // min(topK, n) hits, and one over the cap only after every one within it.
  lemma {:induction false} CapPrefersWithin(hits: seq<Hit>, limit: int, topK: nat)
    requires limit > 0
    ensures var out := Take(Within(hits, limit) + Over(hits, limit), topK);
            && |out| == Min(topK, |hits|)
            && (|out| > |Within(hits, limit)| ==> Within(hits, limit) <= out)
            && (|out| <= |Within(hits, limit)| ==> out == Within(hits, limit)[..|out|])
  {
    CapSplits(hits, limit);
  }

  // With no more hits than slots, which is how the search calls it, the cap drops
  // nothing: it only moves the hits over the cap behind the others.
  lemma {:induction false} CapOnlyReorders(hits: seq<Hit>, limit: int, topK: nat)
    requires limit > 0 && |hits| <= topK
    ensures multiset(Take(Within(hits, limit) + Over(hits, limit), topK)) == multiset(hits)
  {
    CapSplits(hits, limit);
  }

  // --- Pinned hits, non-current hits ---

  predicate HasChunk(hits: seq<Hit>, id: int) {
    exists i :: 0 <= i < |hits| && hits[i].chunkId == id
  }

  // The hits whose chunk is not among the others.
  function Without(hits: seq<Hit>, others: seq<Hit>): seq<Hit> {
    if hits == [] then []
    else
      var h := hits[|hits| - 1];
      Without(hits[..|hits| - 1], others) + if HasChunk(others, h.chunkId) then [] else [h]
  }

  lemma {:induction false} WithoutFacts(hits: seq<Hit>, others: seq<Hit>)
    ensures |Without(hits, others)| <= |hits|
    ensures forall i :: 0 <= i < |Without(hits, others)| ==>
              HasChunk(hits, Without(hits, others)[i].chunkId) && !HasChunk(others, Without(hits, others)[i].chunkId)
    ensures NoRepeatedChunk(hits) ==> NoRepeatedChunk(Without(hits, others))
    decreases |hits|
  {
    if hits != [] {
      var front := hits[..|hits| - 1];
      WithoutFacts(front, others);
      forall id | HasChunk(front, id)
        ensures HasChunk(hits, id)
      {
        var i :| 0 <= i < |front| && front[i].chunkId == id;
        assert hits[i].chunkId == id;
      }
    }
  }

  // mergePinned
  method MergePinned(pinned: seq<Hit>, fused: seq<Hit>, topK: int) returns (out: seq<Hit>)
    ensures out == pinned + Take(Without(fused, pinned), if topK > |pinned| then topK - |pinned| else 0)
  {
    var pinnedIds := set i | 0 <= i < |pinned| :: pinned[i].chunkId;
    var rest: seq<Hit> := [];
    var room := if topK > |pinned| then topK - |pinned| else 0;
    var k := 0;
    while k < |fused| && |rest| < room
      invariant k <= |fused| && |rest| <= room && rest == Without(fused[..k], pinned)
    {
      assert fused[..k + 1][..k] == fused[..k];
      assert fused[k].chunkId in pinnedIds <==> HasChunk(pinned, fused[k].chunkId);
      if fused[k].chunkId !in pinnedIds {
        rest := rest + [fused[k]];
      }
      k := k + 1;
    }
    WithoutGrows(fused, pinned, k);
    assert fused[..|fused|] == fused;
    out := pinned + rest;
  }

  lemma {:induction false} WithoutGrows(hits: seq<Hit>, others: seq<Hit>, k: nat)
    requires k <= |hits|
    ensures Without(hits[..k], others) <= Without(hits, others)
    decreases |hits|
  {
    if k < |hits| {
      assert hits[..|hits| - 1][..k] == hits[..k];
      WithoutGrows(hits[..|hits| - 1], others, k);
    } else {
      assert hits[..k] == hits;
    }
  }

  // The list with the chunks it does not have yet behind it.
  function Appended(current: seq<Hit>, more: seq<Hit>): seq<Hit> {
    if more == [] then current
    else
      var front, h := Appended(current, more[..|more| - 1]), more[|more| - 1];
      front + if HasChunk(front, h.chunkId) then [] else [h]
  }

  lemma {:induction false} AppendedFrom(current: seq<Hit>, more: seq<Hit>)
    ensures current <= Appended(current, more)
    ensures forall i :: |current| <= i < |Appended(current, more)| ==> Appended(current, more)[i] in more
    decreases |more|
  {
    if more != [] {
      var n := |more| - 1;
      AppendedFrom(current, more[..n]);
      assert more == more[..n] + [more[n]];
    }
  }

  // appendNonCurrent
  method AppendNonCurrent(current: seq<Hit>, nonCurrent: seq<Hit>) returns (out: seq<Hit>)
    requires NoRepeatedChunk(current)
    ensures out == Appended(current, nonCurrent)
    ensures current <= out && |out| <= |current| + |nonCurrent| && NoRepeatedChunk(out)
    ensures forall id :: HasChunk(out, id) <==> HasChunk(current, id) || HasChunk(nonCurrent, id)
  {
    out := current;
    var seen := set i | 0 <= i < |current| :: current[i].chunkId;
    for k := 0 to |nonCurrent|
      invariant out == Appended(current, nonCurrent[..k])
      invariant forall id :: id in seen <==> HasChunk(out, id)
    {
      var h := nonCurrent[k];
      ChunkAppend(out, h);
      AppendedStep(current, nonCurrent, k);
      hide HasChunk, Appended;
      if h.chunkId !in seen {
        out := out + [h];
        seen := seen + {h.chunkId};
      }
    }
    assert nonCurrent[..|nonCurrent|] == nonCurrent;
    AppendedFacts(current, nonCurrent);
  }

  lemma {:induction false} AppendedFacts(current: seq<Hit>, more: seq<Hit>)
    requires NoRepeatedChunk(current)
    ensures var out := Appended(current, more);
            && current <= out && |out| <= |current| + |more| && NoRepeatedChunk(out)
            && forall id :: HasChunk(out, id) <==> HasChunk(current, id) || HasChunk(more, id)
    decreases |more|
  {
    if more != [] {
      var front, h := more[..|more| - 1], more[|more| - 1];
      AppendedFacts(current, front);
      assert more == front + [h];
      ChunkAppend(front, h);
      ChunkAppend(Appended(current, front), h);
      AppendedStep(current, more, |more| - 1);
      hide HasChunk, NoRepeatedChunk, Appended;
      assert more[..|more|] == more;
    }
  }

  lemma AppendedStep(current: seq<Hit>, more: seq<Hit>, k: nat)
    requires k < |more|
    ensures var front := Appended(current, more[..k]);
            Appended(current, more[..k + 1])
            == if HasChunk(front, more[k].chunkId) then front else front + [more[k]]
  {
    assert more[..k + 1][..k] == more[..k];
    assert Appended(current, more[..k]) + [] == Appended(current, more[..k]);
  }

  lemma ChunkAppend(hits: seq<Hit>, h: Hit)
    ensures forall id :: HasChunk(hits + [h], id) <==> HasChunk(hits, id) || h.chunkId == id
    ensures NoRepeatedChunk(hits) && !HasChunk(hits, h.chunkId) ==> NoRepeatedChunk(hits + [h])
  {
    var more := hits + [h];
    assert more[|hits|] == h && forall i :: 0 <= i < |hits| ==> more[i] == hits[i];
    forall id | HasChunk(hits, id)
      ensures HasChunk(more, id)
    {
      var i :| 0 <= i < |hits| && hits[i].chunkId == id;
      assert more[i].chunkId == id;
    }
  }

  function VersionKey(h: Hit): string {
    h.framework + "|" + h.version
  }

  predicate HasKey(hits: seq<Hit>, key: string) {
    exists i :: 0 <= i < |hits| && VersionKey(hits[i]) == key
  }

  lemma KeyAppend(hits: seq<Hit>, h: Hit)
    ensures forall key :: HasKey(hits + [h], key) <==> HasKey(hits, key) || VersionKey(h) == key
  {
    var more := hits + [h];
    assert more[|hits|] == h;
    forall key | HasKey(hits, key)
      ensures HasKey(more, key)
    {
      var i :| 0 <= i < |hits| && VersionKey(hits[i]) == key;
      assert VersionKey(more[i]) == key;
    }
  }

  // The k-th hit is the first of its framework and version.
  ghost predicate FirstOfVersion(hits: seq<Hit>, k: int) {
    0 <= k < |hits|
    && forall j :: 0 <= j < k ==>
         hits[j].framework + "|" + hits[j].version != hits[k].framework + "|" + hits[k].version
  }

  // In order, out has the hits at these places, each the first of its framework and version.
  ghost predicate FirstAt(hits: seq<Hit>, out: seq<Hit>, at: seq<int>) {
    && |at| == |out| && (forall i, j :: 0 <= i < j < |at| ==> at[i] < at[j])
    && forall i :: 0 <= i < |at| ==> FirstOfVersion(hits, at[i]) && out[i] == hits[at[i]]
  }

  ghost predicate IsFirstOfEach(hits: seq<Hit>, out: seq<Hit>) {
    exists at :: FirstAt(hits, out, at)
  }

  lemma NextFirst(hits: seq<Hit>, out: seq<Hit>, at: seq<int>, k: nat)
    requires k < |hits| && FirstAt(hits, out, at) && (forall i :: 0 <= i < |at| ==> at[i] < k)
    requires !HasKey(hits[..k], VersionKey(hits[k]))
    ensures FirstAt(hits, out + [hits[k]], at + [k])
  {
    forall j | 0 <= j < k
      ensures hits[j].framework + "|" + hits[j].version != hits[k].framework + "|" + hits[k].version
    {
      assert VersionKey(hits[..k][j]) != VersionKey(hits[k]);
    }
    assert FirstOfVersion(hits, k);
    hide FirstOfVersion;
  }

  // bestHitPerFramework
  method BestHitPerFramework(hits: seq<Hit>) returns (out: seq<Hit>)
    ensures |out| <= |hits| && forall i :: 0 <= i < |out| ==> out[i] in hits
    ensures forall i, j :: 0 <= i < j < |out| ==> VersionKey(out[i]) != VersionKey(out[j])
    ensures forall key :: HasKey(out, key) <==> HasKey(hits, key)
    ensures IsFirstOfEach(hits, out)
  {
    out := [];
    ghost var at: seq<int> := [];
    var seen: set<string> := {};
    for k := 0 to |hits|
      invariant |out| <= k
      invariant forall key :: key in seen <==> HasKey(out, key)
      invariant forall key :: HasKey(out, key) <==> HasKey(hits[..k], key)
      invariant FirstAt(hits, out, at) && forall i :: 0 <= i < |at| ==> at[i] < k
    {
      var h := hits[k];
      assert hits[..k + 1] == hits[..k] + [h];
      KeyAppend(hits[..k], h);
      KeyAppend(out, h);
      hide HasKey, VersionKey, FirstAt, IsFirstOfEach, FirstOfVersion;
      if VersionKey(h) !in seen {
        NextFirst(hits, out, at, k);
        at := at + [k];
        out := out + [h];
        seen := seen + {VersionKey(h)};
      }
    }
    assert hits[..|hits|] == hits;
    FirstsAreDistinct(hits, out, at);
  }

  lemma FirstsAreDistinct(hits: seq<Hit>, out: seq<Hit>, at: seq<int>)
    requires FirstAt(hits, out, at)
    ensures forall i :: 0 <= i < |out| ==> out[i] in hits
    ensures forall i, j :: 0 <= i < j < |out| ==> VersionKey(out[i]) != VersionKey(out[j])
  {
    forall i, j | 0 <= i < j < |out|
      ensures VersionKey(out[i]) != VersionKey(out[j])
    {
      assert FirstOfVersion(hits, at[j]) && at[i] < at[j];
    }
  }

  // --- The whole list ---

  lemma TakeKeepsDistinct(hits: seq<Hit>, n: nat)
    requires NoRepeatedChunk(hits)
    ensures NoRepeatedChunk(Take(hits, n)) && |Take(hits, n)| <= n
  {
  }

  lemma MergedFacts(pinned: seq<Hit>, fused: seq<Hit>, room: nat)
    requires NoRepeatedChunk(pinned) && NoRepeatedChunk(fused)
    ensures NoRepeatedChunk(pinned + Take(Without(fused, pinned), room))
    ensures |pinned + Take(Without(fused, pinned), room)| <= |pinned| + room
  {
    WithoutFacts(fused, pinned);
    var rest := Take(Without(fused, pinned), room);
    TakeKeepsDistinct(Without(fused, pinned), room);
    forall i, j | 0 <= i < |pinned| && 0 <= j < |rest|
      ensures pinned[i].chunkId != rest[j].chunkId
    {
      assert HasChunk(pinned, pinned[i].chunkId);
    }
  }

  lemma PermutedChunksStayDistinct(a: seq<Hit>, b: seq<Hit>)
    requires multiset(a) == multiset(b) && NoRepeatedChunk(b)
    ensures NoRepeatedChunk(a)
  {
    forall i, j | 0 <= i < j < |a|
      ensures a[i].chunkId != a[j].chunkId
    {
      TwoPlaces(a, b, i, j);
    }
  }

  lemma TwiceInBag(s: seq<Hit>, i: nat, j: nat)
    requires i < j < |s| && s[i] == s[j]
    ensures multiset(s)[s[i]] >= 2
  {
    assert s == s[..j] + [s[j]] + s[j + 1..];
    assert s[..j][i] in multiset(s[..j]);
  }

  lemma OnceInBag(s: seq<Hit>, p: nat)
    requires NoRepeatedChunk(s) && p < |s|
    ensures multiset(s)[s[p]] == 1
  {
    assert s == s[..p] + [s[p]] + s[p + 1..];
    assert s[p] !in s[..p] && s[p] !in s[p + 1..];
  }

  lemma TwoPlaces(a: seq<Hit>, b: seq<Hit>, i: nat, j: nat)
    requires multiset(a) == multiset(b) && NoRepeatedChunk(b) && i < j < |a|
    ensures a[i].chunkId != a[j].chunkId
  {
    assert a[i] in multiset(b) && a[j] in multiset(b);
    var p :| 0 <= p < |b| && b[p] == a[i];
    var q :| 0 <= q < |b| && b[q] == a[j];
    OnceInBag(b, p);
    if p == q { TwiceInBag(a, i, j); }
  }

  function Capped(hydrated: seq<Hit>, docCap: int, hydrateK: nat): seq<Hit> {
    if docCap > 0 && hydrateK > 0 then Take(Within(hydrated, docCap) + Over(hydrated, docCap), hydrateK) else hydrated
  }

  // The document cap. No more hits come in than there are slots, so it only reorders;
  // without a cap there is nothing to cut off either.
  method CapHits(hydrated: seq<Hit>, docCap: int, hydrateK: nat) returns (hits: seq<Hit>)
    requires |hydrated| <= hydrateK && NoRepeatedChunk(hydrated)
    ensures hits == Capped(hydrated, docCap, hydrateK)
    ensures multiset(hits) == multiset(hydrated) && NoRepeatedChunk(hits)
  {
    hits := hydrated;
    if docCap > 0 && hydrateK > 0 {
      hits := CapPerFramework(hits, docCap, hydrateK);
      CapOnlyReorders(hydrated, docCap, hydrateK);
      PermutedChunksStayDistinct(hits, hydrated);
    }
  }

  function HydrateK(pinned: seq<Hit>, topK: int): int {
    if |pinned| == 0 then topK else if topK - |pinned| < 1 then 1 else topK - |pinned|
  }

  function Room(pinned: seq<Hit>, topK: int): nat {
    if topK > |pinned| then topK - |pinned| else 0
  }

  function Merged(pinned: seq<Hit>, hits: seq<Hit>, topK: int): seq<Hit> {
    if |pinned| == 0 then hits else pinned + Take(Without(hits, pinned), Room(pinned, topK))
  }

  // Pinned hits in front, if there are any.
  method PinFirst(pinned: seq<Hit>, hits: seq<Hit>, topK: int) returns (out: seq<Hit>)
    requires topK >= 1 && NoRepeatedChunk(pinned) && NoRepeatedChunk(hits) && (|pinned| == 0 ==> |hits| <= topK)
    ensures out == Merged(pinned, hits, topK)
    ensures pinned <= out && NoRepeatedChunk(out) && |out| <= (if topK > |pinned| then topK else |pinned|)
  {
    out := hits;
    if |pinned| > 0 {
      MergedFacts(pinned, hits, Room(pinned, topK));
      out := MergePinned(pinned, hits, topK);
    }
  }

  // The answer: capped, behind the pinned hits, with non-current versions at the end.
  function Answer(pinned: seq<Hit>, hydrated: seq<Hit>, nonCurrent: seq<Hit>, docCap: int, topK: int): seq<Hit>
    requires HydrateK(pinned, topK) >= 0
  {
    Appended(Merged(pinned, Capped(hydrated, docCap, HydrateK(pinned, topK)), topK), nonCurrent)
  }

  // The part of searchHits after hydration. Pinned hits stay in front, no chunk comes
  // twice, and the list is at most three longer than the larger of topK and the pinned;
  // without pinned hits it starts with all that was hydrated.
  method Assemble(pinned: seq<Hit>, hydrated: seq<Hit>, nonCurrent: seq<Hit>, docCap: int, topK: int)
    returns (hits: seq<Hit>)
    requires topK >= 1 && |nonCurrent| <= 3
    requires NoRepeatedChunk(pinned) && NoRepeatedChunk(hydrated)
    requires |hydrated| <= if |pinned| == 0 then topK else if topK > |pinned| then topK - |pinned| else 1
    ensures hits == Answer(pinned, hydrated, nonCurrent, docCap, topK)
    ensures pinned <= hits && NoRepeatedChunk(hits)
    ensures |hits| <= (if topK > |pinned| then topK else |pinned|) + 3
    ensures |pinned| == 0 ==> |hydrated| <= |hits| && multiset(hits[..|hydrated|]) == multiset(hydrated)
  {
    var capped := CapHits(hydrated, docCap, HydrateK(pinned, topK));
    assert |capped| == |multiset(capped)| == |multiset(hydrated)| == |hydrated|;
    var merged := PinFirst(pinned, capped, topK);
    hits := AppendNonCurrent(merged, nonCurrent);
    assert |pinned| == 0 ==> hits[..|hydrated|] == capped;
  }

  lemma {:induction false} WithoutFrom(hits: seq<Hit>, others: seq<Hit>)
    ensures forall h :: h in Without(hits, others) ==> h in hits
    decreases |hits|
  {
    if hits != [] {
      WithoutFrom(hits[..|hits| - 1], others);
      assert hits == hits[..|hits| - 1] + [hits[|hits| - 1]];
    }
  }

  lemma CappedFrom(hydrated: seq<Hit>, docCap: int, hydrateK: nat)
    ensures forall h :: h in Capped(hydrated, docCap, hydrateK) ==> h in hydrated
  {
    if docCap > 0 && hydrateK > 0 {
      CapSplits(hydrated, docCap);
      var all := Within(hydrated, docCap) + Over(hydrated, docCap);
      assert multiset(all) == multiset(hydrated);
      forall h | h in Take(all, hydrateK)
        ensures h in hydrated
      {
        assert h in multiset(all);
      }
    }
  }

  // Behind the pinned hits come hydrated and non-current ones only.
  lemma {:induction false} AnswerComesFrom(pinned: seq<Hit>, hydrated: seq<Hit>, nonCurrent: seq<Hit>, docCap: int,
                                           topK: int, i: nat)
    requires HydrateK(pinned, topK) >= 0
    ensures pinned <= Answer(pinned, hydrated, nonCurrent, docCap, topK)
    ensures |pinned| <= i < |Answer(pinned, hydrated, nonCurrent, docCap, topK)| ==>
              Answer(pinned, hydrated, nonCurrent, docCap, topK)[i] in hydrated + nonCurrent
  {
    var capped := Capped(hydrated, docCap, HydrateK(pinned, topK));
    var merged := Merged(pinned, capped, topK);
    CappedFrom(hydrated, docCap, HydrateK(pinned, topK));
    WithoutFrom(capped, pinned);
    AppendedFrom(merged, nonCurrent);
    assert forall j :: |pinned| <= j < |merged| ==> merged[j] in capped;
  }

  // --- TopScore ---

  // The largest score below 1, or 0.
  ghost predicate IsTopScore(hits: seq<Hit>, top: real) {
    && top >= 0.0 && (forall i :: 0 <= i < |hits| && hits[i].score < 1.0 ==> hits[i].score <= top)
    && (top == 0.0 || exists i :: 0 <= i < |hits| && hits[i].score < 1.0 && hits[i].score == top)
  }

  method TopScore(hits: seq<Hit>) returns (top: real)
    ensures IsTopScore(hits, top)
  {
    top := 0.0;
    for k := 0 to |hits|
      invariant top >= 0.0 && forall i :: 0 <= i < k && hits[i].score < 1.0 ==> hits[i].score <= top
      invariant top == 0.0 || exists i :: 0 <= i < k && hits[i].score < 1.0 && hits[i].score == top
    {
      if hits[k].score < 1.0 && hits[k].score > top { top := hits[k].score; }
    }
  }

  // With the weight below k no fused score reaches a pinned hit's 1.0.
  lemma {:induction false} FusedScoresAreBelowPinned(v: seq<Ranked>, b: seq<Ranked>, k: int, w: real, id: int)
    requires k > 0 && w >= 0.0 && NoRepeats(v) && NoRepeats(b) && w < k as real
    ensures 0.0 <= Fusion.Hit(v, b, k, w, id).score < 1.0
  {
    ScoreCeiling(v, b, k, w, id);
    var d := (k + 1) as real;
    QuotientBelowOne(1.0 + w, d);
  }

  lemma SingleRow(r: Ranked, w: real, k: int)
    requires k > 0 && r.rank > 0
    ensures ArmScore([r], r.chunkId, w, k) == w / (k + r.rank) as real
  {
    assert [r][..0] == [];
    assert ArmScore([r], r.chunkId, w, k) == 0.0 + Share(w, k, r.rank);
  }

  // The bound on the weight is exact: at w equal to k a chunk first in both arms
  // reaches 1.0 and is taken for a pinned hit.
  lemma {:induction false} FirstInBothArms(k: int, w: real, id: int)
    requires k > 0 && w >= 0.0
    ensures var arm := [Ranked(id, 1, 0.0, 0.0)];
            Fusion.Hit(arm, arm, k, w, id).score < 1.0 <==> w < k as real
  {
    var arm := [Ranked(id, 1, 0.0, 0.0)];
    var d := (k + 1) as real;
    SingleRow(arm[0], 1.0, k);
    SingleRow(arm[0], w, k);
    hide ArmScore;
    AddQuotients(1.0, w, d);
    QuotientBelowOne(1.0 + w, d);
  }

  // The hits carry the scores of this fusion.
  ghost predicate Fused(hits: seq<Hit>, v: seq<Ranked>, b: seq<Ranked>, k: int, w: real)
    requires k > 0
  {
    forall h :: h in hits ==> h.score == Fusion.Hit(v, b, k, w, h.chunkId).score
  }

  // The top is the largest score behind the first n hits, 0 if there are none.
  ghost predicate IsTopBehind(hits: seq<Hit>, n: nat, top: real) {
    && (forall i :: n <= i < |hits| ==> hits[i].score <= top)
    && if n < |hits| then exists i :: n <= i < |hits| && hits[i].score == top else top == 0.0
  }

  lemma TopIsBehindPinned(hits: seq<Hit>, n: nat, top: real)
    requires n <= |hits| && forall i :: 0 <= i < n ==> hits[i].score == 1.0
    requires forall i :: n <= i < |hits| ==> 0.0 <= hits[i].score < 1.0
    ensures IsTopScore(hits, top) <==> IsTopBehind(hits, n, top)
  {
    if n < |hits| && IsTopScore(hits, top) && top == 0.0 { assert hits[n].score == top; }
  }

  // The score a search reports is the largest of exactly the hits that are not pinned:
  // those of the two arms' fusion and of the non-current fusion, which has weight 1.
  lemma {:induction false} ReportedScoreIsLargestUnpinned(pinned: seq<Hit>, hydrated: seq<Hit>, nonCurrent: seq<Hit>,
                                                          docCap: int, topK: int, v: seq<Ranked>, b: seq<Ranked>,
                                                          k: int, w: real, v2: seq<Ranked>, b2: seq<Ranked>, top: real)
    requires HydrateK(pinned, topK) >= 0 && forall h :: h in pinned ==> h.score == 1.0
    requires k > 1 && 0.0 <= w < k as real && NoRepeats(v) && NoRepeats(b) && NoRepeats(v2) && NoRepeats(b2)
    requires Fused(hydrated, v, b, k, w) && Fused(nonCurrent, v2, b2, k, 1.0)
    ensures IsTopScore(Answer(pinned, hydrated, nonCurrent, docCap, topK), top)
       <==> IsTopBehind(Answer(pinned, hydrated, nonCurrent, docCap, topK), |pinned|, top)
  {
    var hits := Answer(pinned, hydrated, nonCurrent, docCap, topK);
    AnswerComesFrom(pinned, hydrated, nonCurrent, docCap, topK, 0);
    forall i | |pinned| <= i < |hits|
      ensures 0.0 <= hits[i].score < 1.0
    {
      AnswerComesFrom(pinned, hydrated, nonCurrent, docCap, topK, i);
      if hits[i] in hydrated {
        FusedScoresAreBelowPinned(v, b, k, w, hits[i].chunkId);
      } else {
        FusedScoresAreBelowPinned(v2, b2, k, 1.0, hits[i].chunkId);
      }
    }
    forall i | 0 <= i < |pinned|
      ensures hits[i].score == 1.0
    {
      assert hits[i] == pinned[i] && pinned[i] in pinned;
    }
    TopIsBehindPinned(hits, |pinned|, top);
  }
}
