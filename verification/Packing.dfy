// The embedding kernel's batch packer: texts in order of length are packed greedily
// under integer memory budgets, and the batches are dealt to one thread per GPU.
module Packing {

  const MAX_LENGTH: nat := 8192
  const PAD_STEP: nat := 128
  const TOKEN_BUDGET: nat := 131072
  const ATTN_MASK_BUDGET: nat := 50_000_000

  function Max(a: int, b: int): int {
    if a > b then a else b
  }

  function Min(a: int, b: int): int {
    if a < b then a else b
  }

  // --- Arithmetic ---

  // The least multiple of PAD_STEP that fits the length, at most MAX_LENGTH.
  function RoundPad(length: nat): (pad: nat)
    ensures 128 <= pad <= 8192 && pad % 128 == 0
    ensures length <= 8192 ==> length <= pad
    ensures pad == 128 || pad < length + 128
  {
    Min((Max(length, 1) + PAD_STEP - 1) / PAD_STEP * PAD_STEP, MAX_LENGTH)
  }

  lemma RoundPadIsMonotone(a: nat, b: nat)
    requires a <= b
    ensures RoundPad(a) <= RoundPad(b)
  {
    var x, y := (Max(a, 1) + PAD_STEP - 1) / PAD_STEP, (Max(b, 1) + PAD_STEP - 1) / PAD_STEP;
    assert x <= y;
  }

  function CountFor(pad: nat, gpus: nat): (count: nat)
    requires pad > 0 && gpus > 0
    ensures count >= 1
  {
    Max(1, Min(TOKEN_BUDGET / gpus / pad, ATTN_MASK_BUDGET / (pad * pad)))
  }

  lemma DivTimes(budget: nat, unit: nat, count: nat)
    requires unit > 0 && count <= budget / unit
    ensures count * unit <= budget
  {
    assert count * unit <= budget / unit * unit;
  }

  // More than one row is allowed only within both budgets.
  lemma {:induction false} CountKeepsBudgets(pad: nat, gpus: nat, count: nat)
    requires pad > 0 && gpus > 0 && 1 < count <= CountFor(pad, gpus)
    ensures count * pad * gpus <= 131072 && count * (pad * pad) <= 50_000_000
  {
    DivTimes(TOKEN_BUDGET / gpus, pad, count);
    DivTimes(TOKEN_BUDGET, gpus, count * pad);
    DivTimes(ATTN_MASK_BUDGET, pad * pad, count);
  }

  // And no count above it, but one, is within both.
  lemma {:induction false} CountIsLargest(pad: nat, gpus: nat, count: nat)
    requires pad > 0 && gpus > 0 && count > CountFor(pad, gpus)
    ensures count * pad > 131072 / gpus || count * (pad * pad) > 50_000_000
  {
    if count > TOKEN_BUDGET / gpus / pad {
      OverDiv(TOKEN_BUDGET / gpus, pad, count);
    } else {
      OverDiv(ATTN_MASK_BUDGET, pad * pad, count);
    }
  }

  lemma OverDiv(budget: nat, unit: nat, count: nat)
    requires unit > 0 && count > budget / unit
    ensures count * unit > budget
  {
    assert count * unit >= (budget / unit + 1) * unit;
  }

  // --- Greedy packing ---

  predicate InRange(lengths: seq<nat>, s: seq<nat>) {
    forall k :: 0 <= k < |s| ==> s[k] < |lengths|
  }

  // The length of a batch's longest text.
  function Longest(lengths: seq<nat>, batch: seq<nat>): nat
    requires InRange(lengths, batch)
  {
    if batch == [] then 0 else Max(Longest(lengths, batch[..|batch| - 1]), lengths[batch[|batch| - 1]])
  }

  predicate Sorted(lengths: seq<nat>, order: seq<nat>) {
    InRange(lengths, order) && forall j, k :: 0 <= j < k < |order| ==> lengths[order[j]] <= lengths[order[k]]
  }

  lemma {:induction false} LongestIsLast(lengths: seq<nat>, batch: seq<nat>)
    requires Sorted(lengths, batch) && batch != []
    ensures Longest(lengths, batch) == lengths[batch[|batch| - 1]]
    decreases |batch|
  {
    if |batch| > 1 { LongestIsLast(lengths, batch[..|batch| - 1]); }
  }

  lemma {:induction false} LongestFits(lengths: seq<nat>, batch: seq<nat>, k: nat)
    requires InRange(lengths, batch) && k < |batch|
    ensures lengths[batch[k]] <= Longest(lengths, batch)
    decreases |batch|
  {
    if k < |batch| - 1 { LongestFits(lengths, batch[..|batch| - 1], k); }
  }

  function Flatten(batches: seq<seq<nat>>): seq<nat> {
    if batches == [] then [] else Flatten(batches[..|batches| - 1]) + batches[|batches| - 1]
  }

  // A batch the kernel may run as it is: sorted, not empty, and no larger than the
  // count allowed for its pad.
  ghost predicate Sound(lengths: seq<nat>, gpus: nat, batch: seq<nat>)
    requires gpus > 0
  {
    batch != [] && Sorted(lengths, batch) && |batch| <= CountFor(RoundPad(Longest(lengths, batch)), gpus)
  }

  ghost predicate AllSound(lengths: seq<nat>, gpus: nat, batches: seq<seq<nat>>)
    requires gpus > 0
  {
    forall b :: 0 <= b < |batches| ==> Sound(lengths, gpus, batches[b])
  }

  lemma AppendIsSound(lengths: seq<nat>, gpus: nat, batch: seq<nat>, i: nat)
    requires gpus > 0 && Sorted(lengths, batch + [i]) && i < |lengths|
    requires batch == [] || |batch| + 1 <= CountFor(RoundPad(lengths[i]), gpus)
    ensures Sound(lengths, gpus, batch + [i])
  {
    LongestIsLast(lengths, batch + [i]);
  }

  lemma FlattenAppend(batches: seq<seq<nat>>, batch: seq<nat>)
    ensures Flatten(batches + [batch]) == Flatten(batches) + batch
  {
    assert (batches + [batch])[..|batches|] == batches;
  }

  lemma SortedPart(lengths: seq<nat>, order: seq<nat>, from: nat, stop: nat)
    requires Sorted(lengths, order) && from <= stop <= |order|
    ensures Sorted(lengths, order[from..stop])
  {
  }

  // A batch was closed because its next text no longer fitted.
  ghost predicate Closed(lengths: seq<nat>, gpus: nat, batch: seq<nat>, next: seq<nat>)
    requires gpus > 0
  {
    next != [] && next[0] < |lengths| && |batch| + 1 > CountFor(RoundPad(lengths[next[0]]), gpus)
  }

  ghost predicate AllClosed(lengths: seq<nat>, gpus: nat, batches: seq<seq<nat>>)
    requires gpus > 0
  {
    forall b :: 0 <= b < |batches| - 1 ==> Closed(lengths, gpus, batches[b], batches[b + 1])
  }

  lemma ClosedByNext(lengths: seq<nat>, gpus: nat, batches: seq<seq<nat>>, current: seq<nat>, i: nat)
    requires gpus > 0 && i < |lengths| && current != [] && AllClosed(lengths, gpus, batches + [current])
    ensures Full(lengths, gpus, current, i) ==> AllClosed(lengths, gpus, batches + [current] + [[i]])
    ensures AllClosed(lengths, gpus, batches + [current + [i]])
  {
    hide CountFor, RoundPad;
    var more := batches + [current] + [[i]];
    forall b | 0 <= b < |more| - 1 && Full(lengths, gpus, current, i)
      ensures Closed(lengths, gpus, more[b], more[b + 1])
    {
      if b < |batches| { assert Closed(lengths, gpus, (batches + [current])[b], (batches + [current])[b + 1]); }
    }
    var longer := batches + [current + [i]];
    forall b | 0 <= b < |longer| - 1
      ensures Closed(lengths, gpus, longer[b], longer[b + 1])
    {
      assert Closed(lengths, gpus, (batches + [current])[b], (batches + [current])[b + 1]);
    }
  }

  // The loop's state before index k: closed batches, then the current one, which is
  // the stretch of the order from some index on.
  ghost predicate Packing(lengths: seq<nat>, order: seq<nat>, gpus: nat, batches: seq<seq<nat>>, current: seq<nat>,
                          k: nat)
    requires gpus > 0
  {
    && |current| <= k <= |order| && current == order[k - |current|..k]
    && Flatten(batches) == order[..k - |current|]
    && AllSound(lengths, gpus, batches) && (current != [] ==> Sound(lengths, gpus, current))
  }

  lemma CloseBatch(lengths: seq<nat>, order: seq<nat>, gpus: nat, batches: seq<seq<nat>>, current: seq<nat>, k: nat)
    requires gpus > 0 && Packing(lengths, order, gpus, batches, current, k) && current != []
    ensures Packing(lengths, order, gpus, batches + [current], [], k)
  {
    FlattenAppend(batches, current);
    assert order[..k - |current|] + order[k - |current|..k] == order[..k];
  }

  lemma ExtendBatch(lengths: seq<nat>, order: seq<nat>, gpus: nat, batches: seq<seq<nat>>, current: seq<nat>, k: nat)
    requires gpus > 0 && Packing(lengths, order, gpus, batches, current, k) && k < |order| && Sorted(lengths, order)
    requires current == [] || |current| + 1 <= CountFor(RoundPad(lengths[order[k]]), gpus)
    ensures Packing(lengths, order, gpus, batches, current + [order[k]], k + 1)
  {
    var next := current + [order[k]];
    assert next == order[k + 1 - |next|..k + 1];
    SortedPart(lengths, order, k + 1 - |next|, k + 1);
    AppendIsSound(lengths, gpus, current, order[k]);
  }

  predicate Full(lengths: seq<nat>, gpus: nat, current: seq<nat>, i: nat)
    requires gpus > 0 && i < |lengths|
  {
    current != [] && |current| + 1 > CountFor(RoundPad(lengths[i]), gpus)
  }

  lemma PackStep(lengths: seq<nat>, order: seq<nat>, gpus: nat, batches: seq<seq<nat>>, current: seq<nat>, k: nat)
    requires gpus > 0 && Packing(lengths, order, gpus, batches, current, k) && k < |order| && Sorted(lengths, order)
    ensures if Full(lengths, gpus, current, order[k])
            then Packing(lengths, order, gpus, batches + [current], [order[k]], k + 1)
            else Packing(lengths, order, gpus, batches, current + [order[k]], k + 1)
  {
    if Full(lengths, gpus, current, order[k]) {
      CloseBatch(lengths, order, gpus, batches, current, k);
      ExtendBatch(lengths, order, gpus, batches + [current], [], k);
      assert [] + [order[k]] == [order[k]];
    } else {
      ExtendBatch(lengths, order, gpus, batches, current, k);
    }
  }

  lemma PackEnd(lengths: seq<nat>, order: seq<nat>, gpus: nat, batches: seq<seq<nat>>, current: seq<nat>)
    requires gpus > 0 && Packing(lengths, order, gpus, batches, current, |order|)
    ensures var all := if current != [] then batches + [current] else batches;
            Flatten(all) == order && AllSound(lengths, gpus, all)
  {
    assert order[..|order|] == order;
    if current != [] { CloseBatch(lengths, order, gpus, batches, current, |order|); }
  }

  // The packing loop over the indices in order of length.
  method Pack(lengths: seq<nat>, order: seq<nat>, gpus: nat) returns (batches: seq<seq<nat>>)
    requires gpus > 0 && forall k :: 0 <= k < |order| ==> order[k] < |lengths|
    requires forall j, k :: 0 <= j < k < |order| ==> lengths[order[j]] <= lengths[order[k]]
    ensures Flatten(batches) == order && AllSound(lengths, gpus, batches) && AllClosed(lengths, gpus, batches)
  {
    batches := [];
    var current: seq<nat> := [];
    assert Sorted(lengths, order);
    for k := 0 to |order|
      invariant Packing(lengths, order, gpus, batches, current, k)
      invariant AllClosed(lengths, gpus, batches + [current]) && (current == [] ==> batches == [])
    {
      hide Packing, Sorted, RoundPad, CountFor, Closed;
      var i := order[k];
      if current != [] { ClosedByNext(lengths, gpus, batches, current, i); }
      PackStep(lengths, order, gpus, batches, current, k);
      var newPad := RoundPad(lengths[i]);
      if current != [] && |current| + 1 > CountFor(newPad, gpus) {
        batches := batches + [current];
        current := [i];
      } else {
        current := current + [i];
      }
    }
    PackEnd(lengths, order, gpus, batches, current);
    hide Closed, Sound, Sorted;
    if current != [] {
      batches := batches + [current];
    }
  }

  // What a sound batch needs at run time: no row is cut off, every text fits the pad,
  // and more than one text means both budgets hold.
  lemma {:induction false} SoundBatchRuns(lengths: seq<nat>, gpus: nat, batch: seq<nat>, k: nat)
    requires gpus > 0 && Sound(lengths, gpus, batch) && k < |batch|
    ensures Min(CountFor(RoundPad(Longest(lengths, batch)), gpus), |batch|) == |batch|
    ensures lengths[batch[k]] <= 8192 ==> lengths[batch[k]] <= RoundPad(Longest(lengths, batch))
    ensures |batch| > 1 ==> |batch| * RoundPad(Longest(lengths, batch)) * gpus <= 131072
    ensures |batch| > 1 ==>
              |batch| * (RoundPad(Longest(lengths, batch)) * RoundPad(Longest(lengths, batch))) <= 50_000_000
  {
    var pad := RoundPad(Longest(lengths, batch));
    if |batch| > 1 { CountKeepsBudgets(pad, gpus, |batch|); }
    LongestFits(lengths, batch, k);
    RoundPadIsMonotone(lengths[batch[k]], Longest(lengths, batch));
  }

  // --- Where each text ended up ---

  lemma {:induction false} FindBatch(batches: seq<seq<nat>>, i: nat) returns (b: nat, row: nat)
    requires i in Flatten(batches)
    ensures b < |batches| && row < |batches[b]| && batches[b][row] == i
    decreases |batches|
  {
    var n := |batches| - 1;
    if i in batches[n] {
      b := n;
      row :| 0 <= row < |batches[n]| && batches[n][row] == i;
    } else {
      b, row := FindBatch(batches[..n], i);
    }
  }

  // Offset of batch b in the flattened order.
  function Offset(batches: seq<seq<nat>>, b: nat): nat
    requires b <= |batches|
  {
    if b == 0 then 0 else Offset(batches, b - 1) + |batches[b - 1]|
  }

  lemma {:induction false} PlaceInOrder(batches: seq<seq<nat>>, n: nat, b: nat, row: nat)
    requires b < n <= |batches| && row < |batches[b]|
    ensures |Flatten(batches[..n])| == Offset(batches, n)
    ensures Offset(batches, b) + row < Offset(batches, n)
      && Flatten(batches[..n])[Offset(batches, b) + row] == batches[b][row]
    ensures Offset(batches, b) + |batches[b]| <= Offset(batches, n)
    decreases n
  {
    assert batches[..n][..n - 1] == batches[..n - 1];
    if b < n - 1 {
      PlaceInOrder(batches, n - 1, b, row);
    } else {
      FlattenLength(batches, n - 1);
    }
  }

  lemma {:induction false} FlattenLength(batches: seq<seq<nat>>, n: nat)
    requires n <= |batches|
    ensures |Flatten(batches[..n])| == Offset(batches, n)
  {
    if n > 0 {
      assert batches[..n][..n - 1] == batches[..n - 1];
      FlattenLength(batches, n - 1);
    }
  }

  lemma {:induction false} OffsetGrows(batches: seq<seq<nat>>, b: nat, c: nat)
    requires b < c <= |batches|
    ensures Offset(batches, b) + |batches[b]| <= Offset(batches, c)
    decreases c
  {
    if b < c - 1 { OffsetGrows(batches, b, c - 1); }
  }

  ghost predicate Distinct(order: seq<nat>) {
    forall j, k :: 0 <= j < k < |order| ==> order[j] != order[k]
  }

  // No text is in two batches, or twice in one.
  lemma OnePlaceOnly(batches: seq<seq<nat>>, b: nat, row: nat, c: nat, other: nat)
    requires Distinct(Flatten(batches))
    requires b < |batches| && row < |batches[b]| && c < |batches| && other < |batches[c]|
    requires batches[b][row] == batches[c][other]
    ensures b == c && row == other
  {
    assert batches[..|batches|] == batches;
    PlaceInOrder(batches, |batches|, b, row);
    PlaceInOrder(batches, |batches|, c, other);
    if b < c {
      OffsetGrows(batches, b, c);
    } else if c < b {
      OffsetGrows(batches, c, b);
    }
  }
}
