// The packed batches dealt to one thread per GPU, whose result writes interleave
// freely: when every thread is through, every text has the vector of its own row.
module Shards {
  import opened Grants
  import opened Packing

  type Batches = seq<seq<nat>>

  // A row of a batch.
  datatype Cell = Cell(batch: int, row: int)

  predicate IsCell(batches: Batches, c: Cell) {
    0 <= c.batch < |batches| && 0 <= c.row < |batches[c.batch]|
  }

  predicate At(batches: Batches, c: Cell, i: int) {
    IsCell(batches, c) && batches[c.batch][c.row] == i
  }

  ghost predicate Placed(batches: Batches, i: int) {
    exists c :: At(batches, c, i)
  }

  // Every text index below n has exactly one cell, and there are no others.
  ghost predicate Placement(batches: Batches, n: nat) {
    && (forall i :: 0 <= i < n ==> Placed(batches, i))
    && (forall i, c, d :: At(batches, c, i) && At(batches, d, i) ==> c == d)
    && (forall i, c :: At(batches, c, i) ==> i < n)
  }

  // batches.reverse()
  function Reversed(batches: Batches): Batches {
    seq(|batches|, b requires 0 <= b < |batches| => batches[|batches| - 1 - b])
  }

  ghost predicate Permutation(order: seq<nat>, n: nat) {
    && Distinct(order) && (forall k :: 0 <= k < |order| ==> order[k] < n) && (forall i: nat :: i < n ==> i in order)
  }

  lemma PackedPlacement(batches: Batches, n: nat)
    requires Permutation(Flatten(batches), n)
    ensures Placement(batches, n)
  {
    forall i | 0 <= i < n
      ensures Placed(batches, i)
    {
      var b, row := FindBatch(batches, i);
      assert At(batches, Cell(b, row), i);
    }
    forall i, c, d | At(batches, c, i) && At(batches, d, i)
      ensures c == d
    {
      OnePlaceOnly(batches, c.batch, c.row, d.batch, d.row);
    }
    forall i, c | At(batches, c, i)
      ensures i < n
    {
      assert batches[..|batches|] == batches;
      PlaceInOrder(batches, |batches|, c.batch, c.row);
    }
  }

  lemma ReversedAt(batches: Batches, c: Cell, i: int)
    ensures At(Reversed(batches), c, i) <==> At(batches, Cell(|batches| - 1 - c.batch, c.row), i)
  {
  }

  lemma ReversedPlacement(batches: Batches, n: nat)
    requires Placement(batches, n)
    ensures Placement(Reversed(batches), n)
  {
    var r := Reversed(batches);
    forall i | 0 <= i < n
      ensures Placed(r, i)
    {
      assert Placed(batches, i);
      var c :| At(batches, c, i);
      ReversedAt(batches, Cell(|batches| - 1 - c.batch, c.row), i);
      assert At(r, Cell(|batches| - 1 - c.batch, c.row), i);
    }
    forall i, c, d | At(r, c, i) && At(r, d, i)
      ensures c == d
    {
      ReversedAt(batches, c, i);
      ReversedAt(batches, d, i);
    }
    forall i, c | At(r, c, i)
      ensures i < n
    {
      ReversedAt(batches, c, i);
    }
  }

  // Packing any ordering of the texts, and reversing the batches, places each text once.
  lemma {:induction false} PackedTextsArePlaced(order: seq<nat>, batches: Batches, n: nat)
    requires Permutation(order, n) && Flatten(batches) == order
    ensures Placement(Reversed(batches), n)
  {
    PackedPlacement(batches, n);
    ReversedPlacement(batches, n);
  }

  // --- Shards ---

  function Rows(b: nat, m: nat): seq<Cell> {
    seq(m, row => Cell(b, row))
  }

  // What thread dev has to write, in its order: the rows of every batch whose ordinal
  // is dev modulo the number of GPUs.
  function Shard(batches: Batches, gpus: nat, dev: nat, n: nat): seq<Cell>
    requires gpus > 0 && n <= |batches|
  {
    if n == 0 then []
    else Shard(batches, gpus, dev, n - 1) + if (n - 1) % gpus == dev then Rows(n - 1, |batches[n - 1]|) else []
  }

  function Dealt(batches: Batches, gpus: nat): seq<seq<Cell>>
    requires gpus > 0
  {
    seq(gpus, dev requires 0 <= dev < gpus => Shard(batches, gpus, dev, |batches|))
  }

  lemma {:induction false} ShardHasCells(batches: Batches, gpus: nat, dev: nat, n: nat, p: nat)
    requires gpus > 0 && n <= |batches| && p < |Shard(batches, gpus, dev, n)|
    ensures var c := Shard(batches, gpus, dev, n)[p]; IsCell(batches, c) && c.batch < n && c.batch % gpus == dev
  {
    if p < |Shard(batches, gpus, dev, n - 1)| {
      ShardHasCells(batches, gpus, dev, n - 1, p);
    }
  }

  // Every cell is in one shard: that of its batch's ordinal.
  lemma {:induction false} CellIsInShard(batches: Batches, gpus: nat, n: nat, c: Cell) returns (p: nat)
    requires gpus > 0 && n <= |batches| && IsCell(batches, c) && c.batch < n
    ensures p < |Shard(batches, gpus, c.batch % gpus, n)| && Shard(batches, gpus, c.batch % gpus, n)[p] == c
  {
    if c.batch < n - 1 {
      p := CellIsInShard(batches, gpus, n - 1, c);
    } else {
      p := |Shard(batches, gpus, c.batch % gpus, n - 1)| + c.row;
    }
  }

  // A shard has its cells in the order of batches and rows, each once.
  lemma {:induction false} ShardAscends(batches: Batches, gpus: nat, dev: nat, n: nat, p: nat, q: nat)
    requires gpus > 0 && n <= |batches| && p < q < |Shard(batches, gpus, dev, n)|
    ensures var c, d := Shard(batches, gpus, dev, n)[p], Shard(batches, gpus, dev, n)[q];
            c.batch < d.batch || (c.batch == d.batch && c.row < d.row)
  {
    var front := Shard(batches, gpus, dev, n - 1);
    if q < |front| {
      ShardAscends(batches, gpus, dev, n - 1, p, q);
    } else if p < |front| {
      ShardHasCells(batches, gpus, dev, n - 1, p);
    }
  }

  ghost predicate HasCells(batches: Batches, shards: seq<seq<Cell>>) {
    forall dev, p :: 0 <= dev < |shards| && 0 <= p < |shards[dev]| ==> IsCell(batches, shards[dev][p])
  }

  lemma DealtHasCells(batches: Batches, gpus: nat)
    requires gpus > 0
    ensures HasCells(batches, Dealt(batches, gpus))
  {
    var shards := Dealt(batches, gpus);
    forall dev, p | 0 <= dev < |shards| && 0 <= p < |shards[dev]|
      ensures IsCell(batches, shards[dev][p])
    {
      ShardHasCells(batches, gpus, dev, |batches|, p);
    }
  }

  // --- Threads ---

  // Each slot holds the cell its vector was computed from; pos counts a thread's writes.
  datatype Kernel = Kernel(results: seq<Option<Cell>>, pos: seq<nat>)

  function Begin(n: nat, gpus: nat): Kernel {
    Kernel(seq(n, _ => None), seq(gpus, _ => 0))
  }

  function Write(batches: Batches, results: seq<Option<Cell>>, c: Cell): seq<Option<Cell>> {
    if IsCell(batches, c) && batches[c.batch][c.row] < |results| then results[batches[c.batch][c.row] := Some(c)]
      else results
  }

  // One write of thread dev. A thread that is through, or has failed, has no more steps.
  function Step(batches: Batches, shards: seq<seq<Cell>>, k: Kernel, dev: nat): Kernel
    requires dev < |k.pos| == |shards|
  {
    if k.pos[dev] >= |shards[dev]| then k
    else Kernel(Write(batches, k.results, shards[dev][k.pos[dev]]), k.pos[dev := k.pos[dev] + 1])
  }

  function Execute(batches: Batches, shards: seq<seq<Cell>>, k: Kernel, schedule: seq<nat>): (end: Kernel)
    requires |k.pos| == |shards| && forall s :: 0 <= s < |schedule| ==> schedule[s] < |shards|
    ensures |end.results| == |k.results| && |end.pos| == |k.pos|
    decreases |schedule|
  {
    if schedule == [] then k else Execute(batches, shards, Step(batches, shards, k, schedule[0]), schedule[1..])
  }

  predicate Through(shards: seq<seq<Cell>>, k: Kernel) {
    |k.pos| == |shards| && forall dev :: 0 <= dev < |shards| ==> k.pos[dev] >= |shards[dev]|
  }

  predicate Written(batches: Batches, results: seq<Option<Cell>>, c: Cell) {
    IsCell(batches, c) && batches[c.batch][c.row] < |results| && results[batches[c.batch][c.row]] == Some(c)
  }

  // Everything a thread has written is still there.
  ghost predicate Kept(batches: Batches, shards: seq<seq<Cell>>, k: Kernel) {
    && |k.pos| == |shards|
    && forall dev, p :: 0 <= dev < |shards| && 0 <= p < |shards[dev]| && p < k.pos[dev] ==>
         Written(batches, k.results, shards[dev][p])
  }

  lemma WriteWrites(batches: Batches, results: seq<Option<Cell>>, c: Cell)
    requires Placement(batches, |results|) && IsCell(batches, c)
    ensures Written(batches, Write(batches, results, c), c)
  {
    assert At(batches, c, batches[c.batch][c.row]);
  }

  lemma WriteKeeps(batches: Batches, results: seq<Option<Cell>>, c: Cell, d: Cell)
    requires Placement(batches, |results|) && Written(batches, results, d)
    ensures Written(batches, Write(batches, results, c), d)
  {
    assert At(batches, d, batches[d.batch][d.row]);
    if IsCell(batches, c) && batches[c.batch][c.row] == batches[d.batch][d.row] {
      assert At(batches, c, batches[d.batch][d.row]);
    }
  }

  lemma StepKeepsKept(batches: Batches, shards: seq<seq<Cell>>, k: Kernel, dev: nat)
    requires dev < |shards| && Placement(batches, |k.results|) && HasCells(batches, shards) && Kept(batches, shards, k)
    ensures Kept(batches, shards, Step(batches, shards, k, dev))
  {
    if k.pos[dev] < |shards[dev]| {
      var c := shards[dev][k.pos[dev]];
      var next := Step(batches, shards, k, dev);
      WriteWrites(batches, k.results, c);
      forall d, p | 0 <= d < |shards| && 0 <= p < |shards[d]| && p < next.pos[d]
        ensures Written(batches, next.results, shards[d][p])
      {
        if p < k.pos[d] { WriteKeeps(batches, k.results, c, shards[d][p]); }
      }
    }
  }

  lemma {:induction false} ExecuteKeepsKept(batches: Batches, shards: seq<seq<Cell>>, k: Kernel, schedule: seq<nat>)
    requires Placement(batches, |k.results|) && HasCells(batches, shards) && Kept(batches, shards, k)
    requires forall s :: 0 <= s < |schedule| ==> schedule[s] < |shards|
    ensures Kept(batches, shards, Execute(batches, shards, k, schedule))
    decreases |schedule|
  {
    if schedule != [] {
      StepKeepsKept(batches, shards, k, schedule[0]);
      ExecuteKeepsKept(batches, shards, Step(batches, shards, k, schedule[0]), schedule[1..]);
    }
  }

  lemma CellIsDealt(batches: Batches, gpus: nat, c: Cell) returns (dev: nat, p: nat)
    requires gpus > 0 && IsCell(batches, c)
    ensures dev == c.batch % gpus && dev < gpus && p < |Dealt(batches, gpus)[dev]| && Dealt(batches, gpus)[dev][p] == c
  {
    dev := c.batch % gpus;
    p := CellIsInShard(batches, gpus, |batches|, c);
  }

  lemma ThroughMeansWritten(batches: Batches, shards: seq<seq<Cell>>, k: Kernel, dev: nat, p: nat)
    requires Kept(batches, shards, k) && Through(shards, k) && dev < |shards| && p < |shards[dev]|
    ensures Written(batches, k.results, shards[dev][p])
  {
  }

  // However the threads interleave, once all are through every slot holds the vector
  // computed from its own text's row.
  lemma {:induction false} EverySlotIsFilled(batches: Batches, n: nat, gpus: nat, schedule: seq<nat>, i: nat)
    requires gpus > 0 && Placement(batches, n) && i < n
    requires forall s :: 0 <= s < |schedule| ==> schedule[s] < gpus
    requires Through(Dealt(batches, gpus), Execute(batches, Dealt(batches, gpus), Begin(n, gpus), schedule))
    ensures var slot := Execute(batches, Dealt(batches, gpus), Begin(n, gpus), schedule).results[i];
            slot.Some? && At(batches, slot.value, i)
  {
    var shards := Dealt(batches, gpus);
    var end := Execute(batches, shards, Begin(n, gpus), schedule);
    DealtHasCells(batches, gpus);
    ExecuteKeepsKept(batches, shards, Begin(n, gpus), schedule);
    assert Placed(batches, i);
    var c :| At(batches, c, i);
    var dev, p := CellIsDealt(batches, gpus, c);
    ThroughMeansWritten(batches, shards, end, dev, p);
  }

  // --- When the threads are through ---

  lemma TurnCount(schedule: seq<nat>, dev: nat)
    requires schedule != []
    ensures multiset(schedule)[dev] == multiset(schedule[1..])[dev] + if schedule[0] == dev then 1 else 0
  {
    assert schedule == [schedule[0]] + schedule[1..];
  }

  // A thread gets as far as it has turns, up to its last row.
  lemma {:induction false} TurnsTaken(batches: Batches, shards: seq<seq<Cell>>, k: Kernel, schedule: seq<nat>, dev: nat)
    requires |k.pos| == |shards| && dev < |shards| && k.pos[dev] <= |shards[dev]|
    requires forall s :: 0 <= s < |schedule| ==> schedule[s] < |shards|
    ensures Execute(batches, shards, k, schedule).pos[dev]
         == Min(k.pos[dev] + multiset(schedule)[dev], |shards[dev]|)
    decreases |schedule|
  {
    if schedule != [] {
      TurnCount(schedule, dev);
      TurnsTaken(batches, shards, Step(batches, shards, k, schedule[0]), schedule[1..], dev);
    }
  }

  // All threads are through exactly when each has had a turn for every row dealt to it.
  lemma {:induction false} ThroughExactlyWithTurns(batches: Batches, n: nat, gpus: nat, schedule: seq<nat>)
    requires gpus > 0 && forall s :: 0 <= s < |schedule| ==> schedule[s] < gpus
    ensures Through(Dealt(batches, gpus), Execute(batches, Dealt(batches, gpus), Begin(n, gpus), schedule))
       <==> forall dev: nat :: dev < gpus ==> multiset(schedule)[dev] >= |Shard(batches, gpus, dev, |batches|)|
  {
    var shards := Dealt(batches, gpus);
    forall dev: nat | dev < gpus
      ensures Execute(batches, shards, Begin(n, gpus), schedule).pos[dev] >= |shards[dev]|
         <==> multiset(schedule)[dev] >= |Shard(batches, gpus, dev, |batches|)|
    {
      TurnsTaken(batches, shards, Begin(n, gpus), schedule, dev);
    }
    hide Execute, Shard;
  }
}
