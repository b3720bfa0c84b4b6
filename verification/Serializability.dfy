// Whole runs of concurrent transactions: every schedule is a serial run of the
// transactions that ended, in the order they ended; no schedule can get stuck.
module Serializability {
  import opened Grants
  import opened Interleaving
  import P = PostgresGrants

  // The rows after running the logged requests one after the other.
  ghost function RunSerially(pkce: Pkce, db: P.Tables, log: seq<Commit>): P.Tables
    decreases |log|
  {
    if log == [] then db
    else
      var last := log[|log| - 1];
      Serial(pkce, RunSerially(pkce, db, log[..|log| - 1]), last.req, last.now).db
  }

  ghost predicate RepliesAreSerial(pkce: Pkce, db: P.Tables, log: seq<Commit>) {
    forall k :: 0 <= k < |log| ==>
      log[k].reply == Serial(pkce, RunSerially(pkce, db, log[..k]), log[k].req, log[k].now).reply
  }

  // Every transaction that ended is in the log, once, with its request.
  ghost predicate LogsEnded(sys: Sys) {
    && (forall k :: 0 <= k < |sys.log| ==> sys.log[k].id < |sys.txs| && sys.txs[sys.log[k].id].phase.Finished?
                                           && sys.log[k].req == sys.txs[sys.log[k].id].req)
    && (forall k, m :: 0 <= k < m < |sys.log| ==> sys.log[k].id != sys.log[m].id)
    && (forall i :: 0 <= i < |sys.txs| && sys.txs[i].phase.Finished? ==>
        exists k :: 0 <= k < |sys.log| && sys.log[k].id == i)
  }

  ghost predicate Exclusive(sys: Sys) {
    && |sys.held| == |sys.txs|
    && (forall i, j :: 0 <= i < |sys.held| && 0 <= j < |sys.held| && i != j ==> sys.held[i] !! sys.held[j])
    && (forall i :: 0 <= i < |sys.txs| && HasAnchor(sys.txs[i]) ==> Anchor(sys.txs[i]) in sys.held[i])
  }

  // Generated names are new: unused in the tables and used by one request only.
  ghost predicate NewNames(sys: Sys) {
    && (forall i :: 0 <= i < |sys.txs| && !sys.txs[i].phase.Finished? ==> Unused(sys.db, Names(sys.txs[i].req)))
    && (forall i, j :: 0 <= i < |sys.txs| && 0 <= j < |sys.txs| && i != j ==>
        Names(sys.txs[i].req) !! Names(sys.txs[j].req))
  }

  ghost predicate Informed(pkce: Pkce, sys: Sys) {
    forall i :: 0 <= i < |sys.txs| ==> Knows(pkce, sys.db, sys.txs[i])
  }

  ghost predicate Serialized(pkce: Pkce, init: P.Tables, sys: Sys) {
    LogsEnded(sys) && sys.db == RunSerially(pkce, init, sys.log) && RepliesAreSerial(pkce, init, sys.log)
  }

  ghost predicate Inv(pkce: Pkce, init: P.Tables, sys: Sys) {
    Exclusive(sys) && NewNames(sys) && Informed(pkce, sys) && Serialized(pkce, init, sys)
  }

  // --- Advancing ---

  lemma AnchorIsLocked(pkce: Pkce, db: P.Tables, tx: Tx, now: Time)
    requires Knows(pkce, db, tx) && Statement(pkce, db, tx, now).Some?
    requires HasAnchor(Statement(pkce, db, tx, now).value)
    ensures var next := Statement(pkce, db, tx, now).value;
            if HasAnchor(tx) then Anchor(next) == Anchor(tx) else Anchor(next) in Wants(db, tx)
  {
  }

  lemma StatementKeepsRequest(pkce: Pkce, db: P.Tables, tx: Tx, now: Time)
    requires Statement(pkce, db, tx, now).Some?
    ensures Statement(pkce, db, tx, now).value.req == tx.req
    ensures !Statement(pkce, db, tx, now).value.phase.Finished?
  {
  }

  lemma AdvanceKeepsExclusive(pkce: Pkce, sys: Sys, i: nat, next: Tx)
    requires Exclusive(sys) && i < |sys.txs| && !Blocked(sys, i)
    requires HasAnchor(next) ==> Anchor(next) in sys.held[i] + Wants(sys.db, sys.txs[i])
    ensures Exclusive(Advance(sys, i, next))
  {
    forall j | 0 <= j < |sys.held| && j != i
      ensures sys.held[i] + Wants(sys.db, sys.txs[i]) !! sys.held[j]
    {
      assert Wants(sys.db, sys.txs[i]) !! sys.held[j];
    }
  }

  lemma AdvanceKeepsSerialized(pkce: Pkce, init: P.Tables, sys: Sys, i: nat, next: Tx)
    requires Serialized(pkce, init, sys) && i < |sys.txs| == |sys.held|
    requires !sys.txs[i].phase.Finished? && !next.phase.Finished? && next.req == sys.txs[i].req
    ensures Serialized(pkce, init, Advance(sys, i, next))
  {
    var end := Advance(sys, i, next);
    forall j | 0 <= j < |end.txs| && end.txs[j].phase.Finished?
      ensures exists k :: 0 <= k < |end.log| && end.log[k].id == j
    {
      assert sys.txs[j].phase.Finished?;
    }
  }

  lemma AdvanceKeepsInv(pkce: Pkce, init: P.Tables, sys: Sys, i: nat, now: Time)
    requires Inv(pkce, init, sys) && i < |sys.txs| && !Blocked(sys, i) && !sys.txs[i].phase.Finished?
    requires Statement(pkce, sys.db, sys.txs[i], now).Some?
    ensures Inv(pkce, init, Advance(sys, i, Statement(pkce, sys.db, sys.txs[i], now).value))
  {
    hide Serialized, Knows;
    var tx := sys.txs[i];
    var next := Statement(pkce, sys.db, tx, now).value;
    StatementKeepsKnows(pkce, sys.db, tx, now);
    StatementKeepsRequest(pkce, sys.db, tx, now);
    if HasAnchor(next) { AnchorIsLocked(pkce, sys.db, tx, now); }
    AdvanceKeepsExclusive(pkce, sys, i, next);
    AdvanceKeepsSerialized(pkce, init, sys, i, next);
  }

  // --- Ending ---

  lemma LogGrows(pkce: Pkce, init: P.Tables, log: seq<Commit>, c: Commit)
    requires RepliesAreSerial(pkce, init, log)
    requires c.reply == Serial(pkce, RunSerially(pkce, init, log), c.req, c.now).reply
    ensures RunSerially(pkce, init, log + [c]) == Serial(pkce, RunSerially(pkce, init, log), c.req, c.now).db
    ensures RepliesAreSerial(pkce, init, log + [c])
  {
    assert (log + [c])[..|log|] == log;
    forall k | 0 <= k < |log| + 1
      ensures (log + [c])[k].reply
        == Serial(pkce, RunSerially(pkce, init, (log + [c])[..k]), (log + [c])[k].req, (log + [c])[k].now).reply
    {
      if k < |log| { assert (log + [c])[..k] == log[..k]; }
    }
  }

  lemma EndKeepsLog(sys: Sys, i: nat, db: P.Tables, now: Time, reply: Reply)
    requires LogsEnded(sys) && i < |sys.txs| == |sys.held| && !sys.txs[i].phase.Finished?
    ensures LogsEnded(Finish(sys, i, db, now, reply))
  {
    var end := Finish(sys, i, db, now, reply);
    forall j | 0 <= j < |end.txs| && end.txs[j].phase.Finished?
      ensures exists k :: 0 <= k < |end.log| && end.log[k].id == j
    {
      if j == i {
        assert end.log[|sys.log|].id == j;
      } else {
        var k :| 0 <= k < |sys.log| && sys.log[k].id == j;
        assert end.log[k].id == j;
      }
    }
  }

  lemma EndKeepsExclusive(sys: Sys, i: nat, db: P.Tables, now: Time, reply: Reply)
    requires Exclusive(sys) && i < |sys.txs|
    ensures Exclusive(Finish(sys, i, db, now, reply))
  {
  }

  lemma EndKeepsNames(sys: Sys, i: nat, db: P.Tables, now: Time, reply: Reply)
    requires NewNames(sys) && i < |sys.txs| == |sys.held|
    requires OnlyAdds(sys.db, db, Names(sys.txs[i].req))
    ensures NewNames(Finish(sys, i, db, now, reply))
  {
    var end := Finish(sys, i, db, now, reply);
    forall j, n | 0 <= j < |end.txs| && !end.txs[j].phase.Finished? && n in Names(end.txs[j].req)
      ensures !InUse(db, n)
    {
      assert Unused(sys.db, Names(sys.txs[j].req));
      assert Names(sys.txs[j].req) !! Names(sys.txs[i].req);
    }
  }

  lemma EndKeepsSerialized(pkce: Pkce, init: P.Tables, sys: Sys, i: nat, db: P.Tables, now: Time, reply: Reply)
    requires Serialized(pkce, init, sys) && i < |sys.txs| == |sys.held| && !sys.txs[i].phase.Finished?
    requires Serial(pkce, sys.db, sys.txs[i].req, now) == P.Result(db, reply)
    ensures Serialized(pkce, init, Finish(sys, i, db, now, reply))
  {
    LogGrows(pkce, init, sys.log, Commit(i, sys.txs[i].req, now, reply));
    EndKeepsLog(sys, i, db, now, reply);
  }

  lemma EndKeepsInformed(pkce: Pkce, sys: Sys, i: nat, db: P.Tables, now: Time, reply: Reply)
    requires i < |sys.txs| == |sys.held|
    requires forall j :: 0 <= j < |sys.txs| && j != i ==> Knows(pkce, db, sys.txs[j])
    ensures Informed(pkce, Finish(sys, i, db, now, reply))
  {
  }

  lemma EndKeepsInv(pkce: Pkce, init: P.Tables, sys: Sys, i: nat, db: P.Tables, now: Time, reply: Reply)
    requires Inv(pkce, init, sys) && i < |sys.txs| && !sys.txs[i].phase.Finished?
    requires Serial(pkce, sys.db, sys.txs[i].req, now) == P.Result(db, reply)
    requires OnlyAdds(sys.db, db, Names(sys.txs[i].req))
    requires forall j :: 0 <= j < |sys.txs| && j != i ==> Knows(pkce, db, sys.txs[j])
    ensures Inv(pkce, init, Finish(sys, i, db, now, reply))
  {
    EndKeepsSerialized(pkce, init, sys, i, db, now, reply);
    EndKeepsInformed(pkce, sys, i, db, now, reply);
    EndKeepsExclusive(sys, i, db, now, reply);
    EndKeepsNames(sys, i, db, now, reply);
  }

  // The family a committing transaction writes.
  function Target(tx: Tx): string {
    if tx.req.Exchange? then tx.req.family else tx.family
  }

  lemma ReadyReadItsAnchor(pkce: Pkce, db: P.Tables, tx: Tx)
    requires HasAnchor(tx) && Knows(pkce, db, tx)
    ensures AnchorRead(db, tx)
  {
  }

  lemma CommitConfined(pkce: Pkce, db: P.Tables, tx: Tx)
    requires tx.phase.Ready? && Knows(pkce, db, tx) && Unused(db, Names(tx.req))
    ensures Confined(db, Serial(pkce, db, tx.req, tx.now).db, Spent(tx.req), Target(tx))
    ensures OnlyAdds(db, Serial(pkce, db, tx.req, tx.now).db, Names(tx.req))
  {
    ReadyReadItsAnchor(pkce, db, tx);
    match tx.req
    case Exchange(_, _, _, _, _, _, _) => ExchangeConfined(pkce, db, tx.req, tx.now);
    case Renew(token) => RenewConfined(pkce, db, token, tx.now);
    case Rotate(_, _, _, _, _) => RotateConfined(pkce, db, tx.req, tx.now);
    case Lookup(_) =>
  }

  lemma OthersAreElsewhere(pkce: Pkce, init: P.Tables, sys: Sys, i: nat, j: nat)
    requires Inv(pkce, init, sys) && i < |sys.txs| && j < |sys.txs| && i != j
    requires HasAnchor(sys.txs[i]) && HasAnchor(sys.txs[j])
    ensures if sys.txs[j].req.Exchange? then sys.txs[j].req.code !in Spent(sys.txs[i].req)
            else sys.txs[j].family != Target(sys.txs[i])
  {
    var tx, other := sys.txs[i], sys.txs[j];
    assert Anchor(tx) in sys.held[i] && Anchor(other) in sys.held[j];
    assert Anchor(tx) != Anchor(other) by { assert sys.held[i] !! sys.held[j]; }
    ReadyReadItsAnchor(pkce, sys.db, other);
    if tx.req.Exchange? && !other.req.Exchange? {
      assert FamilyName(tx.req.family) in Names(tx.req);
      assert !InUse(sys.db, FamilyName(tx.req.family));
    }
  }

  lemma CommitKeepsInv(pkce: Pkce, init: P.Tables, sys: Sys, i: nat)
    requires Inv(pkce, init, sys) && i < |sys.txs| && sys.txs[i].phase.Ready?
    ensures Inv(pkce, init, Finish(sys, i, ApplyWrites(sys.db, sys.txs[i].writes), sys.txs[i].now, sys.txs[i].reply))
  {
    var tx := sys.txs[i];
    var db := ApplyWrites(sys.db, tx.writes);
    CommitIsSerial(pkce, sys.db, tx);
    CommitConfined(pkce, sys.db, tx);
    forall j | 0 <= j < |sys.txs| && j != i
      ensures Knows(pkce, db, sys.txs[j])
    {
      if HasAnchor(sys.txs[j]) { OthersAreElsewhere(pkce, init, sys, i, j); }
      KnowledgeSurvives(pkce, sys.db, db, Spent(tx.req), Target(tx), sys.txs[j]);
    }
    EndKeepsInv(pkce, init, sys, i, db, tx.now, tx.reply);
  }

  lemma QuietEndKeepsInv(pkce: Pkce, init: P.Tables, sys: Sys, i: nat, now: Time, reply: Reply)
    requires Inv(pkce, init, sys) && i < |sys.txs| && !sys.txs[i].phase.Finished?
    requires Serial(pkce, sys.db, sys.txs[i].req, now) == P.Result(sys.db, reply)
    ensures Inv(pkce, init, Finish(sys, i, sys.db, now, reply))
  {
    EndKeepsInv(pkce, init, sys, i, sys.db, now, reply);
  }

  lemma StepKeepsInv(pkce: Pkce, init: P.Tables, sys: Sys, i: nat, now: Time)
    requires Inv(pkce, init, sys) && i < |sys.txs|
    ensures Inv(pkce, init, Step(pkce, sys, i, now))
  {
    var tx := sys.txs[i];
    if tx.phase.Finished? || Blocked(sys, i) {
    } else if tx.phase.Ready? {
      CommitKeepsInv(pkce, init, sys, i);
    } else if Statement(pkce, sys.db, tx, now).Some? {
      AdvanceKeepsInv(pkce, init, sys, i, now);
    } else if tx.req.Lookup? {
      QuietEndKeepsInv(pkce, init, sys, i, now, P.LookupToken(sys.db, tx.req.token, now).reply);
    } else {
      EarlyEndIsSerial(pkce, sys.db, tx, now);
      QuietEndKeepsInv(pkce, init, sys, i, tx.now, Rejected);
    }
  }

  lemma {:induction false} ExecuteKeepsInv(pkce: Pkce, init: P.Tables, sys: Sys, schedule: seq<(nat, Time)>)
    requires Inv(pkce, init, sys)
    requires forall k :: 0 <= k < |schedule| ==> schedule[k].0 < |sys.txs|
    ensures Inv(pkce, init, Execute(pkce, sys, schedule))
    decreases |schedule|
  {
    if schedule != [] {
      StepKeepsInv(pkce, init, sys, schedule[0].0, schedule[0].1);
      ExecuteKeepsInv(pkce, init, Step(pkce, sys, schedule[0].0, schedule[0].1), schedule[1..]);
    }
  }

  // --- Every run is a serial run ---

  // What callers supply: requests whose generated names are new and all different.
  ghost predicate Launchable(db: P.Tables, reqs: seq<Request>) {
    && (forall i :: 0 <= i < |reqs| ==> Unused(db, Names(reqs[i])))
    && (forall i, j :: 0 <= i < |reqs| && 0 <= j < |reqs| && i != j ==> Names(reqs[i]) !! Names(reqs[j]))
  }

  lemma LaunchHoldsInv(pkce: Pkce, db: P.Tables, reqs: seq<Request>)
    requires Launchable(db, reqs)
    ensures Inv(pkce, db, Launch(db, reqs))
  {
  }

  lemma {:induction false} EveryRunIsSerial(pkce: Pkce, db: P.Tables, reqs: seq<Request>, schedule: seq<(nat, Time)>)
    requires Launchable(db, reqs)
    requires forall k :: 0 <= k < |schedule| ==> schedule[k].0 < |reqs|
    ensures var end := Execute(pkce, Launch(db, reqs), schedule);
            && end.db == RunSerially(pkce, db, end.log)
            && RepliesAreSerial(pkce, db, end.log)
            && LogsEnded(end)
  {
    LaunchHoldsInv(pkce, db, reqs);
    ExecuteKeepsInv(pkce, db, Launch(db, reqs), schedule);
  }

  // --- At most one exchange per code ---

  lemma SerialAddsNoCode(pkce: Pkce, db: P.Tables, req: Request, now: Time)
    ensures Serial(pkce, db, req, now).db.codes.Keys <= db.codes.Keys
    ensures req.Exchange? ==> req.code !in Serial(pkce, db, req, now).db.codes
    ensures req.Exchange? && Serial(pkce, db, req, now).reply.Issued? ==> req.code in db.codes
  {
  }

  lemma {:induction false} SpentCodeStaysSpent(pkce: Pkce, db: P.Tables, log: seq<Commit>, k: nat, code: string)
    requires k < |log| && log[k].req.Exchange? && log[k].req.code == code
    ensures code !in RunSerially(pkce, db, log).codes
    decreases |log|
  {
    var n := |log| - 1;
    SerialAddsNoCode(pkce, RunSerially(pkce, db, log[..n]), log[n].req, log[n].now);
    if k < n {
      assert log[..n][k] == log[k];
      SpentCodeStaysSpent(pkce, db, log[..n], k, code);
    }
  }

  lemma LaterExchangeFails(pkce: Pkce, db: P.Tables, log: seq<Commit>, k: nat, m: nat)
    requires RepliesAreSerial(pkce, db, log) && k < m < |log|
    requires log[k].req.Exchange? && log[m].req.Exchange? && log[k].req.code == log[m].req.code
    ensures !log[m].reply.Issued?
  {
    assert log[..m][k] == log[k];
    SpentCodeStaysSpent(pkce, db, log[..m], k, log[k].req.code);
    SerialAddsNoCode(pkce, RunSerially(pkce, db, log[..m]), log[m].req, log[m].now);
  }

  lemma {:induction false} OneGrantPerCode(pkce: Pkce, db: P.Tables, reqs: seq<Request>, schedule: seq<(nat, Time)>,
                                           k: nat, m: nat)
    requires Launchable(db, reqs)
    requires forall n :: 0 <= n < |schedule| ==> schedule[n].0 < |reqs|
    requires var log := Execute(pkce, Launch(db, reqs), schedule).log;
             && k < |log| && m < |log|
             && log[k].req.Exchange? && log[m].req.Exchange? && log[k].req.code == log[m].req.code
             && log[k].reply.Issued? && log[m].reply.Issued?
    ensures k == m
  {
    EveryRunIsSerial(pkce, db, reqs, schedule);
    var log := Execute(pkce, Launch(db, reqs), schedule).log;
    if k < m {
      LaterExchangeFails(pkce, db, log, k, m);
    } else if m < k {
      LaterExchangeFails(pkce, db, log, m, k);
    }
  }

  // --- No circular wait ---

  // Locks are taken in this order: code or family, access token, refresh tokens, client.
  function Rank(l: Lock): nat {
    match l
    case CodeLock(_) => 0
    case FamilyLock(_) => 0
    case AccessLock(_) => 1
    case RefreshLock(_) => 2
    case ClientLock(_) => 3
  }

  // The highest rank a transaction may hold.
  function Level(tx: Tx): int {
    match tx.phase
    case Begun => -1
    case Located => -1
    case Anchored => 0
    case TokenLocked => if tx.req.Renew? then 1 else 2
    case Written => 2
    case Ready => 3
    case Finished => -1
  }

  ghost predicate Ranked(sys: Sys) {
    && |sys.held| == |sys.txs|
    && forall i, l :: 0 <= i < |sys.txs| && l in sys.held[i] ==> Rank(l) <= Level(sys.txs[i])
  }

  lemma WantsRankAbove(db: P.Tables, tx: Tx, l: Lock)
    requires l in Wants(db, tx)
    ensures Rank(l) > Level(tx)
  {
  }

  lemma StatementRaisesLevel(pkce: Pkce, db: P.Tables, tx: Tx, now: Time)
    requires Statement(pkce, db, tx, now).Some?
    ensures var next := Statement(pkce, db, tx, now).value;
            Level(tx) <= Level(next) && forall l :: l in Wants(db, tx) ==> Rank(l) <= Level(next)
  {
  }

  lemma StepKeepsRanked(pkce: Pkce, sys: Sys, i: nat, now: Time)
    requires Ranked(sys) && i < |sys.txs|
    ensures Ranked(Step(pkce, sys, i, now))
  {
    if Statement(pkce, sys.db, sys.txs[i], now).Some? {
      StatementRaisesLevel(pkce, sys.db, sys.txs[i], now);
    }
  }

  ghost predicate CanMove(sys: Sys, i: nat)
    requires |sys.held| == |sys.txs|
  {
    i < |sys.txs| && !sys.txs[i].phase.Finished? && !Blocked(sys, i)
  }

  // Following who waits for whom, ranks rise, so it ends at one that can move.
  lemma {:induction false} SomeoneCanMove(sys: Sys, i: nat) returns (m: nat)
    requires Ranked(sys) && i < |sys.txs| && !sys.txs[i].phase.Finished?
    ensures CanMove(sys, m)
    decreases 3 - Level(sys.txs[i])
  {
    if !Blocked(sys, i) {
      m := i;
    } else {
      var j :| 0 <= j < |sys.txs| && j != i && !(Wants(sys.db, sys.txs[i]) !! sys.held[j]);
      var l :| l in Wants(sys.db, sys.txs[i]) && l in sys.held[j];
      WantsRankAbove(sys.db, sys.txs[i], l);
      m := SomeoneCanMove(sys, j);
    }
  }

  function Stage(p: Phase): nat {
    match p
    case Begun => 0
    case Located => 1
    case Anchored => 2
    case TokenLocked => 3
    case Written => 4
    case Ready => 5
    case Finished => 6
  }

  // Statements still to run, at most.
  function Work(txs: seq<Tx>): nat {
    if txs == [] then 0 else 6 - Stage(txs[0].phase) + Work(txs[1..])
  }

  lemma {:induction false} WorkShrinks(txs: seq<Tx>, i: nat, tx: Tx)
    requires i < |txs| && Stage(tx.phase) > Stage(txs[i].phase)
    ensures Work(txs[i := tx]) < Work(txs)
  {
    if i == 0 {
      assert txs[0 := tx][1..] == txs[1..];
    } else {
      assert txs[i := tx][1..] == txs[1..][i - 1 := tx];
      WorkShrinks(txs[1..], i - 1, tx);
    }
  }

  lemma MoveShrinksWork(pkce: Pkce, sys: Sys, i: nat, now: Time)
    requires Ranked(sys) && CanMove(sys, i)
    ensures Work(Step(pkce, sys, i, now).txs) < Work(sys.txs)
  {
    var tx := sys.txs[i];
    WorkShrinks(sys.txs, i, tx.(phase := Finished));
    if Statement(pkce, sys.db, tx, now).Some? {
      WorkShrinks(sys.txs, i, Statement(pkce, sys.db, tx, now).value);
    }
  }

  // From every state a run can reach, some schedule ends every transaction.
  lemma {:induction false} EveryoneCanEnd(pkce: Pkce, sys: Sys, now: Time) returns (schedule: seq<(nat, Time)>)
    requires Ranked(sys)
    ensures forall k :: 0 <= k < |schedule| ==> schedule[k].0 < |sys.txs|
    ensures forall i :: 0 <= i < |sys.txs| ==> Execute(pkce, sys, schedule).txs[i].phase.Finished?
    decreases Work(sys.txs)
  {
    if i: nat :| i < |sys.txs| && !sys.txs[i].phase.Finished? {
      var m := SomeoneCanMove(sys, i);
      StepKeepsRanked(pkce, sys, m, now);
      MoveShrinksWork(pkce, sys, m, now);
      var rest := EveryoneCanEnd(pkce, Step(pkce, sys, m, now), now);
      schedule := [(m, now)] + rest;
      assert schedule[1..] == rest;
    } else {
      schedule := [];
    }
  }

  lemma {:induction false} ReachableIsRanked(pkce: Pkce, sys: Sys, schedule: seq<(nat, Time)>)
    requires Ranked(sys)
    requires forall k :: 0 <= k < |schedule| ==> schedule[k].0 < |sys.txs|
    ensures Ranked(Execute(pkce, sys, schedule))
    decreases |schedule|
  {
    if schedule != [] {
      StepKeepsRanked(pkce, sys, schedule[0].0, schedule[0].1);
      ReachableIsRanked(pkce, Step(pkce, sys, schedule[0].0, schedule[0].1), schedule[1..]);
    }
  }

  lemma {:induction false} NoDeadlock(pkce: Pkce, db: P.Tables, reqs: seq<Request>, schedule: seq<(nat, Time)>)
    returns (more: seq<(nat, Time)>)
    requires forall k :: 0 <= k < |schedule| ==> schedule[k].0 < |reqs|
    ensures forall k :: 0 <= k < |more| ==> more[k].0 < |reqs|
    ensures forall j :: 0 <= j < |reqs| ==>
              Execute(pkce, Execute(pkce, Launch(db, reqs), schedule), more).txs[j].phase.Finished?
  {
    ReachableIsRanked(pkce, Launch(db, reqs), schedule);
    more := EveryoneCanEnd(pkce, Execute(pkce, Launch(db, reqs), schedule), 0);
  }
}
