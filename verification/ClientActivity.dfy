// The clients' last activity when a run is replayed in the order of the first locks:
// exactly when it comes out the same, and a run in which it does not.
module ClientActivity {
  import opened Grants
  import opened Interleaving
  import opened Serializability
  import P = PostgresGrants
  import opened Commuting
  import opened LockOrder

  // --- Clients ---

  // The client whose last activity a logged transaction moved.
  function Touches(c: Commit): Option<string> {
    match c.req
    case Exchange(_, client, _, _, _, _, _) => if c.reply.Issued? then Some(client) else None
    case Renew(_) => if c.reply.Verified? then Some(c.reply.entry.client) else None
    case Rotate(_, client, _, _, _) => if c.reply.Issued? then Some(client) else None
    case Lookup(_) => None
  }

  // The last of a log to move this client's activity.
  ghost function LastToucher(log: seq<Commit>, client: string): Option<Commit>
    decreases |log|
  {
    if log == [] then None
    else if Touches(log[|log| - 1]) == Some(client) then Some(log[|log| - 1])
    else LastToucher(log[..|log| - 1], client)
  }

  lemma SerialTouches(pkce: Pkce, db: P.Tables, c: Commit)
    requires c.reply == Serial(pkce, db, c.req, c.now).reply
    ensures Serial(pkce, db, c.req, c.now).db.clients
         == if Touches(c).Some? then P.TouchRow(db.clients, Touches(c).value, c.now) else db.clients
  {
  }

  lemma {:induction false} ClientAfter(pkce: Pkce, db: P.Tables, log: seq<Commit>, client: string)
    requires RepliesAreSerial(pkce, db, log)
    ensures var after, last := RunSerially(pkce, db, log).clients, LastToucher(log, client);
            && (client in after <==> client in db.clients)
            && (client in after ==>
                  after[client] == if last.Some? then db.clients[client].(lastActivity := last.value.now)
                    else db.clients[client])
    decreases |log|
  {
    if log != [] {
      var n := |log| - 1;
      assert RepliesAreSerial(pkce, db, log[..n]) by {
        forall k | 0 <= k < n
          ensures log[..n][k].reply
               == Serial(pkce, RunSerially(pkce, db, log[..n][..k]), log[..n][k].req, log[..n][k].now).reply
        {
          assert log[..n][..k] == log[..k];
        }
      }
      ClientAfter(pkce, db, log[..n], client);
      SerialTouches(pkce, RunSerially(pkce, db, log[..n]), log[n]);
    }
  }

  lemma {:induction false} LastToucherIsThere(log: seq<Commit>, client: string)
    ensures LastToucher(log, client).Some? ==>
      LastToucher(log, client).value in log && Touches(LastToucher(log, client).value) == Some(client)
    ensures LastToucher(log, client).None? ==> forall c :: c in log ==> Touches(c) != Some(client)
    decreases |log|
  {
    if log != [] {
      var n := |log| - 1;
      LastToucherIsThere(log[..n], client);
      assert log == log[..n] + [log[n]];
    }
  }

  ghost predicate SameReading(a: Option<Commit>, b: Option<Commit>) {
    a.Some? && b.Some? ==> a.value.now == b.value.now
  }

  // Of the transactions that move a client's activity, the last of either order has the
  // same reading.
  ghost predicate ClientsLastInOrder(db: P.Tables, log: seq<Commit>, replay: seq<Commit>) {
    forall c :: c in db.clients ==> SameReading(LastToucher(log, c), LastToucher(replay, c))
  }

  // The clients come out the same too if and only if, for each of them, the transaction
  // that locked its row last has the reading of the one that was anchored last.
  lemma {:induction false} ClientsAgreeExactly(pkce: Pkce, db: P.Tables, reqs: seq<Request>, schedule: seq<(nat, Time)>)
    requires Launchable(db, reqs)
    requires forall k :: 0 <= k < |schedule| ==> schedule[k].0 < |reqs|
    ensures var end, order := Execute(pkce, Launch(db, reqs), schedule), Anchorings(pkce, Launch(db, reqs), schedule);
            var replay := InLockOrder(end.log, order);
            RunSerially(pkce, db, replay) == end.db <==> ClientsLastInOrder(db, end.log, replay)
  {
    hide Execute, Anchorings, RunSerially, InLockOrder, Launchable, LastToucher;
    var end, order := Execute(pkce, Launch(db, reqs), schedule), Anchorings(pkce, Launch(db, reqs), schedule);
    var replay := InLockOrder(end.log, order);
    EveryRunIsSerial(pkce, db, reqs, schedule);
    EveryRunIsSerialInLockOrder(pkce, db, reqs, schedule);
    var x, y := end.db.clients, RunSerially(pkce, db, replay).clients;
    forall c
      ensures (c in x <==> c in db.clients) && (c in y <==> c in db.clients)
      ensures c in db.clients ==> (x[c] == y[c] <==> SameReading(LastToucher(end.log, c), LastToucher(replay, c)))
    {
      ClientAfter(pkce, db, end.log, c);
      ClientAfter(pkce, db, replay, c);
      SameTouchers(end.log, order, c);
    }
    assert RunSerially(pkce, db, replay) == end.db <==> x == y;
  }

  lemma SameTouchers(log: seq<Commit>, order: seq<nat>, client: string)
    requires forall c :: c in InLockOrder(log, order) <==> c in log && c.id in order
    requires forall c :: c in log && c.id !in order ==> Quiet(c)
    ensures LastToucher(log, client).Some? <==> LastToucher(InLockOrder(log, order), client).Some?
  {
    LastToucherIsThere(log, client);
    LastToucherIsThere(InLockOrder(log, order), client);
  }

  // With readings that differ it has to be the same transaction.
  lemma {:induction false} SameReadingIsSameToucher(log: seq<Commit>, order: seq<nat>, client: string)
    requires forall c :: c in InLockOrder(log, order) <==> c in log && c.id in order
    requires forall c :: c in log && c.id !in order ==> Quiet(c)
    requires forall c, d :: c in log && d in log && Touches(c).Some? && Touches(d).Some? && c.now == d.now ==> c == d
    ensures SameReading(LastToucher(log, client), LastToucher(InLockOrder(log, order), client))
       <==> LastToucher(log, client) == LastToucher(InLockOrder(log, order), client)
  {
    SameTouchers(log, order, client);
    LastToucherIsThere(log, client);
    LastToucherIsThere(InLockOrder(log, order), client);
  }

  // --- Commits move a client's activity in the order of its row's locks ---

  predicate AboutToTouch(db: P.Tables, tx: Tx) {
    tx.phase.Ready? && Touched(tx) && ClientOf(tx) in db.clients
  }

  ghost predicate ClientsLocked(sys: Sys) {
    |sys.held| == |sys.txs|
    && forall i :: 0 <= i < |sys.txs| && AboutToTouch(sys.db, sys.txs[i]) ==>
      ClientLock(ClientOf(sys.txs[i])) in sys.held[i]
  }

  lemma TouchTakesLock(pkce: Pkce, db: P.Tables, tx: Tx, now: Time)
    requires Statement(pkce, db, tx, now).Some? && AboutToTouch(db, Statement(pkce, db, tx, now).value)
    ensures ClientLock(ClientOf(Statement(pkce, db, tx, now).value)) in Wants(db, tx)
  {
  }

  lemma StepKeepsClientsLocked(pkce: Pkce, sys: Sys, i: nat, now: Time)
    requires ClientsLocked(sys) && i < |sys.txs|
    ensures ClientsLocked(Step(pkce, sys, i, now))
  {
    var tx := sys.txs[i];
    if !tx.phase.Finished? && !Blocked(sys, i) && !tx.phase.Ready? && Statement(pkce, sys.db, tx, now).Some? {
      if AboutToTouch(sys.db, Statement(pkce, sys.db, tx, now).value) { TouchTakesLock(pkce, sys.db, tx, now); }
    }
    WritesKeepClients(sys.db, tx.writes);
  }

  lemma {:induction false} RunKeepsClientsLocked(pkce: Pkce, sys: Sys, schedule: seq<(nat, Time)>)
    requires ClientsLocked(sys)
    requires forall k :: 0 <= k < |schedule| ==> schedule[k].0 < |sys.txs|
    ensures ClientsLocked(Execute(pkce, sys, schedule))
    decreases |schedule|
  {
    if schedule != [] {
      StepKeepsClientsLocked(pkce, sys, schedule[0].0, schedule[0].1);
      RunKeepsClientsLocked(pkce, Step(pkce, sys, schedule[0].0, schedule[0].1), schedule[1..]);
    }
  }

  // No two transactions at once hold a client's row between writing its activity and
  // committing, so those that move it commit in the order in which they locked it.
  lemma {:induction false} OneTouchAtATime(pkce: Pkce, db: P.Tables, reqs: seq<Request>, schedule: seq<(nat, Time)>,
                                           i: nat, j: nat)
    requires Launchable(db, reqs)
    requires forall k :: 0 <= k < |schedule| ==> schedule[k].0 < |reqs|
    requires var sys := Execute(pkce, Launch(db, reqs), schedule);
             && i < |reqs| && j < |reqs| && AboutToTouch(sys.db, sys.txs[i]) && AboutToTouch(sys.db, sys.txs[j])
             && ClientOf(sys.txs[i]) == ClientOf(sys.txs[j])
    ensures i == j
  {
    var start := Launch(db, reqs);
    var sys := Execute(pkce, start, schedule);
    LaunchHoldsInv(pkce, db, reqs);
    ExecuteKeepsInv(pkce, db, start, schedule);
    RunKeepsClientsLocked(pkce, start, schedule);
    assert Exclusive(sys);
    assert ClientLock(ClientOf(sys.txs[i])) in sys.held[i] && ClientLock(ClientOf(sys.txs[i])) in sys.held[j];
  }

  // --- A run that parts from its replay in lock order ---

  // The token renews at this reading, in this family of this client.
  predicate Renewable(db: P.Tables, token: string, f: string, client: string, now: Time) {
    && token in db.access && db.access[token] == P.AccessRow(f, db.access[token].expiresAt)
      && db.access[token].expiresAt > now
    && P.Usable(db, f, now) && db.families[f].client == client && client in db.clients
  }

  // A renewal once its family row is locked, and once its writes are issued.
  function Anchored(db: P.Tables, token: string, f: string, now: Time): Tx
    requires P.Joined(db, f)
  {
    Start(Renew(token)).(phase := Phase.Anchored, now := now, family := f, familyRow := Some(db.families[f]),
                         principal := P.PrincipalOf(db.families[f].identity, db.identities[db.families[f].identity]))
  }

  lemma Unblocked(pkce: Pkce, sys: Sys, i: nat, now: Time)
    requires |sys.txs| == |sys.held| == 2 && i < 2 && !sys.txs[i].phase.Finished?
    requires Wants(sys.db, sys.txs[i]) !! sys.held[1 - i]
    ensures var tx := sys.txs[i];
            Step(pkce, sys, i, now)
              == if tx.phase.Ready? then Finish(sys, i, ApplyWrites(sys.db, tx.writes), tx.now, tx.reply)
                 else if Statement(pkce, sys.db, tx, now).Some?
                 then Advance(sys, i, Statement(pkce, sys.db, tx, now).value)
                 else Step(pkce, sys, i, now)
  {
  }

  // Two statements take a renewal to its family lock.
  lemma TakesFamilyLock(pkce: Pkce, sys: Sys, i: nat, token: string, f: string, client: string, now: Time)
    requires |sys.txs| == |sys.held| == 2 && i < 2 && sys.txs[i] == Start(Renew(token)) && sys.held[i] == {}
    requires Renewable(sys.db, token, f, client, now) && FamilyLock(f) !in sys.held[1 - i]
    ensures Step(pkce, Step(pkce, sys, i, now), i, now)
         == sys.(txs := sys.txs[i := Anchored(sys.db, token, f, now)], held := sys.held[i := {FamilyLock(f)}])
    ensures !HasAnchor(Step(pkce, sys, i, now).txs[i])
  {
    var one := sys.(txs := sys.txs[i := Start(Renew(token)).(phase := Located, family := f)]);
    Unblocked(pkce, sys, i, now);
    assert sys.held[i] + Wants(sys.db, sys.txs[i]) == sys.held[i];
    assert sys.held[i := sys.held[i]] == sys.held;
    assert Step(pkce, sys, i, now) == one;
    Unblocked(pkce, one, i, now);
    assert one.held[i] + Wants(one.db, one.txs[i]) == {FamilyLock(f)};
    assert one.txs[i := Anchored(sys.db, token, f, now)] == sys.txs[i := Anchored(sys.db, token, f, now)];
  }

  predicate NoFamilyLock(locks: set<Lock>) {
    forall l :: l in locks ==> !l.FamilyLock?
  }

  predicate OnlyFamilyLocks(locks: set<Lock>) {
    forall l :: l in locks ==> l.FamilyLock?
  }

  // What the next statements of an anchored renewal want and yield.
  lemma RenewalPlan(pkce: Pkce, db: P.Tables, token: string, f: string, client: string, now: Time)
    returns (t1: Tx, t2: Tx, t3: Tx)
    requires Renewable(db, token, f, client, now)
    ensures Statement(pkce, db, Anchored(db, token, f, now), now) == Some(t1)
      && NoFamilyLock(Wants(db, Anchored(db, token, f, now)))
    ensures Statement(pkce, db, t1, now) == Some(t2) && t1.phase.TokenLocked? && NoFamilyLock(Wants(db, t1))
    ensures Statement(pkce, db, t2, now) == Some(t3) && t2.phase.Written? && NoFamilyLock(Wants(db, t2))
    ensures t3.phase.Ready? && t3.req == Renew(token) && t3.now == now && t3.reply.Verified?
      && t3.reply.entry.client == client
    ensures Knows(pkce, db, t3)
  {
    var t0 := Anchored(db, token, f, now);
    t1 := t0.(phase := TokenLocked, accessRow := Some(db.access[token]));
    assert Statement(pkce, db, t0, now) == Some(t1);
    t2 := StepTokenLocked(db, t1).value;
    t3 := t2.(phase := Ready, writes := t2.writes + [TouchClient(client, now)]);
    StatementKeepsKnows(pkce, db, t0, now);
    StatementKeepsKnows(pkce, db, t1, now);
    StatementKeepsKnows(pkce, db, t2, now);
  }

  lemma OneStep(pkce: Pkce, sys: Sys, i: nat, now: Time, next: Tx) returns (s: Sys)
    requires |sys.txs| == |sys.held| == 2 && i < 2 && !sys.txs[i].phase.Finished? && !sys.txs[i].phase.Ready?
    requires Statement(pkce, sys.db, sys.txs[i], now) == Some(next)
    requires NoFamilyLock(Wants(sys.db, sys.txs[i])) && OnlyFamilyLocks(sys.held[1 - i])
    ensures s == Step(pkce, sys, i, now) && |s.txs| == |s.held| == 2 && s.db == sys.db && s.log == sys.log
    ensures s.txs[i] == next && s.txs[1 - i] == sys.txs[1 - i] && s.held[1 - i] == sys.held[1 - i]
  {
    Unblocked(pkce, sys, i, now);
    s := Step(pkce, sys, i, now);
  }

  lemma LastStep(pkce: Pkce, sys: Sys, i: nat, now: Time) returns (s: Sys)
    requires |sys.txs| == |sys.held| == 2 && i < 2 && sys.txs[i].phase.Ready? && Knows(pkce, sys.db, sys.txs[i])
    ensures s == Step(pkce, sys, i, now)
    ensures s == Finish(sys, i, Serial(pkce, sys.db, sys.txs[i].req, sys.txs[i].now).db, sys.txs[i].now,
                        sys.txs[i].reply)
  {
    Unblocked(pkce, sys, i, now);
    CommitIsSerial(pkce, sys.db, sys.txs[i]);
    s := Step(pkce, sys, i, now);
  }

  // The four last steps of an anchored renewal that meets no other lock than families'.
  lemma RenewsAndCommits(pkce: Pkce, sys: Sys, i: nat, token: string, f: string, client: string, now: Time)
    returns (s1: Sys, s2: Sys, s3: Sys, end: Sys, c: Commit)
    requires |sys.txs| == |sys.held| == 2 && i < 2
    requires Renewable(sys.db, token, f, client, now) && sys.txs[i] == Anchored(sys.db, token, f, now)
    requires OnlyFamilyLocks(sys.held[1 - i])
    ensures s1 == Step(pkce, sys, i, now) && |s1.txs| == |s1.held| == 2 && HasAnchor(s1.txs[i])
    ensures s2 == Step(pkce, s1, i, now) && |s2.txs| == |s2.held| == 2 && HasAnchor(s2.txs[i])
    ensures s3 == Step(pkce, s2, i, now) && |s3.txs| == |s3.held| == 2 && HasAnchor(s3.txs[i])
    ensures end == Step(pkce, s3, i, now) && |end.txs| == |end.held| == 2 && !HasAnchor(end.txs[i])
    ensures end.txs[1 - i] == sys.txs[1 - i] && end.held[1 - i] == sys.held[1 - i] && end.held[i] == {}
    ensures end.db == P.RenewToken(sys.db, token, now).db
    ensures c.id == i && c.now == now && Touches(c) == Some(client) && end.log == sys.log + [c]
  {
    var t1, t2, t3 := RenewalPlan(pkce, sys.db, token, f, client, now);
    s1 := OneStep(pkce, sys, i, now, t1);
    s2 := OneStep(pkce, s1, i, now, t2);
    s3 := OneStep(pkce, s2, i, now, t3);
    end := LastStep(pkce, s3, i, now);
    c := Commit(i, t3.req, t3.now, t3.reply);
  }

  // A schedule of n transactions.
  predicate Turns(schedule: seq<(nat, Time)>, n: nat) {
    forall k :: 0 <= k < |schedule| ==> schedule[k].0 < n
  }

  lemma TurnsAppend(x: seq<(nat, Time)>, y: seq<(nat, Time)>, n: nat)
    requires Turns(x, n) && Turns(y, n)
    ensures Turns(x + y, n)
  {
  }

  lemma {:induction false} RunAppend(pkce: Pkce, sys: Sys, x: seq<(nat, Time)>, y: seq<(nat, Time)>)
    requires |sys.txs| == |sys.held| && Turns(x, |sys.txs|) && Turns(y, |sys.txs|)
    ensures Execute(pkce, sys, x + y) == Execute(pkce, Execute(pkce, sys, x), y)
    ensures Anchorings(pkce, sys, x + y) == Anchorings(pkce, sys, x) + Anchorings(pkce, Execute(pkce, sys, x), y)
    decreases |x|
  {
    hide Step, HasAnchor;
    if x == [] {
      assert x + y == y;
    } else {
      assert (x + y)[1..] == x[1..] + y;
      RunAppend(pkce, Step(pkce, sys, x[0].0, x[0].1), x[1..], y);
    }
  }

  lemma OneRun(pkce: Pkce, sys: Sys, i: nat, now: Time)
    requires i < |sys.txs| == |sys.held|
    ensures Execute(pkce, sys, [(i, now)]) == Step(pkce, sys, i, now)
    ensures Anchorings(pkce, sys, [(i, now)])
         == if !HasAnchor(sys.txs[i]) && HasAnchor(Step(pkce, sys, i, now).txs[i]) then [i] else []
  {
    assert [(i, now)][1..] == [];
  }

  lemma TwoRuns(pkce: Pkce, sys: Sys, i: nat, now: Time)
    requires i < |sys.txs| == |sys.held| && !HasAnchor(sys.txs[i])
    requires var one := Step(pkce, sys, i, now); !HasAnchor(one.txs[i]) && HasAnchor(Step(pkce, one, i, now).txs[i])
    ensures Execute(pkce, sys, [(i, now), (i, now)]) == Step(pkce, Step(pkce, sys, i, now), i, now)
    ensures Anchorings(pkce, sys, [(i, now), (i, now)]) == [i]
  {
    assert [(i, now), (i, now)] == [(i, now)] + [(i, now)];
    RunAppend(pkce, sys, [(i, now)], [(i, now)]);
    OneRun(pkce, sys, i, now);
    OneRun(pkce, Step(pkce, sys, i, now), i, now);
  }

  // The four last steps of an anchored renewal as a part of a schedule.
  lemma OneTurn(x: (nat, Time), n: nat)
    requires x.0 < n
    ensures Turns([x], n)
  {
  }

  lemma FourRuns(pkce: Pkce, sys: Sys, i: nat, token: string, f: string, client: string, now: Time)
    returns (end: Sys, c: Commit)
    requires |sys.txs| == |sys.held| == 2 && i < 2
    requires Renewable(sys.db, token, f, client, now) && sys.txs[i] == Anchored(sys.db, token, f, now)
    requires OnlyFamilyLocks(sys.held[1 - i])
    ensures end == Execute(pkce, sys, [(i, now), (i, now), (i, now), (i, now)])
    ensures Anchorings(pkce, sys, [(i, now), (i, now), (i, now), (i, now)]) == []
    ensures |end.txs| == |end.held| == 2
    ensures end.txs[1 - i] == sys.txs[1 - i] && end.held[1 - i] == sys.held[1 - i] && end.held[i] == {}
    ensures end.db == P.RenewToken(sys.db, token, now).db
    ensures c.id == i && c.now == now && Touches(c) == Some(client) && end.log == sys.log + [c]
  {
    var s1, s2, s3, s4, entry := RenewsAndCommits(pkce, sys, i, token, f, client, now);
    end, c := s4, entry;
    hide Execute, Anchorings, Step, Renewable, Anchored, Turns;
    var x := (i, now);
    assert [x, x, x, x] == [x] + ([x] + ([x] + [x]));
    assert Turns([x], 2) by { OneTurn(x, 2); }
    TurnsAppend([x], [x], 2);
    TurnsAppend([x], [x] + [x], 2);
    RunAppend(pkce, sys, [x], [x] + ([x] + [x]));
    RunAppend(pkce, s1, [x], [x] + [x]);
    RunAppend(pkce, s2, [x], [x]);
    OneRun(pkce, sys, i, now);
    OneRun(pkce, s1, i, now);
    OneRun(pkce, s2, i, now);
    OneRun(pkce, s3, i, now);
  }

  lemma StillAnchored(db: P.Tables, a: string, f: string, b: string, g: string, client: string, t1: Time, t2: Time)
    requires Renewable(db, a, f, client, t1) && Renewable(db, b, g, client, t2) && f != g
    ensures var after := P.RenewToken(db, b, t2).db;
            Renewable(after, a, f, client, t1) && Anchored(after, a, f, t1) == Anchored(db, a, f, t1)
  {
  }

  function TwoSteps(i: nat, now: Time): seq<(nat, Time)> {
    [(i, now), (i, now)]
  }

  function FourMore(i: nat, now: Time): seq<(nat, Time)> {
    [(i, now), (i, now), (i, now), (i, now)]
  }

  // The first transaction locks its family before the second; the second commits first.
  function Crossing(t1: Time, t2: Time): seq<(nat, Time)> {
    TwoSteps(0, t1) + (TwoSteps(1, t2) + (FourMore(1, t2) + FourMore(0, t1)))
  }

  lemma FirstAnchored(pkce: Pkce, sys: Sys, i: nat, token: string, f: string, client: string, now: Time)
    returns (end: Sys)
    requires |sys.txs| == |sys.held| == 2 && i < 2 && sys.txs[i] == Start(Renew(token)) && sys.held[i] == {}
    requires Renewable(sys.db, token, f, client, now) && FamilyLock(f) !in sys.held[1 - i]
    ensures end == Execute(pkce, sys, TwoSteps(i, now)) && Anchorings(pkce, sys, TwoSteps(i, now)) == [i]
    ensures |end.txs| == |end.held| == 2 && end.db == sys.db && end.log == sys.log
    ensures end.txs[i] == Anchored(sys.db, token, f, now) && end.held[i] == {FamilyLock(f)}
    ensures end.txs[1 - i] == sys.txs[1 - i] && end.held[1 - i] == sys.held[1 - i]
  {
    TakesFamilyLock(pkce, sys, i, token, f, client, now);
    TwoRuns(pkce, sys, i, now);
    end := Step(pkce, Step(pkce, sys, i, now), i, now);
  }

  lemma BothCommit(pkce: Pkce, sys: Sys, a: string, f: string, b: string, g: string, client: string, t1: Time, t2: Time)
    returns (mid: Sys, end: Sys, c1: Commit, c2: Commit)
    requires |sys.txs| == |sys.held| == 2 && OnlyFamilyLocks(sys.held[0])
    requires Renewable(sys.db, a, f, client, t1) && Renewable(sys.db, b, g, client, t2) && f != g
    requires sys.txs[0] == Anchored(sys.db, a, f, t1) && sys.txs[1] == Anchored(sys.db, b, g, t2)
    ensures mid == Execute(pkce, sys, FourMore(1, t2)) && Anchorings(pkce, sys, FourMore(1, t2)) == []
    ensures |mid.txs| == |mid.held| == 2
    ensures end == Execute(pkce, mid, FourMore(0, t1)) && Anchorings(pkce, mid, FourMore(0, t1)) == []
    ensures c1.id == 0 && c1.now == t1 && Touches(c1) == Some(client)
    ensures c2.id == 1 && c2.now == t2 && Touches(c2) == Some(client)
    ensures end.log == sys.log + [c2] + [c1]
  {
    hide Execute, Anchorings, Touches;
    mid, c2 := FourRuns(pkce, sys, 1, b, g, client, t2);
    StillAnchored(sys.db, a, f, b, g, client, t1, t2);
    end, c1 := FourRuns(pkce, mid, 0, a, f, client, t1);
  }

  lemma CrossingParts(pkce: Pkce, sys: Sys, t1: Time, t2: Time)
    requires |sys.txs| == |sys.held| == 2
    ensures var s1 := Execute(pkce, sys, TwoSteps(0, t1));
            var s2 := Execute(pkce, s1, TwoSteps(1, t2));
            var s3 := Execute(pkce, s2, FourMore(1, t2));
            && Execute(pkce, sys, Crossing(t1, t2)) == Execute(pkce, s3, FourMore(0, t1))
            && Anchorings(pkce, sys, Crossing(t1, t2))
               == Anchorings(pkce, sys, TwoSteps(0, t1)) + (Anchorings(pkce, s1, TwoSteps(1, t2))
                    + (Anchorings(pkce, s2, FourMore(1, t2)) + Anchorings(pkce, s3, FourMore(0, t1))))
  {
    assert Turns(TwoSteps(0, t1), 2) && Turns(TwoSteps(1, t2), 2);
    assert Turns(FourMore(1, t2), 2) && Turns(FourMore(0, t1), 2);
    hide Execute, Anchorings, TwoSteps, FourMore, Turns;
    TurnsAppend(FourMore(1, t2), FourMore(0, t1), 2);
    TurnsAppend(TwoSteps(1, t2), FourMore(1, t2) + FourMore(0, t1), 2);
    var s1 := Execute(pkce, sys, TwoSteps(0, t1));
    var s2 := Execute(pkce, s1, TwoSteps(1, t2));
    RunAppend(pkce, sys, TwoSteps(0, t1), TwoSteps(1, t2) + (FourMore(1, t2) + FourMore(0, t1)));
    RunAppend(pkce, s1, TwoSteps(1, t2), FourMore(1, t2) + FourMore(0, t1));
    RunAppend(pkce, s2, FourMore(1, t2), FourMore(0, t1));
  }

  lemma CrossingRun(pkce: Pkce, db: P.Tables, a: string, f: string, b: string, g: string, client: string, t1: Time,
                    t2: Time)
    returns (c1: Commit, c2: Commit)
    requires Renewable(db, a, f, client, t1) && Renewable(db, b, g, client, t2) && f != g
    ensures c1.id == 0 && c1.now == t1 && Touches(c1) == Some(client)
    ensures c2.id == 1 && c2.now == t2 && Touches(c2) == Some(client)
    ensures Execute(pkce, Launch(db, [Renew(a), Renew(b)]), Crossing(t1, t2)).log == [c2, c1]
    ensures Anchorings(pkce, Launch(db, [Renew(a), Renew(b)]), Crossing(t1, t2)) == [0, 1]
  {
    hide Execute, Anchorings, Renewable, Crossing, Anchored, TwoSteps, FourMore, Touches;
    var s0 := Launch(db, [Renew(a), Renew(b)]);
    CrossingParts(pkce, s0, t1, t2);
    var s1 := FirstAnchored(pkce, s0, 0, a, f, client, t1);
    var s2 := FirstAnchored(pkce, s1, 1, b, g, client, t2);
    var s3, s4, e1, e2 := BothCommit(pkce, s2, a, f, b, g, client, t1, t2);
    c1, c2 := e1, e2;
  }

  lemma CrossedLog(c1: Commit, c2: Commit, client: string)
    requires c1.id == 0 && c2.id == 1 && Touches(c1) == Some(client) && Touches(c2) == Some(client)
    ensures InLockOrder([c2, c1], [0, 1]) == [c1, c2]
    ensures LastToucher([c2, c1], client) == Some(c1) && LastToucher([c1, c2], client) == Some(c2)
  {
    OneEntry([c2, c1], 0);
    OneEntry([c2, c1], 1);
    assert [0, 1][..1] == [0] && [0][..0] == [];
    assert InLockOrder([c2, c1], [0]) == [c1];
  }

  // The failing runs: two renewals of different families of one client whose family
  // locks and commits cross. The client keeps the first one's reading, where the replay
  // in lock order leaves the second one's.
  lemma {:induction false} CrossingLosesActivity(pkce: Pkce, db: P.Tables, a: string, f: string, b: string, g: string,
                                                 client: string, t1: Time, t2: Time)
    requires Renewable(db, a, f, client, t1) && Renewable(db, b, g, client, t2) && f != g
    ensures var start := Launch(db, [Renew(a), Renew(b)]);
            var end := Execute(pkce, start, Crossing(t1, t2));
            var replay := RunSerially(pkce, db, InLockOrder(end.log, Anchorings(pkce, start, Crossing(t1, t2))));
            && client in end.db.clients && end.db.clients[client].lastActivity == t1
            && client in replay.clients && replay.clients[client].lastActivity == t2
  {
    var start := Launch(db, [Renew(a), Renew(b)]);
    var end := Execute(pkce, start, Crossing(t1, t2));
    var c1, c2 := CrossingRun(pkce, db, a, f, b, g, client, t1, t2);
    assert client in db.clients && Launchable(db, [Renew(a), Renew(b)]);
    hide Execute, Anchorings, Renewable, Crossing, Launchable, RepliesAreSerial, LogsEnded, RunSerially, InLockOrder,
      LastToucher, Core;
    CrossedLog(c1, c2, client);
    EveryRunIsSerial(pkce, db, [Renew(a), Renew(b)], Crossing(t1, t2));
    EveryRunIsSerialInLockOrder(pkce, db, [Renew(a), Renew(b)], Crossing(t1, t2));
    ClientAfter(pkce, db, end.log, client);
    ClientAfter(pkce, db, [c1, c2], client);
  }

  // One of them: the later reading is lost.
  lemma {:induction false} LockOrderIsNotEnough(pkce: Pkce)
    ensures var i := P.Identity("google", "u1");
            var db := P.Tables(map[i := P.Profile(None, false)], map["c" := P.ClientRow([], true, false, 0)], map[],
                               map["f" := P.FamilyRow(i, "c", [], 10, None), "g" := P.FamilyRow(i, "c", [], 10, None)],
                               map["a" := P.AccessRow("f", 10), "b" := P.AccessRow("g", 10)], map[]);
            var start := Launch(db, [Renew("a"), Renew("b")]);
            var end, order := Execute(pkce, start, Crossing(1, 2)), Anchorings(pkce, start, Crossing(1, 2));
            && "c" in end.db.clients && end.db.clients["c"].lastActivity == 1
            && RunSerially(pkce, db, InLockOrder(end.log, order)) != end.db
  {
    var i := P.Identity("google", "u1");
    var db := P.Tables(map[i := P.Profile(None, false)], map["c" := P.ClientRow([], true, false, 0)], map[],
                       map["f" := P.FamilyRow(i, "c", [], 10, None), "g" := P.FamilyRow(i, "c", [], 10, None)],
                       map["a" := P.AccessRow("f", 10), "b" := P.AccessRow("g", 10)], map[]);
    CrossingLosesActivity(pkce, db, "a", "f", "b", "g", "c", 1, 2);
  }
}
