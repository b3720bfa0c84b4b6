// Which rows a transaction has locked: every stored row it is about to change, no two
// transactions the same one, and no other rows than those of its own request.
module RowLocks {
  import opened Grants
  import opened Interleaving
  import opened Serializability
  import P = PostgresGrants

  // --- Writes are locked ---

  // The stored rows that the write changes are locked; an insert makes a new one.
  ghost predicate WriteLocked(clients: set<string>, w: Write, held: set<Lock>) {
    match w
    case DeleteCode(code) => CodeLock(code) in held
    case InsertFamily(_, _) => true
    case SetFamilyExpiry(f, _) => FamilyLock(f) in held
    case RevokeFamily(f, _) => FamilyLock(f) in held
    case InsertAccess(_, _) => true
    case SetAccessExpiry(token, _) => AccessLock(token) in held
    case InsertRefresh(_, _) => true
    case Consume(token, _) => RefreshLock(token) in held
    case SetRefreshExpiry(tokens, _) => forall r :: r in tokens ==> RefreshLock(r) in held
    case TouchClient(client, _) => client in clients ==> ClientLock(client) in held
  }

  ghost predicate WritesLocked(clients: set<string>, tx: Tx, held: set<Lock>) {
    forall k :: 0 <= k < |tx.writes| ==> WriteLocked(clients, tx.writes[k], held)
  }

  // Before the writes: the code or the family, then the token presented.
  ghost predicate ReadsLocked(tx: Tx, held: set<Lock>) {
    && (HasAnchor(tx) ==> (if tx.req.Exchange? then CodeLock(tx.req.code) else FamilyLock(tx.family)) in held)
    && (tx.phase.TokenLocked? ==>
          match tx.req
          case Renew(token) => AccessLock(token) in held
          case Rotate(token, _, _, _, _) => RefreshLock(token) in held
          case _ => false)
  }

  // The locks a request may hold at all, phase by phase.
  ghost predicate OwnLock(tx: Tx, l: Lock) {
    match l
    case CodeLock(code) => HasAnchor(tx) && tx.req.Exchange? && code == tx.req.code
    case FamilyLock(f) => HasAnchor(tx) && !tx.req.Exchange? && f == tx.family
    case AccessLock(token) => HasAnchor(tx) && !tx.phase.Anchored? && tx.req.Renew? && token == tx.req.token
    case RefreshLock(token) =>
      HasAnchor(tx) && !tx.phase.Anchored?
      && if tx.req.Rotate? then token == tx.req.token else tx.req.Renew? && !tx.phase.TokenLocked?
    case ClientLock(client) => tx.phase.Ready? && client == ClientOf(tx)
  }

  ghost predicate LocksFit(clients: set<string>, tx: Tx, held: set<Lock>) {
    tx.phase.Finished?
    || (WritesLocked(clients, tx, held) && ReadsLocked(tx, held) && forall l :: l in held ==> OwnLock(tx, l))
  }

  ghost predicate AllLocksFit(sys: Sys) {
    |sys.held| == |sys.txs|
    && forall i :: 0 <= i < |sys.txs| ==> LocksFit(sys.db.clients.Keys, sys.txs[i], sys.held[i])
  }

  // --- One statement ---

  lemma BegunFits(pkce: Pkce, db: P.Tables, tx: Tx, now: Time, held: set<Lock>)
    requires tx.phase.Begun? && tx == Start(tx.req) && StepBegun(db, tx, now).Some?
    requires LocksFit(db.clients.Keys, tx, held)
    ensures LocksFit(db.clients.Keys, StepBegun(db, tx, now).value, held + Wants(db, tx))
  {
  }

  lemma LocatedFits(pkce: Pkce, db: P.Tables, tx: Tx, now: Time, held: set<Lock>)
    requires tx.phase.Located? && Knows(pkce, db, tx) && StepLocated(db, tx, now).Some?
    requires LocksFit(db.clients.Keys, tx, held)
    ensures LocksFit(db.clients.Keys, StepLocated(db, tx, now).value, held + Wants(db, tx))
  {
  }

  lemma AnchoredFits(pkce: Pkce, db: P.Tables, tx: Tx, held: set<Lock>)
    requires tx.phase.Anchored? && Knows(pkce, db, tx) && StepAnchored(pkce, db, tx).Some?
    requires LocksFit(db.clients.Keys, tx, held)
    ensures LocksFit(db.clients.Keys, StepAnchored(pkce, db, tx).value, held + Wants(db, tx))
  {
  }

  lemma TokenLockedFits(pkce: Pkce, db: P.Tables, tx: Tx, held: set<Lock>)
    requires tx.phase.TokenLocked? && Knows(pkce, db, tx) && StepTokenLocked(db, tx).Some?
    requires LocksFit(db.clients.Keys, tx, held)
    ensures LocksFit(db.clients.Keys, StepTokenLocked(db, tx).value, held + Wants(db, tx))
  {
  }

  lemma WrittenFits(pkce: Pkce, db: P.Tables, tx: Tx, now: Time, held: set<Lock>)
    requires tx.phase.Written? && LocksFit(db.clients.Keys, tx, held)
    ensures LocksFit(db.clients.Keys, Statement(pkce, db, tx, now).value, held + Wants(db, tx))
  {
    var next := Statement(pkce, db, tx, now).value;
    assert ClientOf(next) == ClientOf(tx);
    forall k | 0 <= k < |next.writes|
      ensures WriteLocked(db.clients.Keys, next.writes[k], held + Wants(db, tx))
    {
      if k < |tx.writes| { assert WriteLocked(db.clients.Keys, tx.writes[k], held); }
    }
  }

  lemma StatementFits(pkce: Pkce, db: P.Tables, tx: Tx, now: Time, held: set<Lock>)
    requires Knows(pkce, db, tx) && LocksFit(db.clients.Keys, tx, held) && Statement(pkce, db, tx, now).Some?
    ensures LocksFit(db.clients.Keys, Statement(pkce, db, tx, now).value, held + Wants(db, tx))
  {
    match tx.phase
    case Begun => BegunFits(pkce, db, tx, now, held);
    case Located => LocatedFits(pkce, db, tx, now, held);
    case Anchored => AnchoredFits(pkce, db, tx, held);
    case TokenLocked => TokenLockedFits(pkce, db, tx, held);
    case Written => WrittenFits(pkce, db, tx, now, held);
    case _ =>
  }

  // --- Whole runs ---

  lemma AdvanceFits(pkce: Pkce, sys: Sys, i: nat, now: Time)
    requires AllLocksFit(sys) && i < |sys.txs| && Knows(pkce, sys.db, sys.txs[i])
    requires Statement(pkce, sys.db, sys.txs[i], now).Some?
    ensures AllLocksFit(Advance(sys, i, Statement(pkce, sys.db, sys.txs[i], now).value))
  {
    StatementFits(pkce, sys.db, sys.txs[i], now, sys.held[i]);
    hide LocksFit, Statement, Knows, Wants;
  }

  lemma FinishFits(sys: Sys, i: nat, db: P.Tables, now: Time, reply: Reply)
    requires AllLocksFit(sys) && i < |sys.txs| && db.clients.Keys == sys.db.clients.Keys
    ensures AllLocksFit(Finish(sys, i, db, now, reply))
  {
    hide WritesLocked, ReadsLocked, OwnLock;
  }

  lemma StepFits(pkce: Pkce, init: P.Tables, sys: Sys, i: nat, now: Time)
    requires Inv(pkce, init, sys) && AllLocksFit(sys) && i < |sys.txs|
    ensures AllLocksFit(Step(pkce, sys, i, now))
  {
    var tx := sys.txs[i];
    assert Knows(pkce, sys.db, tx);
    hide Inv, AllLocksFit, Knows, Statement, Wants, Finish, Advance, ApplyWrites;
    if tx.phase.Finished? || Blocked(sys, i) {
    } else if tx.phase.Ready? {
      WritesKeepClients(sys.db, tx.writes);
      FinishFits(sys, i, ApplyWrites(sys.db, tx.writes), tx.now, tx.reply);
    } else if Statement(pkce, sys.db, tx, now).Some? {
      AdvanceFits(pkce, sys, i, now);
    } else {
      FinishFits(sys, i, sys.db, now, P.LookupToken(sys.db, if tx.req.Lookup? then tx.req.token else "", now).reply);
      FinishFits(sys, i, sys.db, tx.now, Rejected);
    }
  }

  lemma {:induction false} RunFits(pkce: Pkce, init: P.Tables, sys: Sys, schedule: seq<(nat, Time)>)
    requires Inv(pkce, init, sys) && AllLocksFit(sys)
    requires forall k :: 0 <= k < |schedule| ==> schedule[k].0 < |sys.txs|
    ensures AllLocksFit(Execute(pkce, sys, schedule))
    decreases |schedule|
  {
    hide NewNames, Informed, Serialized, AllLocksFit, Step;
    if schedule != [] {
      StepKeepsInv(pkce, init, sys, schedule[0].0, schedule[0].1);
      StepFits(pkce, init, sys, schedule[0].0, schedule[0].1);
      RunFits(pkce, init, Step(pkce, sys, schedule[0].0, schedule[0].1), schedule[1..]);
    }
  }

  lemma LaunchFits(db: P.Tables, reqs: seq<Request>)
    ensures AllLocksFit(Launch(db, reqs))
  {
  }

  // In every state a schedule reaches, each transaction holds the locks of the stored rows
  // it will change, and of what it read of its code, family and token; it holds only those
  // its request gives rise to; and no lock is held twice.
  lemma {:induction false} WritersHoldTheirRows(pkce: Pkce, db: P.Tables, reqs: seq<Request>,
                                                schedule: seq<(nat, Time)>)
    requires Launchable(db, reqs)
    requires forall k :: 0 <= k < |schedule| ==> schedule[k].0 < |reqs|
    ensures var end := Execute(pkce, Launch(db, reqs), schedule);
            && AllLocksFit(end)
            && forall i, j :: 0 <= i < j < |end.held| ==> end.held[i] !! end.held[j]
  {
    LaunchHoldsInv(pkce, db, reqs);
    LaunchFits(db, reqs);
    RunFits(pkce, db, Launch(db, reqs), schedule);
    ExecuteKeepsInv(pkce, db, Launch(db, reqs), schedule);
    hide Launch, Execute, AllLocksFit, NewNames, Informed, Serialized;
  }
}
