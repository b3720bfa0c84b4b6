// Whole runs of the PostgreSQL store on its own, with any clients, policies and readings,
// those that equal an expiry included: its row invariant, one grant for a code, and what a
// revocation and a replay mean for good.
module RowRuns {
  import opened Collections
  import opened Grants
  import opened GrantRuns
  import opened Recovered
  import opened RowInvariant
  import opened Simulation
  import P = PostgresGrants

  // The rows with the last reading and all random strings drawn so far. A transaction
  // reads the clock once.
  datatype Rows = Rows(db: P.Tables, clock: Time, issued: set<string>)

  function StartRows(t: Time): Rows {
    Rows(P.NO_ROWS, t, {})
  }

  type Normal = string -> Option<string>

  ghost predicate Allowed(w: Rows, op: Op) {
    w.clock <= First(op) && NeverSeen(Draws(op), w.issued)
  }

  function StepRows(pkce: Pkce, normal: Normal, w: Rows, op: Op): Rows {
    Rows(PgApply(pkce, normal, w.db, op).db, First(op), w.issued + (set x | x in Draws(op)))
  }

  function ReplyOf(pkce: Pkce, normal: Normal, w: Rows, op: Op): Reply {
    PgApply(pkce, normal, w.db, op).reply
  }

  ghost predicate AllowedRun(pkce: Pkce, normal: Normal, w: Rows, ops: seq<Op>)
    decreases |ops|
  {
    ops == [] || (Allowed(w, ops[0]) && AllowedRun(pkce, normal, StepRows(pkce, normal, w, ops[0]), ops[1..]))
  }

  ghost function RunRows(pkce: Pkce, normal: Normal, w: Rows, ops: seq<Op>): Rows
    decreases |ops|
  {
    if ops == [] then w else RunRows(pkce, normal, StepRows(pkce, normal, w, ops[0]), ops[1..])
  }

  // --- The row invariant ---

  ghost predicate RowsOk(w: Rows) {
    Consistent(w.db, w.clock) && NamesIn(w.db, w.issued)
  }

  lemma AllowedIsFresh(w: Rows, op: Op)
    requires NamesIn(w.db, w.issued) && Allowed(w, op)
    ensures FreshFor(w.db, op)
  {
    assert op.ExchangeOp? ==> Draws(op)[0] == op.family && Draws(op)[2] == op.refresh;
    assert op.RotateOp? ==> Draws(op)[1] == op.refresh;
    assert op.CodeOp? ==> Draws(op)[0] == op.code;
  }

  lemma StepKeepsRows(pkce: Pkce, normal: Normal, w: Rows, op: Op)
    requires RowsOk(w) && Allowed(w, op)
    ensures RowsOk(StepRows(pkce, normal, w, op))
  {
    hide Consistent, NamesIn, PgApply;
    AllowedIsFresh(w, op);
    RowsStayConsistent(pkce, normal, w.db, op, w.clock);
    NamesStayIn(pkce, normal, w.db, op, w.issued, w.clock);
  }

  // The row invariant holds throughout every run: foreign keys, one current refresh row
  // in each family, expiring with it, and no access row that outlives its family.
  lemma {:induction false} RunKeepsRows(pkce: Pkce, normal: Normal, w: Rows, ops: seq<Op>)
    requires RowsOk(w) && AllowedRun(pkce, normal, w, ops)
    ensures RowsOk(RunRows(pkce, normal, w, ops))
    decreases |ops|
  {
    hide RowsOk, StepRows, Allowed;
    if ops != [] {
      StepKeepsRows(pkce, normal, w, ops[0]);
      RunKeepsRows(pkce, normal, StepRows(pkce, normal, w, ops[0]), ops[1..]);
    }
  }

  lemma StartIsOk(t: Time)
    ensures RowsOk(StartRows(t))
  {
  }

  lemma {:induction false} ReachableRows(pkce: Pkce, normal: Normal, start: Time, ops: seq<Op>)
    requires AllowedRun(pkce, normal, StartRows(start), ops)
    ensures RowsOk(RunRows(pkce, normal, StartRows(start), ops))
  {
    hide RowsOk, StartRows;
    StartIsOk(start);
    RunKeepsRows(pkce, normal, StartRows(start), ops);
  }

  lemma {:induction false} RowRunSplits(pkce: Pkce, normal: Normal, w: Rows, ops: seq<Op>, more: seq<Op>)
    ensures RunRows(pkce, normal, w, ops + more) == RunRows(pkce, normal, RunRows(pkce, normal, w, ops), more)
    ensures AllowedRun(pkce, normal, w, ops + more)
       <==> AllowedRun(pkce, normal, w, ops) && AllowedRun(pkce, normal, RunRows(pkce, normal, w, ops), more)
    decreases |ops|
  {
    hide StepRows, Allowed;
    if ops == [] {
      assert ops + more == more;
    } else {
      assert (ops + more)[1..] == ops[1..] + more;
      RowRunSplits(pkce, normal, StepRows(pkce, normal, w, ops[0]), ops[1..], more);
    }
  }

  // --- Families that are over ---

  // The family is revoked, or its rows are gone.
  ghost predicate Over(db: P.Tables, f: string) {
    f in db.families ==> db.families[f].revokedAt.Some?
  }

  // The operation honours a token of family f.
  ghost predicate Honours(pkce: Pkce, normal: Normal, w: Rows, op: Op, f: string) {
    match op
    case LookupOp(access, _) => OfFamily(w.db, access, f) && ReplyOf(pkce, normal, w, op).Verified?
    case RenewOp(access, _) => OfFamily(w.db, access, f) && ReplyOf(pkce, normal, w, op).Verified?
    case RotateOp(token, _, _, _, _, _, _, _) =>
      token in w.db.refresh && w.db.refresh[token].family == f && ReplyOf(pkce, normal, w, op).Issued?
    case _ => false
  }

  predicate OfFamily(db: P.Tables, access: string, f: string) {
    access in db.access && db.access[access].family == f
  }

  ghost predicate NeverHonoured(pkce: Pkce, normal: Normal, w: Rows, ops: seq<Op>, f: string)
    decreases |ops|
  {
    ops == [] || (!Honours(pkce, normal, w, ops[0], f)
                  && NeverHonoured(pkce, normal, StepRows(pkce, normal, w, ops[0]), ops[1..], f))
  }

  lemma OverIsNotHonoured(pkce: Pkce, normal: Normal, w: Rows, op: Op, f: string)
    requires Over(w.db, f)
    ensures !Honours(pkce, normal, w, op, f)
  {
  }

  // --- What every transaction leaves as it is ---

  // What a family was granted for: the client, the scope and the person of its code.
  datatype RowGrant = RowGrant(client: string, scope: seq<string>, identity: P.Identity)

  function GrantedFor(f: P.FamilyRow): RowGrant {
    RowGrant(f.client, f.scope, f.identity)
  }

  // Families only go, or keep what they were granted for and a revocation.
  ghost predicate FamiliesLast(a: P.Tables, b: P.Tables, drawn: set<string>) {
    forall f :: f in b.families && f !in drawn ==>
      f in a.families && GrantedFor(b.families[f]) == GrantedFor(a.families[f])
      && (a.families[f].revokedAt.Some? ==> b.families[f].revokedAt.Some?)
  }

  // Refresh rows only go with their family, and keep it and a consumption.
  ghost predicate RefreshLast(a: P.Tables, b: P.Tables, drawn: set<string>) {
    && (forall r :: r in b.refresh && r !in drawn ==>
          r in a.refresh && b.refresh[r].family == a.refresh[r].family
          && (a.refresh[r].consumedAt.Some? ==> b.refresh[r].consumedAt.Some?))
    && (forall r :: r in a.refresh && r !in b.refresh ==> a.refresh[r].family !in b.families)
  }

  // Access rows stay in their family.
  ghost predicate AccessLast(a: P.Tables, b: P.Tables, drawn: set<string>) {
    forall k :: k in b.access && k !in drawn ==> k in a.access && b.access[k].family == a.access[k].family
  }

  ghost predicate Lasting(a: P.Tables, b: P.Tables, drawn: set<string>) {
    && (forall c :: c in b.codes && c !in drawn ==> c in a.codes && b.codes[c] == a.codes[c])
    && FamiliesLast(a, b, drawn) && RefreshLast(a, b, drawn) && AccessLast(a, b, drawn)
  }

  lemma SameLasts(a: P.Tables, b: P.Tables, drawn: set<string>)
    requires b.codes == a.codes && b.families == a.families && b.refresh == a.refresh && b.access == a.access
    ensures Lasting(a, b, drawn)
  {
  }

  lemma ThinLasts(a: P.Tables, b: P.Tables, drawn: set<string>)
    requires Thins(a, b)
    ensures Lasting(a, b, drawn)
  {
  }

  lemma ThinsTwice(a: P.Tables, b: P.Tables, c: P.Tables)
    requires Thins(a, b) && Thins(b, c)
    ensures Thins(a, c)
  {
  }

  lemma EvictionLasts(db: P.Tables, now: Time, drawn: set<string>)
    requires Consistent(db, now)
    ensures Lasting(db, P.EvictExpired(db, now), drawn)
  {
    hide Thins, Lasting;
    var swept := P.SweepRows(db, now);
    SweepThins(db, now);
    ThinConsistent(db, swept, now);
    DropThins(swept, now);
    ThinsTwice(db, swept, P.EvictExpired(db, now));
    ThinLasts(db, P.EvictExpired(db, now), drawn);
  }

  lemma RegistrationLasts(pkce: Pkce, normal: Normal, db: P.Tables, op: Op, drawn: set<string>)
    requires (op.RegisterOp? || op.CimdOp?) && Consistent(db, op.now)
    ensures Lasting(db, PgApply(pkce, normal, db, op).db, drawn)
  {
    hide Consistent, P.EvictExpired, Lasting;
    EvictionLasts(db, op.now, drawn);
    SameLasts(db, db, drawn);
    if PgApply(pkce, normal, db, op).db != db {
      ClientsDoNotMatter(db, P.EvictExpired(db, op.now), PgApply(pkce, normal, db, op).db, drawn);
    }
  }

  lemma ClientsDoNotMatter(a: P.Tables, b: P.Tables, c: P.Tables, drawn: set<string>)
    requires Lasting(a, b, drawn)
    requires c.codes == b.codes && c.families == b.families && c.refresh == b.refresh && c.access == b.access
    ensures Lasting(a, c, drawn)
  {
  }

  lemma PairLasts(a: P.Tables, b: P.Tables, family: string, row: P.FamilyRow, access: string, refresh: string,
                  now: Time, drawn: set<string>)
    requires Lasting(a, b, drawn) && b.refresh.Keys == a.refresh.Keys && access in drawn && refresh in drawn
    requires family in drawn
      || (family in b.families && GrantedFor(row) == GrantedFor(b.families[family])
          && (b.families[family].revokedAt.Some? ==> row.revokedAt.Some?))
    ensures Lasting(a, P.InsertTokenPair(b, family, row, access, refresh, now), drawn)
  {
    hide P.TouchRow;
  }

  lemma BurningLasts(a: P.Tables, code: string, drawn: set<string>)
    ensures Lasting(a, a.(codes := Delete(a.codes, code)), drawn)
  {
  }

  lemma ConsumingLasts(a: P.Tables, token: string, now: Time, drawn: set<string>)
    requires token in a.refresh
    ensures Lasting(a, a.(refresh := a.refresh[token := a.refresh[token].(consumedAt := Some(now))]), drawn)
  {
  }

  lemma RevokingLasts(a: P.Tables, f: string, now: Time, drawn: set<string>)
    requires f in a.families
    ensures Lasting(a, P.Revoke(a, f, now), drawn)
  {
  }

  lemma ExchangeLasts(pkce: Pkce, normal: Normal, db: P.Tables, op: Op, drawn: set<string>)
    requires op.ExchangeOp? && op.family in drawn && op.access in drawn && op.refresh in drawn
    ensures Lasting(db, PgApply(pkce, normal, db, op).db, drawn)
  {
    hide Lasting, FamiliesLast, RefreshLast, AccessLast, P.InsertTokenPair, P.CodeRowAccepts, Delete;
    SameLasts(db, db, drawn);
    BurningLasts(db, op.code, drawn);
    if op.code in db.codes {
      var row := db.codes[op.code];
      PairLasts(db, db.(codes := Delete(db.codes, op.code)), op.family,
                P.FamilyRow(row.identity, op.client, row.scope, op.check + TOKEN_IDLE_TTL, None), op.access, op.refresh,
                op.check, drawn);
    }
  }

  lemma RotationLasts(pkce: Pkce, normal: Normal, db: P.Tables, op: Op, drawn: set<string>)
    requires op.RotateOp? && op.access in drawn && op.refresh in drawn
    ensures Lasting(db, PgApply(pkce, normal, db, op).db, drawn)
  {
    hide Lasting, FamiliesLast, RefreshLast, AccessLast, P.InsertTokenPair, P.Revoke;
    SameLasts(db, db, drawn);
    if op.token in db.refresh && P.Joined(db, db.refresh[op.token].family) {
      var f := db.refresh[op.token].family;
      RevokingLasts(db, f, op.check, drawn);
      ConsumingLasts(db, op.token, op.check, drawn);
      PairLasts(db, db.(refresh := db.refresh[op.token := db.refresh[op.token].(consumedAt := Some(op.check))]), f,
                db.families[f].(expiresAt := op.check + TOKEN_IDLE_TTL), op.access, op.refresh, op.check, drawn);
    }
  }

  lemma RenewalLasts(pkce: Pkce, normal: Normal, db: P.Tables, op: Op, drawn: set<string>)
    requires op.RenewOp?
    ensures Lasting(db, PgApply(pkce, normal, db, op).db, drawn)
  {
  }

  lemma CodeLasts(pkce: Pkce, normal: Normal, db: P.Tables, op: Op, drawn: set<string>)
    requires op.CodeOp? && op.code in drawn
    ensures Lasting(db, PgApply(pkce, normal, db, op).db, drawn)
  {
  }

  function DrawnBy(op: Op): set<string> {
    set x | x in Draws(op)
  }

  lemma DrawnNames(op: Op)
    ensures op.ExchangeOp? ==> op.family in DrawnBy(op) && op.access in DrawnBy(op) && op.refresh in DrawnBy(op)
    ensures op.RotateOp? ==> op.access in DrawnBy(op) && op.refresh in DrawnBy(op)
    ensures op.CodeOp? ==> op.code in DrawnBy(op)
  {
    assert op.ExchangeOp? ==> Draws(op)[0] == op.family && Draws(op)[1] == op.access && Draws(op)[2] == op.refresh;
    assert op.RotateOp? ==> Draws(op)[0] == op.access && Draws(op)[1] == op.refresh;
    assert op.CodeOp? ==> Draws(op)[0] == op.code;
  }

  // Every transaction: codes go for good, families and refresh rows lose nothing they
  // stand for, and only the names it draws are new.
  lemma StepLasts(pkce: Pkce, normal: Normal, w: Rows, op: Op)
    requires RowsOk(w) && Allowed(w, op)
    ensures Lasting(w.db, StepRows(pkce, normal, w, op).db, DrawnBy(op))
    ensures DrawnBy(op) !! w.issued
  {
    ConsistentLater(w.db, w.clock, First(op));
    DrawnNames(op);
    hide Consistent, Lasting, P.EvictExpired, DrawnBy;
    var drawn := DrawnBy(op);
    match op
    case ExchangeOp(_, _, _, _, _, _, _, _, _) => ExchangeLasts(pkce, normal, w.db, op, drawn);
    case RotateOp(_, _, _, _, _, _, _, _) => RotationLasts(pkce, normal, w.db, op, drawn);
    case EvictOp(now) => EvictionLasts(w.db, now, drawn);
    case RegisterOp(_, _, _) => RegistrationLasts(pkce, normal, w.db, op, drawn);
    case CimdOp(_, _, _) => RegistrationLasts(pkce, normal, w.db, op, drawn);
    case RenewOp(_, _) => RenewalLasts(pkce, normal, w.db, op, drawn);
    case CodeOp(_, _, _, _, _, _, _) => CodeLasts(pkce, normal, w.db, op, drawn);
    case LookupOp(_, _) => SameLasts(w.db, w.db, drawn);
  }

  // --- Revocation is for good ---

  lemma OverStays(pkce: Pkce, normal: Normal, w: Rows, op: Op, f: string)
    requires RowsOk(w) && Allowed(w, op) && f in w.issued && Over(w.db, f)
    ensures Over(StepRows(pkce, normal, w, op).db, f)
  {
    hide PgApply, RowsOk, Allowed, DrawnBy, RefreshLast, AccessLast;
    StepLasts(pkce, normal, w, op);
  }

  lemma {:induction false} OverIsForever(pkce: Pkce, normal: Normal, w: Rows, ops: seq<Op>, f: string)
    requires RowsOk(w) && AllowedRun(pkce, normal, w, ops) && f in w.issued && Over(w.db, f)
    ensures NeverHonoured(pkce, normal, w, ops, f) && Over(RunRows(pkce, normal, w, ops).db, f)
    decreases |ops|
  {
    hide RowsOk, Allowed, Over, Honours, PgApply;
    if ops != [] {
      OverIsNotHonoured(pkce, normal, w, ops[0], f);
      OverStays(pkce, normal, w, ops[0], f);
      StepKeepsRows(pkce, normal, w, ops[0]);
      OverIsForever(pkce, normal, StepRows(pkce, normal, w, ops[0]), ops[1..], f);
    }
  }

  // --- Replay ---

  // The refresh token of client's family f was rotated: its row is consumed, or gone
  // together with the family.
  ghost predicate Spent(db: P.Tables, token: string, f: string, client: string) {
    && (f in db.families ==> db.families[f].client == client)
    && (if token in db.refresh then db.refresh[token].family == f && db.refresh[token].consumedAt.Some?
        else f !in db.families)
  }

  lemma RotationSpends(pkce: Pkce, normal: Normal, w: Rows, op: Op)
    requires RowsOk(w) && Allowed(w, op) && op.RotateOp? && ReplyOf(pkce, normal, w, op).Issued?
    ensures op.token in w.db.refresh && w.db.refresh[op.token].family in w.db.families
    ensures op.token in w.issued && w.db.refresh[op.token].family in w.issued
    ensures Spent(StepRows(pkce, normal, w, op).db, op.token, w.db.refresh[op.token].family, op.client)
  {
    AllowedIsFresh(w, op);
    hide Consistent, Allowed;
  }

  lemma LastingKeepsSpent(a: P.Tables, b: P.Tables, drawn: set<string>, token: string, f: string, client: string)
    requires FamiliesLast(a, b, drawn) && RefreshLast(a, b, drawn) && token !in drawn && f !in drawn
    requires Spent(a, token, f, client)
    ensures Spent(b, token, f, client)
  {
  }

  lemma SpentStays(pkce: Pkce, normal: Normal, w: Rows, op: Op, token: string, f: string, client: string)
    requires RowsOk(w) && Allowed(w, op) && token in w.issued && f in w.issued && Spent(w.db, token, f, client)
    ensures Spent(StepRows(pkce, normal, w, op).db, token, f, client)
  {
    hide PgApply, RowsOk, Allowed, DrawnBy, Spent, FamiliesLast, RefreshLast, AccessLast, StepRows;
    StepLasts(pkce, normal, w, op);
    LastingKeepsSpent(w.db, StepRows(pkce, normal, w, op).db, DrawnBy(op), token, f, client);
  }

  lemma {:induction false} SpentIsForever(pkce: Pkce, normal: Normal, w: Rows, ops: seq<Op>,
                                          token: string, f: string, client: string)
    requires RowsOk(w) && AllowedRun(pkce, normal, w, ops)
    requires token in w.issued && f in w.issued && Spent(w.db, token, f, client)
    ensures Spent(RunRows(pkce, normal, w, ops).db, token, f, client)
    ensures w.issued <= RunRows(pkce, normal, w, ops).issued
    decreases |ops|
  {
    hide RowsOk, Allowed, Spent, PgApply;
    if ops != [] {
      SpentStays(pkce, normal, w, ops[0], token, f, client);
      StepKeepsRows(pkce, normal, w, ops[0]);
      SpentIsForever(pkce, normal, StepRows(pkce, normal, w, ops[0]), ops[1..], token, f, client);
    }
  }

  // Whoever presents a spent token is refused. For the family's own client that ends the
  // family; for any other it changes nothing.
  lemma SpentIsRefused(pkce: Pkce, normal: Normal, w: Rows, op: Op, f: string, client: string)
    requires RowsOk(w) && op.RotateOp? && Spent(w.db, op.token, f, client)
    ensures ReplyOf(pkce, normal, w, op) == Rejected
    ensures op.client == client ==> Over(StepRows(pkce, normal, w, op).db, f)
    ensures op.client != client ==> StepRows(pkce, normal, w, op).db == w.db
  {
    if op.token in w.db.refresh {
      assert P.Joined(w.db, f);
    }
  }

  // A token rotated once and presented again, after any run between: refused, and when it
  // is the family's own client that presents it, the family is never honoured again.
  lemma ReplayEndsFamily(pkce: Pkce, normal: Normal, w: Rows, rotation: Op, between: seq<Op>, replay: Op, rest: seq<Op>)
    requires RowsOk(w) && rotation.RotateOp? && replay.RotateOp? && replay.token == rotation.token
    requires AllowedRun(pkce, normal, w, [rotation] + between + [replay] + rest)
    requires ReplyOf(pkce, normal, w, rotation).Issued?
    ensures rotation.token in w.db.refresh
    ensures var f := w.db.refresh[rotation.token].family;
            var v := RunRows(pkce, normal, w, [rotation] + between);
            && ReplyOf(pkce, normal, v, replay) == Rejected
            && (replay.client == rotation.client ==>
                  NeverHonoured(pkce, normal, StepRows(pkce, normal, v, replay), rest, f))
            && (replay.client != rotation.client ==> StepRows(pkce, normal, v, replay).db == v.db)
  {
    hide RowsOk, Allowed, Spent, PgApply, Over, NeverHonoured;
    var token, w1 := rotation.token, StepRows(pkce, normal, w, rotation);
    assert [rotation] + between + [replay] + rest == ([rotation] + between) + ([replay] + rest);
    RowRunSplits(pkce, normal, w, [rotation] + between, [replay] + rest);
    assert ([rotation] + between)[1..] == between && ([replay] + rest)[1..] == rest;
    RotationSpends(pkce, normal, w, rotation);
    StepKeepsRows(pkce, normal, w, rotation);
    var f := w.db.refresh[token].family;
    SpentIsForever(pkce, normal, w1, between, token, f, rotation.client);
    RunKeepsRows(pkce, normal, w1, between);
    var v := RunRows(pkce, normal, w1, between);
    SpentIsRefused(pkce, normal, v, replay, f, rotation.client);
    if replay.client == rotation.client {
      StepKeepsRows(pkce, normal, v, replay);
      OverIsForever(pkce, normal, StepRows(pkce, normal, v, replay), rest, f);
    }
  }

  // --- Codes ---

  lemma {:induction false} BurnedIsForever(pkce: Pkce, normal: Normal, w: Rows, ops: seq<Op>, code: string)
    requires RowsOk(w) && AllowedRun(pkce, normal, w, ops) && code in w.issued && code !in w.db.codes
    ensures code !in RunRows(pkce, normal, w, ops).db.codes
    decreases |ops|
  {
    hide RowsOk, Allowed, PgApply, FamiliesLast, RefreshLast;
    if ops != [] {
      StepLasts(pkce, normal, w, ops[0]);
      StepKeepsRows(pkce, normal, w, ops[0]);
      BurnedIsForever(pkce, normal, StepRows(pkce, normal, w, ops[0]), ops[1..], code);
    }
  }

  // The first attempt on a stored code uses it up, whatever its answer.
  lemma CodeIsTriedOnce(pkce: Pkce, normal: Normal, w: Rows, first: Op, between: seq<Op>, again: Op)
    requires RowsOk(w) && first.ExchangeOp? && again.ExchangeOp? && again.code == first.code
    requires first.code in w.db.codes && AllowedRun(pkce, normal, w, [first] + between)
    ensures ReplyOf(pkce, normal, RunRows(pkce, normal, w, [first] + between), again) == Rejected
  {
    hide Allowed, Consistent;
    assert ([first] + between)[1..] == between;
    StepKeepsRows(pkce, normal, w, first);
    BurnedIsForever(pkce, normal, StepRows(pkce, normal, w, first), between, first.code);
  }

  // --- The cap on clients ---

  lemma EvictionAddsNoClient(db: P.Tables, now: Time)
    ensures P.EvictExpired(db, now).clients.Keys <= db.clients.Keys
  {
  }

  lemma OneMoreClient(kept: map<string, P.ClientRow>, id: string, row: P.ClientRow)
    requires |kept| <= 50 && (id in kept || |kept| < 50)
    ensures |kept[id := row]| <= 50
  {
    assert kept[id := row].Keys == kept.Keys + {id};
    assert id in kept ==> kept.Keys + {id} == kept.Keys;
  }

  lemma RegistrationCapped(pkce: Pkce, normal: Normal, db: P.Tables, op: Op)
    requires (op.RegisterOp? || op.CimdOp?) && |db.clients| <= 50
    ensures |PgApply(pkce, normal, db, op).db.clients| <= 50
  {
    hide P.EvictExpired, P.ClientFits;
    EvictionAddsNoClient(db, op.now);
    var swept := P.EvictExpired(db, op.now);
    SubsetSize(swept.clients.Keys, db.clients.Keys);
    var out := PgApply(pkce, normal, db, op).db;
    if out != db {
      OneMoreClient(swept.clients, op.id, out.clients[op.id]);
      assert out.clients == swept.clients[op.id := out.clients[op.id]];
    }
  }

  lemma OthersAddNoClient(pkce: Pkce, normal: Normal, db: P.Tables, op: Op)
    requires !op.RegisterOp? && !op.CimdOp?
    ensures PgApply(pkce, normal, db, op).db.clients.Keys <= db.clients.Keys
  {
    if op.EvictOp? { EvictionAddsNoClient(db, op.now); }
    hide P.EvictExpired, P.SlideRows, P.UpsertIdentity, P.CodeRowAccepts, P.RegisterClient, P.RegisterCimdClient;
  }

  // At most 50 clients are ever registered, whatever transactions run.
  lemma {:induction false} ClientRowsStayCapped(pkce: Pkce, normal: Normal, w: Rows, ops: seq<Op>)
    requires |w.db.clients| <= 50
    ensures |RunRows(pkce, normal, w, ops).db.clients| <= 50
    decreases |ops|
  {
    hide PgApply;
    if ops != [] {
      if ops[0].RegisterOp? || ops[0].CimdOp? {
        RegistrationCapped(pkce, normal, w.db, ops[0]);
      } else {
        OthersAddNoClient(pkce, normal, w.db, ops[0]);
        SubsetSize(PgApply(pkce, normal, w.db, ops[0]).db.clients.Keys, w.db.clients.Keys);
      }
      ClientRowsStayCapped(pkce, normal, StepRows(pkce, normal, w, ops[0]), ops[1..]);
    }
  }
}
