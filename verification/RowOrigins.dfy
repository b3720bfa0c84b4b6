// Where the tokens of the PostgreSQL store come from, over every run of the rows: each
// belongs to a family started by an exchange, for the client, the scope and the person
// of the code that was exchanged.
module RowOrigins {
  import opened Grants
  import opened GrantRuns
  import opened Recovered
  import opened RowRuns
  import opened Simulation
  import P = PostgresGrants

  // The operation exchanges a stored code, granted as g, for a pair in the new family f:
  // before its expiry, by its client, with its redirect and a verifier of its challenge.
  predicate StartsRow(pkce: Pkce, codes: map<string, P.CodeRow>, op: Op, f: string, g: RowGrant) {
    op.ExchangeOp? && op.family == f && op.code in codes
    && var row := codes[op.code];
       && g == RowGrant(row.client, row.scope, row.identity)
       && op.check < row.expiresAt && op.client == row.client && op.redirect == row.redirect
       && pkce(op.verifier, row.challenge)
  }

  // ops[i] is that exchange.
  ghost predicate StartedRowAt(pkce: Pkce, normal: Normal, w: Rows, ops: seq<Op>, i: nat, f: string, g: RowGrant) {
    i < |ops| && StartsRow(pkce, RunRows(pkce, normal, w, ops[..i]).db.codes, ops[i], f, g)
  }

  lemma EvictionStartsNone(db: P.Tables, now: Time)
    ensures P.EvictExpired(db, now).families.Keys <= db.families.Keys
  {
  }

  lemma ExchangeStarts(pkce: Pkce, normal: Normal, db: P.Tables, op: Op, f: string)
    requires op.ExchangeOp? && f !in db.families && f in PgApply(pkce, normal, db, op).db.families
    ensures StartsRow(pkce, db.codes, op, f, GrantedFor(PgApply(pkce, normal, db, op).db.families[f]))
  {
  }

  lemma RotationStartsNone(pkce: Pkce, normal: Normal, db: P.Tables, op: Op)
    requires op.RotateOp?
    ensures PgApply(pkce, normal, db, op).db.families.Keys <= db.families.Keys
  {
    hide P.TouchRow;
  }

  lemma OthersStartNone(pkce: Pkce, normal: Normal, db: P.Tables, op: Op)
    requires !op.ExchangeOp? && !op.RotateOp?
    ensures PgApply(pkce, normal, db, op).db.families.Keys <= db.families.Keys
  {
    if op.EvictOp? || op.RegisterOp? || op.CimdOp? { EvictionStartsNone(db, op.now); }
    hide P.EvictExpired, P.SlideRows, P.UpsertIdentity, P.TouchRow, P.CodeFits;
  }

  lemma GrantStays(pkce: Pkce, normal: Normal, w: Rows, op: Op, f: string)
    requires RowsOk(w) && Allowed(w, op) && f in w.db.families
    requires f in StepRows(pkce, normal, w, op).db.families
    ensures GrantedFor(w.db.families[f]) == GrantedFor(StepRows(pkce, normal, w, op).db.families[f])
  {
    StepLasts(pkce, normal, w, op);
    hide PgApply, RefreshLast, AccessLast, Consistent, Allowed, DrawnBy;
    assert f !in DrawnBy(op);
  }

  // A family in place after a step was there before with the same grant, or is the one
  // this exchange starts.
  lemma FamilyComesFrom(pkce: Pkce, normal: Normal, w: Rows, op: Op, f: string)
    requires RowsOk(w) && Allowed(w, op) && f in StepRows(pkce, normal, w, op).db.families
    ensures var g := GrantedFor(StepRows(pkce, normal, w, op).db.families[f]);
            (f in w.db.families && GrantedFor(w.db.families[f]) == g) || StartsRow(pkce, w.db.codes, op, f, g)
  {
    hide PgApply, StartsRow, RowsOk, Allowed;
    if f in w.db.families {
      GrantStays(pkce, normal, w, op, f);
    } else if op.ExchangeOp? {
      ExchangeStarts(pkce, normal, w.db, op, f);
    } else if op.RotateOp? {
      RotationStartsNone(pkce, normal, w.db, op);
    } else {
      OthersStartNone(pkce, normal, w.db, op);
    }
  }

  lemma OneRowStep(pkce: Pkce, normal: Normal, w: Rows, op: Op)
    ensures RunRows(pkce, normal, w, [op]) == StepRows(pkce, normal, w, op)
    ensures AllowedRun(pkce, normal, w, [op]) <==> Allowed(w, op)
  {
    assert [op][1..] == [];
    assert RunRows(pkce, normal, StepRows(pkce, normal, w, op), []) == StepRows(pkce, normal, w, op);
  }

  lemma {:induction false} FamilyIsAnExchange(pkce: Pkce, normal: Normal, w: Rows, ops: seq<Op>, f: string)
    requires RowsOk(w) && AllowedRun(pkce, normal, w, ops) && f !in w.db.families
    requires f in RunRows(pkce, normal, w, ops).db.families
    ensures exists i: nat ::
              StartedRowAt(pkce, normal, w, ops, i, f, GrantedFor(RunRows(pkce, normal, w, ops).db.families[f]))
    decreases |ops|
  {
    hide StepRows, StartsRow, RowsOk, Allowed;
    assert ops != [];
    var init, last := ops[..|ops| - 1], ops[|ops| - 1];
    assert ops == init + [last];
    RowRunSplits(pkce, normal, w, init, [last]);
    var before := RunRows(pkce, normal, w, init);
    OneRowStep(pkce, normal, before, last);
    RunKeepsRows(pkce, normal, w, init);
    var g := GrantedFor(RunRows(pkce, normal, w, ops).db.families[f]);
    FamilyComesFrom(pkce, normal, before, last, f);
    if f in before.db.families && GrantedFor(before.db.families[f]) == g {
      FamilyIsAnExchange(pkce, normal, w, init, f);
      var i: nat :| StartedRowAt(pkce, normal, w, init, i, f, g);
      assert ops[..i] == init[..i];
      assert StartedRowAt(pkce, normal, w, ops, i, f, g);
    } else {
      assert StartedRowAt(pkce, normal, w, ops, |ops| - 1, f, g);
    }
  }

  // Every stored access or refresh row belongs to a stored family, which carries the
  // client, the scope and the person of the code whose exchange started it.
  lemma {:induction false} RowsKeepTheirOrigin(pkce: Pkce, normal: Normal, start: Time, ops: seq<Op>, f: string)
    requires AllowedRun(pkce, normal, StartRows(start), ops)
    requires var db := RunRows(pkce, normal, StartRows(start), ops).db;
             (exists a :: OfFamily(db, a, f)) || (exists r :: r in db.refresh && db.refresh[r].family == f)
    ensures f in RunRows(pkce, normal, StartRows(start), ops).db.families
    ensures exists i: nat :: StartedRowAt(pkce, normal, StartRows(start), ops, i, f,
                               GrantedFor(RunRows(pkce, normal, StartRows(start), ops).db.families[f]))
  {
    ReachableRows(pkce, normal, start, ops);
    StartIsOk(start);
    var w := RunRows(pkce, normal, StartRows(start), ops);
    TokensHaveFamilies(w.db, w.clock, f);
    hide RunRows, AllowedRun, StartedRowAt, Consistent;
    FamilyIsAnExchange(pkce, normal, StartRows(start), ops, f);
  }

  lemma TokensHaveFamilies(db: P.Tables, t: Time, f: string)
    requires Consistent(db, t)
    requires (exists a :: OfFamily(db, a, f)) || (exists r :: r in db.refresh && db.refresh[r].family == f)
    ensures f in db.families
  {
  }
}
