// Runs of both stores from empty ones in which they come to answer one call differently,
// one for each of the causes that Divergence characterises.
module SplitRuns {
  import opened Grants
  import opened GrantRuns
  import opened GrantSafety
  import opened Divergence
  import opened RowRuns
  import opened SignIns
  import opened Simulation
  import P = PostgresGrants

  // Both stores may run the operations from the start.
  ghost predicate BothRun(pkce: Pkce, normal: Normal, t: Time, ops: seq<Op>) {
    AdmissibleRun(pkce, Initial(t), ops) && AllowedRun(pkce, normal, StartRows(t), ops)
  }

  function Rotation(token: string, client: string, policy: Principal -> bool, t: Time, access: string,
                    refresh: string): Op {
    RotateOp(token, client, policy, t, t, t, access, refresh)
  }

  lemma SignedInBoth(pkce: Pkce, normal: Normal, p: Principal, t: Time)
    requires pkce("v", "ch") && P.Storable(p)
    ensures BothRun(pkce, normal, t, SignIn(p, t))
    ensures Run(pkce, Initial(t), SignIn(p, t)) == SignedInWorld(p, t)
    ensures RunRows(pkce, normal, StartRows(t), SignIn(p, t)) == SignedInRows(normal, p, t)
  {
    hide Run, RunRows, AdmissibleRun, AllowedRun;
    SignedIn(pkce, normal, p, t);
    SignedInMemory(pkce, p, t);
  }

  // A reading equal to the token's expiry: still honoured in memory, no longer in the
  // database.
  lemma BoundarySplitsStores(pkce: Pkce, normal: Normal, p: Principal, t: Time)
    requires pkce("v", "ch") && P.Storable(p)
    ensures var w, v := Run(pkce, Initial(t), SignIn(p, t)), RunRows(pkce, normal, StartRows(t), SignIn(p, t));
            var lookup := LookupOp("a1", t + TOKEN_IDLE_TTL);
            && BothRun(pkce, normal, t, SignIn(p, t)) && Admissible(w, lookup) && Allowed(v, lookup)
            && AtBoundary(pkce, w.store, v.db, lookup)
            && ReplyTo(pkce, w, lookup).Verified? && ReplyOf(pkce, normal, v, lookup) == Rejected
  {
    hide Run, RunRows, BothRun, SignIn;
    SignedInBoth(pkce, normal, p, t);
  }

  // --- A code for a client that is not registered ---

  // The in-memory store grants it at once, the database refuses the row.
  lemma UnregisteredCodeSplitsStores(pkce: Pkce, normal: Normal, p: Principal, t: Time)
    ensures var grant := CodeOp("k1", "c", "cb", "ch", [], p, t);
            && Admissible(Initial(t), grant) && Allowed(StartRows(t), grant)
            && ReplyTo(pkce, Initial(t), grant) == Done && ReplyOf(pkce, normal, StartRows(t), grant) == Failed
  {
    assert Draws(CodeOp("k1", "c", "cb", "ch", [], p, t)) == ["k1"];
  }

  // --- A policy that reads the profile ---

  lemma MemoryRotates(pkce: Pkce, w: World, p: Principal, policy: Principal -> bool, t: Time)
    requires w.store.refresh == SignedInStore(p, t).refresh && policy(p)
    requires w.clock == t && "a2" !in w.issued && "r2" !in w.issued
    ensures Admissible(w, Rotation("r1", "c", policy, t, "a2", "r2"))
    ensures ReplyTo(pkce, w, Rotation("r1", "c", policy, t, "a2", "r2")).Issued?
  {
  }

  lemma RowsRefuse(pkce: Pkce, normal: Normal, w: Rows, i: P.Identity, policy: Principal -> bool, t: Time)
    requires w.db.refresh == map["r1" := P.RefreshRow("f", t + TOKEN_IDLE_TTL, None)] && i in w.db.identities
    requires w.db.families == map["f" := P.FamilyRow(i, "c", [], t + TOKEN_IDLE_TTL, None)]
    requires !policy(P.PrincipalOf(i, w.db.identities[i]))
    requires w.clock == t && "a2" !in w.issued && "r2" !in w.issued
    ensures Allowed(w, Rotation("r1", "c", policy, t, "a2", "r2"))
    ensures ReplyOf(pkce, normal, w, Rotation("r1", "c", policy, t, "a2", "r2")) == Rejected
  {
    hide P.InsertTokenPair;
  }

  // Two sign-ins of one identity whose policy answers differ: the in-memory store still
  // judges the first one's principal, the database the profile the second one left.
  lemma ProfilePolicySplitsStores(pkce: Pkce, normal: Normal, p: Principal, q: Principal, policy: Principal -> bool,
                                  t: Time)
    requires pkce("v", "ch") && P.Storable(p) && P.IdentityOf(p) == P.IdentityOf(q) && normal(q.email).Some?
    requires policy(p) && !policy(P.PrincipalOf(P.IdentityOf(q), ProfileOf(normal, q)))
    ensures var ops, rotation := SignIn(p, t) + [SignInAgain(q, t)], Rotation("r1", "c", policy, t, "a2", "r2");
            var w, v := Run(pkce, Initial(t), ops), RunRows(pkce, normal, StartRows(t), ops);
            && BothRun(pkce, normal, t, ops) && Admissible(w, rotation) && Allowed(v, rotation)
            && ReplyTo(pkce, w, rotation).Issued? && ReplyOf(pkce, normal, v, rotation) == Rejected
  {
    hide Run, RunRows, BothRun, SignIn, SignInAgain, Step, StepRows, ReplyTo, ReplyOf, Admissible, Allowed,
      P.PrincipalOf, ProfileOf;
    SignedInBoth(pkce, normal, p, t);
    MemoryAgain(pkce, p, q, t);
    SignedInAgain(pkce, normal, p, q, t);
    OneMore(pkce, normal, t, SignIn(p, t), SignInAgain(q, t));
    var w, v := Step(pkce, SignedInWorld(p, t), SignInAgain(q, t)),
                StepRows(pkce, normal, SignedInRows(normal, p, t), SignInAgain(q, t));
    MemoryRotates(pkce, w, p, policy, t);
    RowsRefuse(pkce, normal, v, P.IdentityOf(p), policy, t);
  }

  // One more operation on a run of both.
  lemma OneMore(pkce: Pkce, normal: Normal, t: Time, ops: seq<Op>, op: Op)
    ensures Run(pkce, Initial(t), ops + [op]) == Step(pkce, Run(pkce, Initial(t), ops), op)
    ensures RunRows(pkce, normal, StartRows(t), ops + [op])
         == StepRows(pkce, normal, RunRows(pkce, normal, StartRows(t), ops), op)
    ensures BothRun(pkce, normal, t, ops + [op])
       <==> BothRun(pkce, normal, t, ops) && Admissible(Run(pkce, Initial(t), ops), op)
            && Allowed(RunRows(pkce, normal, StartRows(t), ops), op)
  {
    hide Step, StepRows, Admissible, Allowed;
    var w, v := Run(pkce, Initial(t), ops), RunRows(pkce, normal, StartRows(t), ops);
    RunSplits(pkce, Initial(t), ops, [op]);
    RowRunSplits(pkce, normal, StartRows(t), ops, [op]);
    assert [op] == [op] + [];
    RunStarts(pkce, w, op, []);
    RowRunStarts(pkce, normal, v, op, []);
  }

  // --- A spent token presented by another client ---

  function AllowAll(): Principal -> bool {
    _ => true
  }

  // The sign-in's refresh token rotated once, by its client.
  function RotatedOnce(t: Time): Op {
    Rotation("r1", "c", AllowAll(), t, "a2", "r2")
  }

  lemma MemoryRotated(pkce: Pkce, p: Principal, t: Time)
    ensures var w, v := SignedInWorld(p, t), Step(pkce, SignedInWorld(p, t), RotatedOnce(t));
            && Admissible(w, RotatedOnce(t)) && v.clock == t && v.issued == {"k1", "f", "a1", "r1", "a2", "r2"}
            && v.store.tokens.Keys == {"a1", "a2"} && v.store.tokens["a2"].family == "f"
            && "r1" !in v.store.refresh && v.store.consumed == map["r1" := "f"]
  {
    hide ExchangeCode, CreateCode, RenewToken, LookupToken, Evict, RegisterClient, RegisterCimdClient;
    assert (set x | x in ["a2", "r2"]) == {"a2", "r2"};
  }

  lemma RowsRotated(pkce: Pkce, normal: Normal, p: Principal, t: Time)
    ensures var w, i := SignedInRows(normal, p, t), P.IdentityOf(p);
            var v := StepRows(pkce, normal, w, RotatedOnce(t));
            && Allowed(w, RotatedOnce(t)) && v.clock == t && v.issued == {"k1", "f", "a1", "r1", "a2", "r2"}
            && "a2" in v.db.access && v.db.access["a2"] == P.AccessRow("f", t + TOKEN_IDLE_TTL)
            && "r1" in v.db.refresh && v.db.refresh["r1"] == P.RefreshRow("f", t + TOKEN_IDLE_TTL, Some(t))
            && v.db.families == map["f" := P.FamilyRow(i, "c", [], t + TOKEN_IDLE_TTL, None)] && i in v.db.identities
  {
    hide P.ExchangeCode, P.CreateCode, P.RenewToken, P.LookupToken, P.EvictExpired, P.RegisterClient,
      P.RegisterCimdClient, P.TouchRow;
    assert DrawnBy(RotatedOnce(t)) == {"a2", "r2"} by {
      assert Draws(RotatedOnce(t))[0] == "a2" && Draws(RotatedOnce(t))[1] == "r2";
    }
  }

  lemma MemoryReplay(pkce: Pkce, w: World, replay: Op, t: Time)
    requires w.clock == t && !("a3" in w.issued || "r3" in w.issued)
    requires replay == Rotation("r1", "other", AllowAll(), t, "a3", "r3")
    requires "r1" !in w.store.refresh && w.store.consumed == map["r1" := "f"]
    requires "a2" in w.store.tokens && w.store.tokens["a2"].family == "f"
    ensures Admissible(w, replay) && ReplyTo(pkce, w, replay) == Rejected
    ensures var v := Step(pkce, w, replay);
            Admissible(v, LookupOp("a2", t)) && ReplyTo(pkce, v, LookupOp("a2", t)) == Rejected
  {
    hide ExchangeCode, CreateCode, RenewToken, Evict, RegisterClient, RegisterCimdClient;
  }

  lemma RowsReplay(pkce: Pkce, normal: Normal, w: Rows, replay: Op, i: P.Identity, t: Time)
    requires w.clock == t && !("a3" in w.issued || "r3" in w.issued)
    requires replay == Rotation("r1", "other", AllowAll(), t, "a3", "r3")
    requires "a2" in w.db.access && w.db.access["a2"] == P.AccessRow("f", t + TOKEN_IDLE_TTL)
    requires "r1" in w.db.refresh && w.db.refresh["r1"] == P.RefreshRow("f", t + TOKEN_IDLE_TTL, Some(t))
    requires w.db.families == map["f" := P.FamilyRow(i, "c", [], t + TOKEN_IDLE_TTL, None)] && i in w.db.identities
    ensures Allowed(w, replay) && ReplyOf(pkce, normal, w, replay) == Rejected
    ensures var v := StepRows(pkce, normal, w, replay);
            Allowed(v, LookupOp("a2", t)) && ReplyOf(pkce, normal, v, LookupOp("a2", t)).Verified?
  {
    hide P.ExchangeCode, P.CreateCode, P.RenewToken, P.EvictExpired, P.RegisterClient, P.RegisterCimdClient;
  }

  // Both stores refuse a spent token that another client presents. The in-memory store
  // ends its family, the database does not: it still honours the new access token.
  lemma ForeignReplaySplitsStores(pkce: Pkce, normal: Normal, p: Principal, t: Time)
    requires pkce("v", "ch") && P.Storable(p)
    ensures var ops, replay := SignIn(p, t) + [RotatedOnce(t)], Rotation("r1", "other", AllowAll(), t, "a3", "r3");
            var w, v := Run(pkce, Initial(t), ops), RunRows(pkce, normal, StartRows(t), ops);
            && BothRun(pkce, normal, t, ops + [replay] + [LookupOp("a2", t)])
            && ReplyTo(pkce, w, replay) == ReplyOf(pkce, normal, v, replay) == Rejected
            && ReplyTo(pkce, Step(pkce, w, replay), LookupOp("a2", t)) == Rejected
            && ReplyOf(pkce, normal, StepRows(pkce, normal, v, replay), LookupOp("a2", t)).Verified?
  {
    hide Run, RunRows, BothRun, SignIn, Step, StepRows, ReplyTo, ReplyOf, Admissible, Allowed;
    var replay := Rotation("r1", "other", AllowAll(), t, "a3", "r3");
    SignedInBoth(pkce, normal, p, t);
    MemoryRotated(pkce, p, t);
    RowsRotated(pkce, normal, p, t);
    OneMore(pkce, normal, t, SignIn(p, t), RotatedOnce(t));
    MemoryReplay(pkce, Step(pkce, SignedInWorld(p, t), RotatedOnce(t)), replay, t);
    RowsReplay(pkce, normal, StepRows(pkce, normal, SignedInRows(normal, p, t), RotatedOnce(t)), replay,
               P.IdentityOf(p), t);
    OneMore(pkce, normal, t, SignIn(p, t) + [RotatedOnce(t)], replay);
    OneMore(pkce, normal, t, SignIn(p, t) + [RotatedOnce(t)] + [replay], LookupOp("a2", t));
  }
}
