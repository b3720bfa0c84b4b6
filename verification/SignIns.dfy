// One sign-in from empty stores, as both of them see it: a client, a code, its exchange.
module SignIns {
  import opened Grants
  import opened GrantRuns
  import opened GrantSafety
  import opened RowRuns
  import opened Simulation
  import P = PostgresGrants

  function SignIn(p: Principal, t: Time): seq<Op> {
    [CimdOp("c", ["cb"], t), CodeOp("k1", "c", "cb", "ch", [], p, t),
     ExchangeOp("k1", "c", "cb", "v", t, t, "f", "a1", "r1")]
  }

  function ProfileOf(normal: Normal, p: Principal): P.Profile {
    P.Profile(normal(p.email), p.emailVerified && normal(p.email).Some?)
  }

  lemma RowRunStarts(pkce: Pkce, normal: Normal, w: Rows, op: Op, ops: seq<Op>)
    ensures RunRows(pkce, normal, w, [op] + ops) == RunRows(pkce, normal, StepRows(pkce, normal, w, op), ops)
    ensures AllowedRun(pkce, normal, w, [op] + ops)
       <==> Allowed(w, op) && AllowedRun(pkce, normal, StepRows(pkce, normal, w, op), ops)
  {
    assert ([op] + ops)[1..] == ops;
  }

  // The rows after that sign-in at time t.
  function SignedInRows(normal: Normal, p: Principal, t: Time): Rows {
    Rows(P.Tables(map[P.IdentityOf(p) := ProfileOf(normal, p)], map["c" := P.ClientRow(["cb"], true, false, t)], map[],
                  map["f" := P.FamilyRow(P.IdentityOf(p), "c", [], t + TOKEN_IDLE_TTL, None)],
                  map["a1" := P.AccessRow("f", t + TOKEN_IDLE_TTL)],
                  map["r1" := P.RefreshRow("f", t + TOKEN_IDLE_TTL, None)]),
         t, {"k1", "f", "a1", "r1"})
  }

  lemma EmptySwept(t: Time)
    ensures P.EvictExpired(P.NO_ROWS, t) == P.NO_ROWS
  {
    assert P.SweepRows(P.NO_ROWS, t) == P.NO_ROWS;
  }

  lemma ClientRegistered(pkce: Pkce, normal: Normal, t: Time)
    ensures var op := CimdOp("c", ["cb"], t);
            Allowed(StartRows(t), op) && StepRows(pkce, normal, StartRows(t), op)
              == Rows(P.NO_ROWS.(clients := map["c" := P.ClientRow(["cb"], true, false, t)]), t, {})
  {
    EmptySwept(t);
    assert "c"[0] != ' ' && P.ClientFits("c", ["cb"]);
    hide P.EvictExpired, P.ClientFits;
    assert DrawnBy(CimdOp("c", ["cb"], t)) == {};
  }

  lemma CodeGranted(pkce: Pkce, normal: Normal, p: Principal, t: Time)
    requires P.Storable(p)
    ensures var w := Rows(P.NO_ROWS.(clients := map["c" := P.ClientRow(["cb"], true, false, t)]), t, {});
            var op := CodeOp("k1", "c", "cb", "ch", [], p, t);
            var i := P.IdentityOf(p);
            Allowed(w, op) && StepRows(pkce, normal, w, op)
              == Rows(w.db.(identities := map[i := ProfileOf(normal, p)],
                            codes := map["k1" := P.CodeRow(i, "c", "cb", "ch", [], t + AUTH_CODE_TTL)]), t, {"k1"})
  {
    assert DrawnBy(CodeOp("k1", "c", "cb", "ch", [], p, t)) == {"k1"} by {
      assert Draws(CodeOp("k1", "c", "cb", "ch", [], p, t))[0] == "k1";
    }
    hide P.RegisterClient, P.RegisterCimdClient, P.EvictExpired, P.RotateRefresh;
  }

  lemma CodeExchanged(pkce: Pkce, normal: Normal, p: Principal, t: Time)
    requires pkce("v", "ch") && P.Storable(p)
    ensures var i := P.IdentityOf(p);
            var w := Rows(P.NO_ROWS.(clients := map["c" := P.ClientRow(["cb"], true, false, t)],
                                     identities := map[i := ProfileOf(normal, p)],
                                     codes := map["k1" := P.CodeRow(i, "c", "cb", "ch", [], t + AUTH_CODE_TTL)]),
                          t, {"k1"});
            var op := ExchangeOp("k1", "c", "cb", "v", t, t, "f", "a1", "r1");
            Allowed(w, op)
            && StepRows(pkce, normal, w, op) == SignedInRows(normal, p, t)
  {
    var op := ExchangeOp("k1", "c", "cb", "v", t, t, "f", "a1", "r1");
    assert Draws(op) == ["f", "a1", "r1"];
    assert DrawnBy(op) == {"f", "a1", "r1"} by {
      assert Draws(op)[0] == "f" && Draws(op)[1] == "a1" && Draws(op)[2] == "r1";
    }
    hide P.RegisterClient, P.RegisterCimdClient, P.EvictExpired, P.RotateRefresh;
  }

  lemma ThreeRowSteps(pkce: Pkce, normal: Normal, w: Rows, a: Op, b: Op, c: Op)
    ensures var w1 := StepRows(pkce, normal, w, a);
            var w2 := StepRows(pkce, normal, w1, b);
            RunRows(pkce, normal, w, [a, b, c]) == StepRows(pkce, normal, w2, c)
            && (AllowedRun(pkce, normal, w, [a, b, c]) <==> Allowed(w, a) && Allowed(w1, b) && Allowed(w2, c))
  {
    hide StepRows, Allowed;
    assert [a, b, c] == [a] + [b, c] && [b, c] == [b] + [c] && [c] == [c] + [];
    var w1 := StepRows(pkce, normal, w, a);
    RowRunStarts(pkce, normal, w, a, [b, c]);
    RowRunStarts(pkce, normal, w1, b, [c]);
    RowRunStarts(pkce, normal, StepRows(pkce, normal, w1, b), c, []);
  }

  lemma SignedIn(pkce: Pkce, normal: Normal, p: Principal, t: Time)
    requires pkce("v", "ch") && P.Storable(p)
    ensures AllowedRun(pkce, normal, StartRows(t), SignIn(p, t))
    ensures RunRows(pkce, normal, StartRows(t), SignIn(p, t))
         == SignedInRows(normal, p, t)
  {
    hide StepRows, Allowed, RunRows, AllowedRun, SignedInRows;
    ClientRegistered(pkce, normal, t);
    CodeGranted(pkce, normal, p, t);
    CodeExchanged(pkce, normal, p, t);
    ThreeRowSteps(pkce, normal, StartRows(t), CimdOp("c", ["cb"], t), CodeOp("k1", "c", "cb", "ch", [], p, t),
                  ExchangeOp("k1", "c", "cb", "v", t, t, "f", "a1", "r1"));
  }

  lemma TwoRowSteps(pkce: Pkce, normal: Normal, w: Rows, a: Op, b: Op)
    ensures RunRows(pkce, normal, w, [a, b]) == StepRows(pkce, normal, StepRows(pkce, normal, w, a), b)
  {
    hide StepRows;
    assert [a, b] == [a] + [b] && [b] == [b] + [];
    RowRunStarts(pkce, normal, w, a, [b]);
    RowRunStarts(pkce, normal, StepRows(pkce, normal, w, a), b, []);
  }

  // The same person signs in again.
  function SignInAgain(q: Principal, t: Time): Op {
    CodeOp("k2", "c", "cb", "ch", [], q, t)
  }

  lemma SignedInAgain(pkce: Pkce, normal: Normal, p: Principal, q: Principal, t: Time)
    requires P.Storable(p) && P.IdentityOf(p) == P.IdentityOf(q) && normal(q.email).Some?
    ensures var w := SignedInRows(normal, p, t);
            var v := StepRows(pkce, normal, w, SignInAgain(q, t));
            var db := v.db;
            && Allowed(w, SignInAgain(q, t))
            && v.clock == t && v.issued == {"k1", "f", "a1", "r1", "k2"}
            && db.access == w.db.access && db.families == w.db.families && db.refresh == w.db.refresh
            && db.identities == map[P.IdentityOf(p) := ProfileOf(normal, q)]
  {
    hide P.RegisterClient, P.RegisterCimdClient, P.EvictExpired, P.RotateRefresh, P.ExchangeCode;
    assert Draws(SignInAgain(q, t)) == ["k2"];
    assert (set x | x in ["k2"]) == {"k2"};
  }

  // --- The same in memory ---

  function SignedInStore(p: Principal, t: Time): Store {
    var e := Entry("c", [], t + TOKEN_IDLE_TTL, "f", p);
    Store(map["c" := Client(["cb"], true, false, t, Some(t))], map[], map["a1" := e], map["r1" := e], map[])
  }

  lemma ThreeSteps(pkce: Pkce, w: World, a: Op, b: Op, c: Op)
    ensures var w1 := Step(pkce, w, a);
            var w2 := Step(pkce, w1, b);
            Run(pkce, w, [a, b, c]) == Step(pkce, w2, c)
            && (AdmissibleRun(pkce, w, [a, b, c]) <==> Admissible(w, a) && Admissible(w1, b) && Admissible(w2, c))
  {
    hide Step, Admissible;
    assert [a, b, c] == [a] + [b, c] && [b, c] == [b] + [c] && [c] == [c] + [];
    var w1 := Step(pkce, w, a);
    RunStarts(pkce, w, a, [b, c]);
    RunStarts(pkce, w1, b, [c]);
    RunStarts(pkce, Step(pkce, w1, b), c, []);
  }

  function RegisteredWorld(t: Time): World {
    World(EMPTY.(clients := map["c" := Client(["cb"], true, false, t, None)]), t, {}, map[], map[])
  }

  function GrantedWorld(p: Principal, t: Time): World {
    World(EMPTY.(clients := map["c" := Client(["cb"], true, false, t, Some(t))],
                 codes := map["k1" := AuthCode("c", "cb", "ch", [], t + AUTH_CODE_TTL, p)]), t, {"k1"}, map[], map[])
  }

  function SignedInWorld(p: Principal, t: Time): World {
    World(SignedInStore(p, t), t, {"k1", "f", "a1", "r1"}, map["f" := Grant("c", [], p)], map[])
  }

  lemma MemoryRegistered(pkce: Pkce, t: Time)
    ensures var op := CimdOp("c", ["cb"], t);
            Admissible(Initial(t), op) && Step(pkce, Initial(t), op) == RegisteredWorld(t)
  {
    hide ExchangeCode, RotateRefresh, RenewToken, LookupToken, Evict, RegisterClient, CreateCode;
  }

  lemma MemoryGranted(pkce: Pkce, p: Principal, t: Time)
    ensures var op := CodeOp("k1", "c", "cb", "ch", [], p, t);
            Admissible(RegisteredWorld(t), op) && Step(pkce, RegisteredWorld(t), op) == GrantedWorld(p, t)
  {
    hide ExchangeCode, RotateRefresh, RenewToken, LookupToken, Evict, RegisterClient, RegisterCimdClient;
    assert Draws(CodeOp("k1", "c", "cb", "ch", [], p, t)) == ["k1"];
    assert (set x | x in ["k1"]) == {"k1"};
  }

  lemma MemoryExchanged(pkce: Pkce, p: Principal, t: Time)
    requires pkce("v", "ch") && P.Storable(p)
    ensures var op := ExchangeOp("k1", "c", "cb", "v", t, t, "f", "a1", "r1");
            Admissible(GrantedWorld(p, t), op) && Step(pkce, GrantedWorld(p, t), op) == SignedInWorld(p, t)
  {
    hide CreateCode, RotateRefresh, RenewToken, LookupToken, Evict, RegisterClient, RegisterCimdClient;
    assert Draws(ExchangeOp("k1", "c", "cb", "v", t, t, "f", "a1", "r1")) == ["f", "a1", "r1"];
    assert (set x | x in ["f", "a1", "r1"]) == {"f", "a1", "r1"};
  }

  lemma SignedInMemory(pkce: Pkce, p: Principal, t: Time)
    requires pkce("v", "ch") && P.Storable(p)
    ensures AdmissibleRun(pkce, Initial(t), SignIn(p, t))
    ensures Run(pkce, Initial(t), SignIn(p, t)) == SignedInWorld(p, t)
  {
    hide Run, AdmissibleRun, Step, Admissible;
    MemoryRegistered(pkce, t);
    MemoryGranted(pkce, p, t);
    MemoryExchanged(pkce, p, t);
    ThreeSteps(pkce, Initial(t), CimdOp("c", ["cb"], t), CodeOp("k1", "c", "cb", "ch", [], p, t),
               ExchangeOp("k1", "c", "cb", "v", t, t, "f", "a1", "r1"));
  }

  lemma MemoryAgain(pkce: Pkce, p: Principal, q: Principal, t: Time)
    ensures Admissible(SignedInWorld(p, t), SignInAgain(q, t))
    ensures var w := Step(pkce, SignedInWorld(p, t), SignInAgain(q, t));
            && w.store.tokens == SignedInStore(p, t).tokens && w.store.refresh == SignedInStore(p, t).refresh
            && w.clock == t && w.issued == {"k1", "f", "a1", "r1", "k2"}
  {
    hide ExchangeCode, RotateRefresh, RenewToken, LookupToken, Evict, RegisterClient, RegisterCimdClient;
    assert Draws(SignInAgain(q, t)) == ["k2"];
    assert (set x | x in ["k2"]) == {"k2"};
  }
}
