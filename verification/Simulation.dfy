// The PostgreSQL store simulates the in-memory store: on every run with the same
// clock readings and random strings, where no reading equals a row's expiry, a consumed
// refresh token of a live family is replayed only by its own client, codes are created
// for registered clients and with a challenge, and policies judge the principal of the
// sign-in as they judge the identity's profile, both answer every grant operation alike.
module Simulation {
  import opened Grants
  import opened GrantRuns
  import opened Eviction
  import opened Recovered
  import opened RowInvariant
  import P = PostgresGrants

  // --- The store never looks inside a principal, beyond the policy ---

  function AnonEntries(m: map<string, Entry>): map<string, Entry> {
    map k | k in m :: AnonEntry(m[k])
  }

  function AnonCodes(m: map<string, AuthCode>): map<string, AuthCode> {
    map k | k in m :: m[k].(principal := Anonymous(m[k].principal))
  }

  function AnonStore(s: Store): Store {
    Store(s.clients, AnonCodes(s.codes), AnonEntries(s.tokens), AnonEntries(s.refresh), s.consumed)
  }

  lemma AnonHasFamily(m: map<string, Entry>, f: string)
    ensures HasFamily(AnonEntries(m), f) <==> HasFamily(m, f)
  {
    if HasFamily(m, f) { var k :| k in m && m[k].family == f; assert AnonEntries(m)[k].family == f; }
  }

  lemma AnonFamilies(s: Store, t: Time)
    requires Families(s, t)
    ensures Families(AnonStore(s), t)
  {
    forall k | k in s.tokens
      ensures Covered(AnonEntries(s.refresh), AnonEntries(s.tokens)[k], t)
    {
      assert Covered(s.refresh, s.tokens[k], t);
      AnonHasFamily(s.refresh, s.tokens[k].family);
    }
  }

  lemma AnonUpdate(m: map<string, Entry>, k: string, e: Entry)
    ensures AnonEntries(m[k := e]) == AnonEntries(m)[k := AnonEntry(e)]
  {
  }

  lemma AnonDelete(m: map<string, Entry>, k: string)
    ensures AnonEntries(Delete(m, k)) == Delete(AnonEntries(m), k)
  {
  }

  lemma AnonWithout(m: map<string, Entry>, f: string)
    ensures AnonEntries(WithoutFamily(m, f)) == WithoutFamily(AnonEntries(m), f)
  {
  }

  lemma AnonSlide(m: map<string, Entry>, f: string, now: Time)
    ensures AnonEntries(SlideRefresh(m, f, now)) == SlideRefresh(AnonEntries(m), f, now)
  {
  }

  lemma AnonUnexpired(m: map<string, Entry>, now: Time)
    ensures AnonEntries(Unexpired(m, now)) == Unexpired(AnonEntries(m), now)
  {
  }

  lemma AnonSweep(s: Store, now: Time)
    ensures SameGrants(Swept(AnonStore(s), now), AnonStore(Swept(s, now)))
  {
    AnonUnexpired(s.tokens, now);
    AnonUnexpired(s.refresh, now);
    assert AnonCodes(UnexpiredCodes(s.codes, now)) == UnexpiredCodes(AnonCodes(s.codes), now);
    forall f
      ensures HasFamily(Unexpired(s.refresh, now), f) <==> HasFamily(Unexpired(AnonEntries(s.refresh), now), f)
    {
      AnonHasFamily(Unexpired(s.refresh, now), f);
    }
  }

  function AnonOp(op: Op): Op {
    if op.CodeOp? then op.(principal := Anonymous(op.principal)) else op
  }

  lemma AnonRenewal(s: Store, access: string, now: Time)
    ensures RenewToken(AnonStore(s), access, now).reply == AnonReply(RenewToken(s, access, now).reply)
    ensures SameGrants(RenewToken(AnonStore(s), access, now).store, AnonStore(RenewToken(s, access, now).store))
  {
    hide Delete, SlideRefresh;
    AnonDelete(s.tokens, access);
    if access in s.tokens {
      AnonUpdate(s.tokens, access, s.tokens[access].(expiresAt := now + TOKEN_IDLE_TTL));
      AnonSlide(s.refresh, s.tokens[access].family, now);
    }
  }

  lemma AnonMint(s: Store, e: Entry, access: string, refresh: string, now: Time)
    ensures SameGrants(MintPair(AnonStore(s), AnonEntry(e), access, refresh, now),
                       AnonStore(MintPair(s, e, access, refresh, now)))
  {
    AnonUpdate(s.tokens, access, e.(expiresAt := now + TOKEN_IDLE_TTL));
    AnonUpdate(s.refresh, refresh, e.(expiresAt := now + TOKEN_IDLE_TTL));
  }

  lemma AnonExchange(pkce: Pkce, s: Store, code: string, client: string, redirect: string, verifier: string,
                     check: Time, mint: Time, family: string, access: string, refresh: string)
    ensures
      var a := ExchangeCode(pkce, AnonStore(s), code, client, redirect, verifier, check, mint, family, access, refresh);
      var r := ExchangeCode(pkce, s, code, client, redirect, verifier, check, mint, family, access, refresh);
      a.reply == r.reply && !r.reply.Verified? && SameGrants(a.store, AnonStore(r.store))
  {
    if code in s.codes {
      var burned := s.(codes := Delete(s.codes, code));
      assert AnonCodes(burned.codes) == Delete(AnonCodes(s.codes), code);
      AnonMint(burned, Entry(client, s.codes[code].scope, mint, family, s.codes[code].principal), access, refresh,
               mint);
    }
  }

  lemma AnonRevoke(s: Store, f: string)
    ensures SameGrants(RevokeFamily(AnonStore(s), f), AnonStore(RevokeFamily(s, f)))
  {
    AnonWithout(s.tokens, f);
    AnonWithout(s.refresh, f);
  }

  lemma AnonRotateReply(s: Store, token: string, client: string, policy: Principal -> bool,
                        check: Time, recheck: Time, mint: Time, access: string, refresh: string)
    requires ByIdentity(policy)
    ensures RotateRefresh(AnonStore(s), token, client, policy, check, recheck, mint, access, refresh).reply
         == RotateRefresh(s, token, client, policy, check, recheck, mint, access, refresh).reply
    ensures !RotateRefresh(s, token, client, policy, check, recheck, mint, access, refresh).reply.Verified?
  {
  }

  lemma AnonSpent(s: Store, token: string, access: string, refresh: string, mint: Time)
    requires token in s.refresh
    ensures
      var re := s.refresh[token];
      var spent := s.(refresh := Delete(s.refresh, token), consumed := s.consumed[token := re.family]);
      var aspent := AnonStore(s).(refresh := Delete(AnonEntries(s.refresh), token), consumed := spent.consumed);
      SameGrants(MintPair(aspent, AnonEntry(re), access, refresh, mint),
                 AnonStore(MintPair(spent, re, access, refresh, mint)))
  {
    var re := s.refresh[token];
    var spent := s.(refresh := Delete(s.refresh, token), consumed := s.consumed[token := re.family]);
    AnonDelete(s.refresh, token);
    AnonMint(spent, re, access, refresh, mint);
  }

  lemma AnonRotate(s: Store, token: string, client: string, policy: Principal -> bool,
                   check: Time, recheck: Time, mint: Time, access: string, refresh: string)
    requires ByIdentity(policy)
    ensures SameGrants(RotateRefresh(AnonStore(s), token, client, policy, check, recheck, mint, access, refresh).store,
                       AnonStore(RotateRefresh(s, token, client, policy, check, recheck, mint, access, refresh).store))
  {
    hide Delete, MintPair, WithoutFamily;
    if RotateRefresh(s, token, client, policy, check, recheck, mint, access, refresh).reply.Issued? {
      AnonSpent(s, token, access, refresh, mint);
    } else if token in s.refresh {
      AnonDelete(s.refresh, token);
    } else if token in s.consumed {
      AnonRevoke(s, s.consumed[token]);
    }
  }

  lemma AnonLookup(s: Store, access: string, now: Time)
    ensures LookupToken(AnonStore(s), access, now).reply == AnonReply(LookupToken(s, access, now).reply)
    ensures SameGrants(LookupToken(AnonStore(s), access, now).store, AnonStore(LookupToken(s, access, now).store))
  {
    AnonDelete(s.tokens, access);
  }

  lemma AnonEvict(s: Store, now: Time)
    ensures SameGrants(Evict(AnonStore(s), now).store, AnonStore(Evict(s, now).store))
  {
    AnonSweep(s, now);
  }

  lemma AnonClients(s: Store, clients: map<string, Client>)
    ensures AnonStore(s.(clients := clients)) == AnonStore(s).(clients := clients)
  {
  }

  // Replacing every stored principal by its identity commutes with every operation.
  lemma AnonCommutes(pkce: Pkce, s: Store, op: Op)
    requires op.RotateOp? ==> ByIdentity(op.policy)
    ensures IsGrantOp(op) ==> Apply(pkce, AnonStore(s), AnonOp(op)).reply == AnonReply(Apply(pkce, s, op).reply)
    ensures SameGrants(Apply(pkce, AnonStore(s), AnonOp(op)).store, AnonStore(Apply(pkce, s, op).store))
  {
    hide SameGrants, AnonStore, RotateRefresh, RenewToken, ExchangeCode, Evict, ByIdentity;
    match op
    case ExchangeOp(code, client, redirect, verifier, check, mint, family, access, refresh) =>
      AnonExchange(pkce, s, code, client, redirect, verifier, check, mint, family, access, refresh);
    case RenewOp(access, now) => AnonRenewal(s, access, now);
    case RotateOp(token, client, policy, check, recheck, mint, access, refresh) =>
      AnonRotateReply(s, token, client, policy, check, recheck, mint, access, refresh);
      AnonRotate(s, token, client, policy, check, recheck, mint, access, refresh);
    case EvictOp(now) => AnonEvict(s, now);
    case LookupOp(access, now) => AnonLookup(s, access, now);
    case CodeOp(code, client, redirect, challenge, scope, principal, now) =>
      AnonCreate(s, code, client, redirect, challenge, scope, principal, now);
    case _ => AnonRegistration(pkce, s, op);
  }

  lemma AnonRegistration(pkce: Pkce, s: Store, op: Op)
    requires op.RegisterOp? || op.CimdOp?
    ensures SameGrants(Apply(pkce, AnonStore(s), op).store, AnonStore(Apply(pkce, s, op).store))
  {
    AnonClients(s, Apply(pkce, s, op).store.clients);
  }

  lemma AnonCreate(s: Store, code: string, client: string, redirect: string, challenge: string,
                   scope: seq<string>, principal: Principal, now: Time)
    ensures SameGrants(CreateCode(AnonStore(s), code, client, redirect, challenge, scope, Anonymous(principal),
                                  now).store,
                       AnonStore(CreateCode(s, code, client, redirect, challenge, scope, principal, now).store))
  {
  }

  // --- The relation and its conditions ---

  ghost predicate Sim(s: Store, db: P.Tables, t: Time) {
    Agree(AnonStore(s), Recover(db), t)
  }

  // Codes come with the method S256, to which the handlers hold every request.
  function PgApply(pkce: Pkce, normal: string -> Option<string>, db: P.Tables, op: Op): P.Result {
    match op
    case RegisterOp(id, redirects, now) => P.RegisterClient(db, id, redirects, now)
    case CimdOp(id, redirects, now) => P.RegisterCimdClient(db, id, redirects, now)
    case CodeOp(code, client, redirect, challenge, scope, principal, now) =>
      P.CreateCode(db, normal(principal.email), code, client, redirect, challenge, "S256", scope, principal, now)
    case ExchangeOp(code, client, redirect, verifier, check, _, family, access, refresh) =>
      P.ExchangeCode(pkce, db, code, client, redirect, verifier, check, family, access, refresh)
    case LookupOp(access, now) => P.LookupToken(db, access, now)
    case RenewOp(access, now) => P.RenewToken(db, access, now)
    case RotateOp(token, client, policy, check, _, _, access, refresh) =>
      P.RotateRefresh(db, token, client, policy, check, access, refresh)
    case EvictOp(now) => P.Result(P.EvictExpired(db, now), Done)
  }

  predicate OneReading(op: Op) {
    match op
    case ExchangeOp(_, _, _, _, check, mint, _, _, _) => check == mint
    case RotateOp(_, _, _, check, recheck, mint, _, _) => check == recheck == mint
    case _ => true
  }

  // Where the policy looks at the identity only.
  ghost predicate PlainlyComparable(db: P.Tables, op: Op) {
    && OneReading(op) && OffBoundary(db, First(op))
    && (op.CodeOp? ==> P.Grantable(db, op.client, op.challenge, op.principal))
    && (op.RotateOp? ==> ByIdentity(op.policy) && !ForeignReplay(db, op.token, op.client, op.check))
  }

  // --- Policies ---

  // The database gets as far as asking the rotation's policy.
  predicate AsksPolicy(db: P.Tables, op: Op)
    requires op.RotateOp?
  {
    && op.token in db.refresh && P.Joined(db, db.refresh[op.token].family)
    && var row := db.refresh[op.token];
       var f := db.families[row.family];
       f.client == op.client && row.consumedAt.None? && f.revokedAt.None? && row.expiresAt > op.check
         && f.expiresAt > op.check
  }

  // The in-memory store shows the policy the principal of the sign-in ...
  predicate MemoryAnswer(s: Store, op: Op)
    requires op.RotateOp?
  {
    op.token in s.refresh && op.policy(s.refresh[op.token].principal)
  }

  // ... and the database the identity with its current profile.
  predicate RowsAnswer(db: P.Tables, op: Op)
    requires op.RotateOp?
  {
    && op.token in db.refresh && P.Joined(db, db.refresh[op.token].family)
    && var identity := db.families[db.refresh[op.token].family].identity;
       op.policy(P.PrincipalOf(identity, db.identities[identity]))
  }

  predicate PolicyAlike(s: Store, db: P.Tables, op: Op) {
    op.RotateOp? && AsksPolicy(db, op) ==> MemoryAnswer(s, op) == RowsAnswer(db, op)
  }

  // What a caller can check before the operation.
  predicate Comparable(s: Store, db: P.Tables, op: Op) {
    && OneReading(op) && OffBoundary(db, First(op)) && PolicyAlike(s, db, op)
    && (op.CodeOp? ==> P.Grantable(db, op.client, op.challenge, op.principal))
    && (op.RotateOp? ==> !ForeignReplay(db, op.token, op.client, op.check))
  }

  function WithAnswer(op: Op, answer: bool): Op
    requires op.RotateOp?
  {
    op.(policy := _ => answer)
  }

  // The operation with its policy's answer put in.
  function Answered(s: Store, op: Op): Op {
    if op.RotateOp? then WithAnswer(op, MemoryAnswer(s, op)) else op
  }

  lemma MemoryAsks(pkce: Pkce, s: Store, op: Op)
    ensures Apply(pkce, s, Answered(s, op)) == Apply(pkce, s, op)
  {
  }

  lemma RowsAsk(pkce: Pkce, normal: string -> Option<string>, db: P.Tables, op: Op, answer: bool)
    requires op.RotateOp? && (AsksPolicy(db, op) ==> answer == RowsAnswer(db, op))
    ensures PgApply(pkce, normal, db, WithAnswer(op, answer)) == PgApply(pkce, normal, db, op)
  {
  }

  lemma AnsweredAlike(pkce: Pkce, normal: string -> Option<string>, s: Store, db: P.Tables, op: Op)
    requires PolicyAlike(s, db, op)
    ensures Apply(pkce, s, Answered(s, op)) == Apply(pkce, s, op)
    ensures PgApply(pkce, normal, db, Answered(s, op)) == PgApply(pkce, normal, db, op)
    ensures Comparable(s, db, op) ==> PlainlyComparable(db, Answered(s, op))
  {
    MemoryAsks(pkce, s, op);
    if op.RotateOp? { RowsAsk(pkce, normal, db, op, MemoryAnswer(s, op)); }
  }

  predicate FreshFor(db: P.Tables, op: Op) {
    && (op.CodeOp? ==> op.code !in db.codes)
    && (op.ExchangeOp? ==> op.family !in db.families && op.refresh !in db.refresh)
    && (op.RotateOp? ==> op.refresh !in db.refresh)
  }

  // --- One operation: rows against the store they stand for ---

  lemma AgreeSym(s: Store, s': Store, t: Time)
    requires Agree(s, s', t)
    ensures Agree(s', s, t)
  {
  }

  lemma AgreeTrans(a: Store, b: Store, c: Store, t: Time)
    requires Agree(a, b, t) && Agree(b, c, t)
    ensures Agree(a, c, t)
  {
    WithinTransitive(a, b, c, t);
    WithinTransitive(c, b, a, t);
  }

  lemma RotateSeen(pkce: Pkce, normal: string -> Option<string>, db: P.Tables, op: Op)
    requires op.RotateOp? && Consistent(db, First(op)) && PlainlyComparable(db, op) && FreshFor(db, op)
    ensures Apply(pkce, Recover(db), op).reply == PgApply(pkce, normal, db, op).reply
    ensures Agree(Apply(pkce, Recover(db), op).store, Recover(PgApply(pkce, normal, db, op).db), Last(op))
  {
    var now := op.check;
    RotateRepliesSeen(db, op.token, op.client, op.policy, now, op.access, op.refresh);
    if PgApply(pkce, normal, db, op).reply.Issued? {
      RotateIssuedSeen(db, op.token, op.client, op.policy, now, op.access, op.refresh);
      SameGrantsAgree(Apply(pkce, Recover(db), op).store, Recover(PgApply(pkce, normal, db, op).db), now);
    } else {
      RotateRejectedSeen(db, op.token, op.client, op.policy, now, op.access, op.refresh);
    }
  }

  lemma RenewalSeen(pkce: Pkce, normal: string -> Option<string>, db: P.Tables, op: Op)
    requires op.RenewOp? && Consistent(db, op.now) && OffBoundary(db, op.now)
    ensures AnonReply(Apply(pkce, Recover(db), op).reply) == AnonReply(PgApply(pkce, normal, db, op).reply)
    ensures Agree(Apply(pkce, Recover(db), op).store, Recover(PgApply(pkce, normal, db, op).db), op.now)
  {
    var s := Recover(db);
    RenewRepliesSeen(db, op.access, op.now);
    if P.RenewToken(db, op.access, op.now).reply.Verified? {
      RenewSeen(db, op.access, op.now);
      SameGrantsAgree(Apply(pkce, s, op).store, Recover(PgApply(pkce, normal, db, op).db), op.now);
    } else {
      ExpiredTokenSeen(s, op.access, op.now);
    }
  }

  lemma ExpiredTokenSeen(s: Store, access: string, now: Time)
    requires access !in s.tokens || s.tokens[access].expiresAt < now
    ensures Agree(s, s, now) && Agree(s.(tokens := Delete(s.tokens, access)), s, now)
  {
    SameGrantsAgree(s, s, now);
    ExpiredTokenWithin(s, s, access, now);
  }

  lemma EvictSeen(db: P.Tables, now: Time)
    requires Consistent(db, now) && OffBoundary(db, now)
    ensures Agree(Recover(db), Recover(P.EvictExpired(db, now)), now)
  {
    hide Linked, OneCurrent, Capped, OffBoundary, Agree, Recover, SameGrants, Thins, P.SweepRows, P.DropIdleClients;
    var swept := P.SweepRows(db, now);
    SweepSeen(db, now);
    SweepThins(db, now);
    ThinConsistent(db, swept, now);
    DropSeen(swept, now);
    SameGrantsAgree(Recover(swept), Recover(P.EvictExpired(db, now)), now);
    AgreeTrans(Recover(db), Recover(swept), Recover(P.EvictExpired(db, now)), now);
  }

  lemma RegistrationKeepsGrants(pkce: Pkce, s: Store, op: Op)
    requires op.RegisterOp? || op.CimdOp?
    ensures SameGrants(Apply(pkce, s, op).store, s)
  {
  }

  lemma RegistrationSeen(pkce: Pkce, normal: string -> Option<string>, db: P.Tables, op: Op)
    requires (op.RegisterOp? || op.CimdOp?) && Consistent(db, op.now) && OffBoundary(db, op.now)
    ensures Agree(Apply(pkce, Recover(db), op).store, Recover(PgApply(pkce, normal, db, op).db), op.now)
  {
    RegistrationKeepsGrants(pkce, Recover(db), op);
    RegisteredSeen(Apply(pkce, Recover(db), op).store, db, PgApply(pkce, normal, db, op).db, op.now);
  }

  lemma RegisteredSeen(s: Store, db: P.Tables, db': P.Tables, now: Time)
    requires SameGrants(s, Recover(db)) && Consistent(db, now) && OffBoundary(db, now)
    requires db' == db || db' == P.EvictExpired(db, now).(clients := db'.clients)
    ensures Agree(s, Recover(db'), now)
  {
    hide Consistent, OffBoundary, Agree, P.EvictExpired, SameGrants;
    var swept := P.EvictExpired(db, now);
    SameGrantsAgree(s, Recover(db), now);
    if db' != db {
      EvictSeen(db, now);
      AgreeTrans(s, Recover(db), Recover(swept), now);
      assert Recover(db') == Recover(swept);
    }
  }

  lemma LookupSettles(s: Store, access: string, now: Time)
    ensures Agree(LookupToken(s, access, now).store, s, now)
  {
    if access in s.tokens && now <= s.tokens[access].expiresAt {
      SameGrantsAgree(s, s, now);
    } else {
      ExpiredTokenSeen(s, access, now);
    }
  }

  lemma LookingUpSeen(db: P.Tables, access: string, now: Time)
    requires Consistent(db, now) && OffBoundary(db, now)
    ensures AnonReply(LookupToken(Recover(db), access, now).reply) == AnonReply(P.LookupToken(db, access, now).reply)
    ensures Agree(LookupToken(Recover(db), access, now).store, Recover(db), now)
  {
    LookupSeen(db, access, now);
    LookupSettles(Recover(db), access, now);
  }

  lemma LookupTransactionSeen(pkce: Pkce, normal: string -> Option<string>, db: P.Tables, op: Op)
    requires op.LookupOp? && Consistent(db, op.now) && OffBoundary(db, op.now)
    ensures AnonReply(Apply(pkce, Recover(db), op).reply) == AnonReply(PgApply(pkce, normal, db, op).reply)
    ensures Agree(Apply(pkce, Recover(db), op).store, Recover(PgApply(pkce, normal, db, op).db), op.now)
  {
    LookingUpSeen(db, op.access, op.now);
  }

  lemma ExchangingSeen(pkce: Pkce, normal: string -> Option<string>, db: P.Tables, op: Op)
    requires op.ExchangeOp? && Linked(db) && OffBoundary(db, op.check) && OneReading(op) && FreshFor(db, op)
    ensures Apply(pkce, Recover(db), op).reply == PgApply(pkce, normal, db, op).reply
    ensures Agree(Apply(pkce, Recover(db), op).store, Recover(PgApply(pkce, normal, db, op).db), op.check)
  {
    ExchangeSeen(pkce, db, op.code, op.client, op.redirect, op.verifier, op.check, op.family, op.access, op.refresh);
    SameGrantsAgree(Apply(pkce, Recover(db), op).store, Recover(PgApply(pkce, normal, db, op).db), op.check);
  }

  lemma CreatingSeen(pkce: Pkce, normal: string -> Option<string>, db: P.Tables, op: Op)
    requires op.CodeOp? && P.CodeFits(db, op.code, op.client, op.challenge, "S256", op.principal)
    ensures Agree(Apply(pkce, Recover(db), AnonOp(op)).store, Recover(PgApply(pkce, normal, db, op).db), op.now)
  {
    CreateSeen(db, normal(op.principal.email), op.code, op.client, op.redirect, op.challenge, op.scope, op.principal,
               op.now);
    SameGrantsAgree(Apply(pkce, Recover(db), AnonOp(op)).store, Recover(PgApply(pkce, normal, db, op).db), op.now);
  }

  // Every transaction, seen through Recover, is the operation of Grants.
  lemma TransactionSeen(pkce: Pkce, normal: string -> Option<string>, db: P.Tables, op: Op)
    requires Consistent(db, First(op)) && PlainlyComparable(db, op) && FreshFor(db, op) && !op.EvictOp?
    ensures IsGrantOp(op) ==>
      AnonReply(Apply(pkce, Recover(db), AnonOp(op)).reply) == AnonReply(PgApply(pkce, normal, db, op).reply)
    ensures Agree(Apply(pkce, Recover(db), AnonOp(op)).store, Recover(PgApply(pkce, normal, db, op).db), Last(op))
  {
    hide Linked, OneCurrent, Capped, OffBoundary, Agree, Recover, Apply, PgApply;
    match op
    case ExchangeOp(_, _, _, _, _, _, _, _, _) => ExchangingSeen(pkce, normal, db, op);
    case LookupOp(_, _) => LookupTransactionSeen(pkce, normal, db, op);
    case RenewOp(_, _) => RenewalSeen(pkce, normal, db, op);
    case RotateOp(_, _, _, _, _, _, _, _) => RotateSeen(pkce, normal, db, op);
    case CodeOp(_, _, _, _, _, _, _) => CreatingSeen(pkce, normal, db, op);
    case _ => RegistrationSeen(pkce, normal, db, op);
  }

  // --- One operation on both stores ---

  ghost predicate Matched(w: World, db: P.Tables) {
    Inv(w) && Consistent(db, w.clock) && NamesIn(db, w.issued) && Sim(w.store, db, w.clock)
  }

  lemma MatchedReady(w: World, db: P.Tables, op: Op)
    requires Matched(w, db) && Admissible(w, op) && PlainlyComparable(db, op)
    ensures Ready(w.store, db, op)
  {
    MatchedLater(w, db, First(op));
    DrawsAreFresh(w, db, op);
  }

  lemma MatchedLater(w: World, db: P.Tables, now: Time)
    requires Matched(w, db) && w.clock <= now
    ensures Sim(w.store, db, now) && Consistent(db, now)
    ensures Families(AnonStore(w.store), now) && Families(Recover(db), now)
  {
    WithinLater(AnonStore(w.store), Recover(db), w.clock, now);
    WithinLater(Recover(db), AnonStore(w.store), w.clock, now);
    ConsistentLater(db, w.clock, now);
    FamiliesLater(w.store, w.clock, now);
    AnonFamilies(w.store, now);
    RecoveredFamilies(db, now);
  }

  lemma DrawsAreFresh(w: World, db: P.Tables, op: Op)
    requires Recorded(w) && NamesIn(db, w.issued) && Admissible(w, op)
    ensures FreshFor(db, op)
    ensures op.ExchangeOp? ==> NewFamily(w.store.consumed, op.family) && NewFamily(Recover(db).consumed, op.family)
  {
    assert op.ExchangeOp? ==> Draws(op)[0] == op.family && Draws(op)[2] == op.refresh;
    assert op.RotateOp? ==> Draws(op)[1] == op.refresh;
    assert op.CodeOp? ==> Draws(op)[0] == op.code;
  }

  // Everything known about two matched stores just before op.
  ghost predicate Ready(s: Store, db: P.Tables, op: Op) {
    && Ordered(op) && PlainlyComparable(db, op) && FreshFor(db, op) && Sim(s, db, First(op))
    && Consistent(db, First(op)) && Families(AnonStore(s), First(op)) && Families(Recover(db), First(op))
    && (op.ExchangeOp? ==> NewFamily(s.consumed, op.family) && NewFamily(Recover(db).consumed, op.family))
  }

  ghost predicate NewFamily(consumed: map<string, string>, f: string) {
    forall k :: k in consumed ==> consumed[k] != f
  }

  lemma AnonRepliesAlike(pkce: Pkce, normal: string -> Option<string>, s: Store, db: P.Tables, op: Op)
    requires !op.EvictOp? && Ready(s, db, op)
    ensures IsGrantOp(op) ==>
      Apply(pkce, AnonStore(s), AnonOp(op)).reply == Apply(pkce, Recover(db), AnonOp(op)).reply
    ensures Agree(Apply(pkce, AnonStore(s), AnonOp(op)).store, Apply(pkce, Recover(db), AnonOp(op)).store, Last(op))
  {
    AnonStepsAlike(pkce, AnonStore(s), Recover(db), AnonOp(op));
  }

  lemma GrantRepliesAlike(pkce: Pkce, normal: string -> Option<string>, s: Store, db: P.Tables, op: Op)
    requires IsGrantOp(op) && Ready(s, db, op)
    ensures AnonReply(Apply(pkce, s, op).reply) == AnonReply(PgApply(pkce, normal, db, op).reply)
  {
    AnonRepliesAlike(pkce, normal, s, db, op);
    AnonCommutes(pkce, s, op);
    TransactionSeen(pkce, normal, db, op);
    AnonTwice(Apply(pkce, s, op).reply);
  }

  lemma AnonTwice(r: Reply)
    ensures AnonReply(AnonReply(r)) == AnonReply(r)
  {
  }

  lemma GrantStoresAlike(pkce: Pkce, normal: string -> Option<string>, s: Store, db: P.Tables, op: Op)
    requires !op.EvictOp? && Ready(s, db, op)
    ensures Sim(Apply(pkce, s, op).store, PgApply(pkce, normal, db, op).db, Last(op))
  {
    hide Agree, SameGrants, Apply, PgApply, Recover, AnonStore;
    var a := AnonStore(Apply(pkce, s, op).store);
    var b, c := Apply(pkce, AnonStore(s), AnonOp(op)).store, Apply(pkce, Recover(db), AnonOp(op)).store;
    var d, t := Recover(PgApply(pkce, normal, db, op).db), Last(op);
    assert SameGrants(b, a) by { AnonCommutes(pkce, s, op); }
    assert Agree(b, c, t) by { AnonRepliesAlike(pkce, normal, s, db, op); }
    assert Agree(c, d, t) by { TransactionSeen(pkce, normal, db, op); }
    AgreeChain(a, b, c, d, t);
  }

  lemma AnonStepsAlike(pkce: Pkce, a: Store, r: Store, op: Op)
    requires !op.EvictOp? && Ordered(op) && Agree(a, r, First(op)) && Families(a, First(op)) && Families(r, First(op))
    requires op.ExchangeOp? ==> NewFamily(a.consumed, op.family) && NewFamily(r.consumed, op.family)
    ensures IsGrantOp(op) ==> Apply(pkce, a, op).reply == Apply(pkce, r, op).reply
    ensures Agree(Apply(pkce, a, op).store, Apply(pkce, r, op).store, Last(op))
  {
    TwinStores(pkce, a, r, op);
    AgreeSym(a, r, First(op));
    TwinStores(pkce, r, a, op);
  }

  lemma AgreeChain(a: Store, b: Store, c: Store, d: Store, t: Time)
    requires SameGrants(b, a) && Agree(b, c, t) && Agree(c, d, t)
    ensures Agree(a, d, t)
  {
    SameGrantsAgree(a, b, t);
    AgreeTrans(a, b, c, t);
    AgreeTrans(a, c, d, t);
  }

  lemma EvictionsAlike(w: World, db: P.Tables, op: Op)
    requires op.EvictOp? && Matched(w, db) && w.clock <= op.now && OffBoundary(db, op.now)
    ensures Sim(Evict(w.store, op.now).store, P.EvictExpired(db, op.now), op.now)
  {
    var a, r, now := AnonStore(w.store), Recover(db), op.now;
    MatchedLater(w, db, now);
    AgreeSym(a, r, now);
    SweepAgrees(r, a, now);
    AnonSweep(w.store, now);
    var next := AnonStore(Evict(w.store, now).store);
    assert SameGrants(Evict(a, now).store, next);
    SameGrantsAgree(next, Evict(a, now).store, now);
    AgreeSym(r, Evict(a, now).store, now);
    EvictSeen(db, now);
    AgreeTrans(next, Evict(a, now).store, r, now);
    AgreeTrans(next, r, Recover(P.EvictExpired(db, now)), now);
  }

  lemma EvictionStepsAlike(pkce: Pkce, normal: string -> Option<string>, w: World, db: P.Tables, op: Op)
    requires op.EvictOp? && Matched(w, db) && w.clock <= op.now && OffBoundary(db, op.now)
    ensures Sim(Apply(pkce, w.store, op).store, PgApply(pkce, normal, db, op).db, op.now)
  {
    hide Matched, OffBoundary, Sim, Evict, P.EvictExpired;
    EvictionsAlike(w, db, op);
  }

  lemma RowsStayConsistent(pkce: Pkce, normal: string -> Option<string>, db: P.Tables, op: Op, t: Time)
    requires Consistent(db, t) && t <= First(op) && FreshFor(db, op)
    ensures Consistent(PgApply(pkce, normal, db, op).db, First(op))
  {
    match op
    case ExchangeOp(code, client, redirect, verifier, check, _, family, access, refresh) =>
      ExchangeConsistent(pkce, db, code, client, redirect, verifier, t, check, family, access, refresh);
    case RenewOp(access, now) => RenewConsistent(db, access, t, now);
    case RotateOp(token, client, policy, check, _, _, access, refresh) =>
      RotateConsistent(db, token, client, policy, t, check, access, refresh);
    case EvictOp(now) => EvictConsistent(db, t, now);
    case LookupOp(_, now) => ConsistentLater(db, t, now);
    case _ => OthersStayConsistent(pkce, normal, db, op, t);
  }

  lemma OthersStayConsistent(pkce: Pkce, normal: string -> Option<string>, db: P.Tables, op: Op, t: Time)
    requires (op.CodeOp? || op.RegisterOp? || op.CimdOp?) && Consistent(db, t) && t <= op.now
    ensures Consistent(PgApply(pkce, normal, db, op).db, op.now)
  {
    hide Consistent, P.EvictExpired;
    ConsistentLater(db, t, op.now);
    if op.CodeOp? {
      CreatedConsistent(db, normal(op.principal.email), op.code, op.client, op.redirect, op.challenge, op.scope,
                        op.principal, op.now);
    } else {
      RegisteredConsistent(PgApply(pkce, normal, db, op).db, db, t, op.now);
    }
  }

  lemma CreatedConsistent(db: P.Tables, email: Option<string>, code: string, client: string, redirect: string,
                          challenge: string, scope: seq<string>, principal: Principal, now: Time)
    requires Consistent(db, now)
    ensures Consistent(P.CreateCode(db, email, code, client, redirect, challenge, "S256", scope, principal, now).db,
                       now)
  {
    hide Consistent;
    var out := P.CreateCode(db, email, code, client, redirect, challenge, "S256", scope, principal, now);
    BurnedConsistent(db, out.db, now);
  }

  lemma RegisteredConsistent(db': P.Tables, db: P.Tables, t: Time, now: Time)
    requires Consistent(db, t) && t <= now
    requires var swept := P.EvictExpired(db, now);
      db' == db || (db' == swept.(clients := db'.clients) && forall c :: c in swept.clients ==> c in db'.clients)
    ensures Consistent(db', now)
  {
    if db' == db {
      ConsistentLater(db, t, now);
    } else {
      EvictConsistent(db, t, now);
      BurnedConsistent(P.EvictExpired(db, now), db', now);
    }
  }

  lemma NamesStayIn(pkce: Pkce, normal: string -> Option<string>, db: P.Tables, op: Op, issued: set<string>, t: Time)
    requires NamesIn(db, issued) && Consistent(db, t) && t <= First(op)
    ensures NamesIn(PgApply(pkce, normal, db, op).db, issued + (set x | x in Draws(op)))
  {
    var more := issued + (set x | x in Draws(op));
    assert NamesIn(db, more);
    match op
    case ExchangeOp(code, client, redirect, verifier, check, _, family, access, refresh) =>
      assert Draws(op)[0] == family && Draws(op)[1] == access && Draws(op)[2] == refresh;
      ExchangedNames(pkce, db, code, client, redirect, verifier, check, family, access, refresh, more);
    case RotateOp(token, client, policy, check, _, _, access, refresh) =>
      assert Draws(op)[0] == access && Draws(op)[1] == refresh;
      RotatedNames(db, token, client, policy, check, access, refresh, more);
    case CodeOp(_, _, _, _, _, _, _) => assert Draws(op)[0] == op.code;
    case RenewOp(access, now) => RenewedNames(db, access, now, more);
    case LookupOp(_, _) =>
    case _ => EvictedNames(pkce, normal, db, op, more, t);
  }

  lemma EvictedNames(pkce: Pkce, normal: string -> Option<string>, db: P.Tables, op: Op, issued: set<string>, t: Time)
    requires (op.EvictOp? || op.RegisterOp? || op.CimdOp?) && NamesIn(db, issued) && Consistent(db, t) && t <= op.now
    ensures NamesIn(PgApply(pkce, normal, db, op).db, issued)
  {
    hide Consistent, NamesIn, P.EvictExpired;
    ConsistentLater(db, t, op.now);
    EvictNames(db, op.now, issued);
    SameRowsNames(P.EvictExpired(db, op.now), PgApply(pkce, normal, db, op).db, db, issued);
  }

  lemma SameRowsNames(swept: P.Tables, db': P.Tables, db: P.Tables, issued: set<string>)
    requires NamesIn(swept, issued) && NamesIn(db, issued)
    requires db' == db || db' == swept.(clients := db'.clients)
    ensures NamesIn(db', issued)
  {
  }

  lemma RotatedNames(db: P.Tables, token: string, client: string, policy: Principal -> bool, now: Time,
                     access: string, refresh: string, issued: set<string>)
    requires NamesIn(db, issued) && access in issued && refresh in issued
    ensures NamesIn(P.RotateRefresh(db, token, client, policy, now, access, refresh).db, issued)
  {
  }

  lemma ExchangedNames(pkce: Pkce, db: P.Tables, code: string, client: string, redirect: string, verifier: string,
                       now: Time, family: string, access: string, refresh: string, issued: set<string>)
    requires NamesIn(db, issued) && family in issued && access in issued && refresh in issued
    ensures NamesIn(P.ExchangeCode(pkce, db, code, client, redirect, verifier, now, family, access, refresh).db, issued)
  {
  }

  lemma RenewedNames(db: P.Tables, access: string, now: Time, issued: set<string>)
    requires NamesIn(db, issued)
    ensures NamesIn(P.RenewToken(db, access, now).db, issued)
  {
  }

  lemma {:induction false} StepsAlike(pkce: Pkce, normal: string -> Option<string>, w: World, db: P.Tables, op: Op)
    requires Matched(w, db) && Admissible(w, op) && Comparable(w.store, db, op)
    ensures IsGrantOp(op) ==> AnonReply(ReplyTo(pkce, w, op)) == AnonReply(PgApply(pkce, normal, db, op).reply)
    ensures Matched(Step(pkce, w, op), PgApply(pkce, normal, db, op).db)
  {
    hide Consistent, NamesIn, Sim, Recorded, Families, Traceable, OffBoundary, PolicyAlike, FreshFor, ForeignReplay,
      PgApply, Apply;
    StepKeepsInv(pkce, w, op);
    DrawsAreFresh(w, db, op);
    RowsStayConsistent(pkce, normal, db, op, w.clock);
    NamesStayIn(pkce, normal, db, op, w.issued, w.clock);
    if op.EvictOp? {
      EvictionStepsAlike(pkce, normal, w, db, op);
    } else {
      AnsweredStepsAlike(pkce, normal, w, db, op);
    }
  }

  lemma AnsweredStepsAlike(pkce: Pkce, normal: string -> Option<string>, w: World, db: P.Tables, op: Op)
    requires Matched(w, db) && Admissible(w, op) && Comparable(w.store, db, op) && !op.EvictOp?
    ensures IsGrantOp(op) ==> AnonReply(ReplyTo(pkce, w, op)) == AnonReply(PgApply(pkce, normal, db, op).reply)
    ensures Sim(Apply(pkce, w.store, op).store, PgApply(pkce, normal, db, op).db, Last(op))
  {
    var asked := Answered(w.store, op);
    AnsweredAlike(pkce, normal, w.store, db, op);
    AnsweredAdmissible(w, op);
    MatchedReady(w, db, asked);
    GrantStoresAlike(pkce, normal, w.store, db, asked);
    if IsGrantOp(op) {
      GrantRepliesAlike(pkce, normal, w.store, db, asked);
    }
  }

  lemma AnsweredAdmissible(w: World, op: Op)
    ensures Admissible(w, Answered(w.store, op)) <==> Admissible(w, op)
    ensures Last(Answered(w.store, op)) == Last(op) && IsGrantOp(Answered(w.store, op)) == IsGrantOp(op)
    ensures Answered(w.store, op).EvictOp? == op.EvictOp?
  {
  }

  // --- Whole runs ---

  ghost predicate ComparableRun(pkce: Pkce, normal: string -> Option<string>, w: World, db: P.Tables, ops: seq<Op>)
    decreases |ops|
  {
    ops == [] || (Comparable(w.store, db, ops[0])
                  && ComparableRun(pkce, normal, Step(pkce, w, ops[0]), PgApply(pkce, normal, db, ops[0]).db, ops[1..]))
  }

  ghost function MemoryReplies(pkce: Pkce, w: World, ops: seq<Op>): seq<Reply>
    decreases |ops|
  {
    if ops == [] then []
    else (if IsGrantOp(ops[0]) then [AnonReply(ReplyTo(pkce, w, ops[0]))] else [])
         + MemoryReplies(pkce, Step(pkce, w, ops[0]), ops[1..])
  }

  ghost function RowReplies(pkce: Pkce, normal: string -> Option<string>, db: P.Tables, ops: seq<Op>): seq<Reply>
    decreases |ops|
  {
    if ops == [] then []
    else (if IsGrantOp(ops[0]) then [AnonReply(PgApply(pkce, normal, db, ops[0]).reply)] else [])
         + RowReplies(pkce, normal, PgApply(pkce, normal, db, ops[0]).db, ops[1..])
  }

  lemma {:induction false} MatchedRuns(pkce: Pkce, normal: string -> Option<string>, w: World, db: P.Tables,
                                       ops: seq<Op>)
    requires Matched(w, db) && AdmissibleRun(pkce, w, ops) && ComparableRun(pkce, normal, w, db, ops)
    ensures MemoryReplies(pkce, w, ops) == RowReplies(pkce, normal, db, ops)
    decreases |ops|
  {
    if ops != [] {
      StepsAlike(pkce, normal, w, db, ops[0]);
      MatchedRuns(pkce, normal, Step(pkce, w, ops[0]), PgApply(pkce, normal, db, ops[0]).db, ops[1..]);
    }
  }

  // Both stores, started empty, give the same answers to every grant operation.
  lemma {:induction false} StoresAnswerAlike(pkce: Pkce, normal: string -> Option<string>, start: Time, ops: seq<Op>)
    requires AdmissibleRun(pkce, Initial(start), ops) && ComparableRun(pkce, normal, Initial(start), P.NO_ROWS, ops)
    ensures MemoryReplies(pkce, Initial(start), ops) == RowReplies(pkce, normal, P.NO_ROWS, ops)
  {
    SameGrantsAgree(AnonStore(EMPTY), Recover(P.NO_ROWS), start);
    MatchedRuns(pkce, normal, Initial(start), P.NO_ROWS, ops);
  }
}
