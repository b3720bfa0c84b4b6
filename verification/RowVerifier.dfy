// The bearer-token check over the PostgreSQL store: a lookup, the policy, then a renewal
// as a second transaction, with any transactions between the two.
module RowVerifier {
  import opened Grants
  import opened GrantRuns
  import opened Recovered
  import opened RowInvariant
  import opened RowRuns
  import opened SignIns
  import opened Simulation
  import P = PostgresGrants

  // --- What stays ---

  // An access token still stored keeps its family and what that was granted for.
  ghost predicate SameSession(a: P.Tables, b: P.Tables, access: string) {
    && access in a.access && access in b.access && a.access[access].family == b.access[access].family
    && a.access[access].family in a.families && a.access[access].family in b.families
    && GrantedFor(a.families[a.access[access].family]) == GrantedFor(b.families[a.access[access].family])
  }

  lemma SessionHasFamily(w: Rows, access: string)
    requires RowsOk(w) && access in w.db.access
    ensures SameSession(w.db, w.db, access) && w.db.access[access].family in w.issued
  {
  }

  lemma StepKeepsSession(pkce: Pkce, normal: Normal, w: Rows, op: Op, access: string)
    requires RowsOk(w) && Allowed(w, op) && access in w.issued && access in StepRows(pkce, normal, w, op).db.access
    ensures SameSession(w.db, StepRows(pkce, normal, w, op).db, access)
  {
    hide PgApply, Allowed, RefreshLast, DrawnBy, RowsOk, StepRows, Lasting, SameSession;
    StepLasts(pkce, normal, w, op);
    StepKeepsRows(pkce, normal, w, op);
    SessionHasFamily(StepRows(pkce, normal, w, op), access);
    SessionLasts(w, StepRows(pkce, normal, w, op), DrawnBy(op), access);
  }

  lemma SessionLasts(w: Rows, v: Rows, drawn: set<string>, access: string)
    requires RowsOk(w) && Lasting(w.db, v.db, drawn) && access in w.issued && drawn !! w.issued
    requires SameSession(v.db, v.db, access) && RowsOk(v)
    ensures SameSession(w.db, v.db, access)
  {
    hide RefreshLast;
    assert access in w.db.access;
    SessionHasFamily(w, access);
    hide RowsOk;
  }

  lemma {:induction false} RunKeepsSession(pkce: Pkce, normal: Normal, w: Rows, ops: seq<Op>, access: string)
    requires RowsOk(w) && AllowedRun(pkce, normal, w, ops) && access in w.issued
    requires access in RunRows(pkce, normal, w, ops).db.access
    ensures SameSession(w.db, RunRows(pkce, normal, w, ops).db, access)
    decreases |ops|
  {
    hide RowsOk, Allowed, PgApply;
    if ops == [] {
      SessionHasFamily(w, access);
    } else {
      StepKeepsRows(pkce, normal, w, ops[0]);
      RunKeepsSession(pkce, normal, StepRows(pkce, normal, w, ops[0]), ops[1..], access);
      StepKeepsSession(pkce, normal, w, ops[0], access);
    }
  }

  // Nobody signs in as this person.
  predicate NoSignIn(ops: seq<Op>, i: P.Identity) {
    forall k :: 0 <= k < |ops| && ops[k].CodeOp? ==> P.IdentityOf(ops[k].principal) != i
  }

  lemma EvictionKeepsProfiles(db: P.Tables, now: Time)
    ensures P.EvictExpired(db, now).identities == db.identities
  {
  }

  lemma StepKeepsProfile(pkce: Pkce, normal: Normal, db: P.Tables, op: Op, i: P.Identity)
    requires i in db.identities && (op.CodeOp? ==> P.IdentityOf(op.principal) != i)
    ensures var m := PgApply(pkce, normal, db, op).db.identities; i in m && m[i] == db.identities[i]
  {
    if op.EvictOp? || op.RegisterOp? || op.CimdOp? { EvictionKeepsProfiles(db, op.now); }
    hide P.EvictExpired, P.SlideRows, P.TouchRow, P.CodeFits, P.CodeRowAccepts;
  }

  lemma {:induction false} RunKeepsProfile(pkce: Pkce, normal: Normal, w: Rows, ops: seq<Op>, i: P.Identity)
    requires i in w.db.identities && NoSignIn(ops, i)
    ensures var m := RunRows(pkce, normal, w, ops).db.identities; i in m && m[i] == w.db.identities[i]
    decreases |ops|
  {
    hide PgApply;
    if ops != [] {
      StepKeepsProfile(pkce, normal, w.db, ops[0], i);
      RunKeepsProfile(pkce, normal, StepRows(pkce, normal, w, ops[0]), ops[1..], i);
    }
  }

  // --- The verifier ---

  // Both calls answer for one client, scope, family and person.
  predicate SameBearer(a: Entry, b: Entry) {
    && a.client == b.client && a.scope == b.scope && a.family == b.family
    && P.IdentityOf(a.principal) == P.IdentityOf(b.principal)
  }

  lemma VerifiedEntry(pkce: Pkce, normal: Normal, w: Rows, op: Op)
    requires (op.LookupOp? || op.RenewOp?) && ReplyOf(pkce, normal, w, op).Verified?
    ensures op.access in w.db.access && P.Joined(w.db, w.db.access[op.access].family)
    ensures var e, f := ReplyOf(pkce, normal, w, op).entry, w.db.access[op.access].family;
            e == P.EntryOf(w.db, f, if op.LookupOp? then w.db.access[op.access].expiresAt else op.now + TOKEN_IDLE_TTL)
  {
  }

  // The two calls agree on client, scope and person, whatever runs between them. The
  // renewal's principal is the person's profile at that moment. So the session accepted
  // is one the policy allows if and only if it allows that profile, as it does when it
  // looks at the person only or when that person has not signed in between.
  lemma {:induction false} AcceptedExactlyIfProfileAllowed(pkce: Pkce, normal: Normal, w: Rows, lookup: Op,
                                                           policy: Principal -> bool, between: seq<Op>, renewal: Op)
    requires RowsOk(w) && AllowedRun(pkce, normal, w, [lookup] + between)
    requires lookup.LookupOp? && renewal.RenewOp? && renewal.access == lookup.access
    requires ReplyOf(pkce, normal, w, lookup).Verified? && policy(ReplyOf(pkce, normal, w, lookup).entry.principal)
    requires ReplyOf(pkce, normal, RunRows(pkce, normal, w, [lookup] + between), renewal).Verified?
    ensures var v := RunRows(pkce, normal, w, [lookup] + between);
            var found, accepted := ReplyOf(pkce, normal, w, lookup).entry, ReplyOf(pkce, normal, v, renewal).entry;
            var i := P.IdentityOf(found.principal);
            && SameBearer(found, accepted) && accepted.expiresAt == renewal.now + TOKEN_IDLE_TTL
            && i in w.db.identities && i in v.db.identities
            && (policy(accepted.principal) <==> policy(P.PrincipalOf(i, v.db.identities[i])))
            && (ByIdentity(policy) ==> policy(accepted.principal))
            && (v.db.identities[i] == w.db.identities[i] ==> accepted.principal == found.principal)
            && (NoSignIn(between, i) ==> accepted.principal == found.principal)
  {
    var ops := [lookup] + between;
    var v := RunRows(pkce, normal, w, ops);
    VerifiedEntry(pkce, normal, w, lookup);
    VerifiedEntry(pkce, normal, v, renewal);
    LookedUpIsIssued(w, lookup.access);
    hide RowsOk, Allowed, PgApply, RunRows, AllowedRun;
    RunKeepsSession(pkce, normal, w, ops, lookup.access);
    var i := w.db.families[w.db.access[lookup.access].family].identity;
    if ByIdentity(policy) { JudgedByIdentity(policy, i, w.db.identities[i], v.db.identities[i]); }
    if NoSignIn(between, i) { RunKeepsProfile(pkce, normal, w, ops, i); }
  }

  lemma LookedUpIsIssued(w: Rows, access: string)
    requires RowsOk(w) && access in w.db.access
    ensures access in w.issued
  {
  }

  lemma JudgedByIdentity(policy: Principal -> bool, i: P.Identity, a: P.Profile, b: P.Profile)
    requires ByIdentity(policy)
    ensures policy(P.PrincipalOf(i, a)) == policy(P.PrincipalOf(i, b))
  {
    assert Anonymous(P.PrincipalOf(i, a)) == Anonymous(P.PrincipalOf(i, b));
  }

  // --- A sign-in between the two calls ---

  lemma LookupLeavesRows(pkce: Pkce, normal: Normal, w: Rows, access: string, t: Time)
    requires w.clock == t
    ensures StepRows(pkce, normal, w, LookupOp(access, t)) == w && Allowed(w, LookupOp(access, t))
  {
    assert DrawnBy(LookupOp(access, t)) == {};
  }

  lemma RenewalAllowed(w: Rows, access: string, t: Time)
    requires w.clock <= t
    ensures Allowed(w, RenewOp(access, t))
  {
  }

  lemma SessionAnswers(pkce: Pkce, normal: Normal, w: Rows, i: P.Identity, t: Time)
    requires w.db.access == map["a1" := P.AccessRow("f", t + TOKEN_IDLE_TTL)] && i in w.db.identities
    requires w.db.families == map["f" := P.FamilyRow(i, "c", [], t + TOKEN_IDLE_TTL, None)]
    ensures var answer := Verified(Entry("c", [], t + TOKEN_IDLE_TTL, "f", P.PrincipalOf(i, w.db.identities[i])));
            && ReplyOf(pkce, normal, w, LookupOp("a1", t)) == answer
            && ReplyOf(pkce, normal, w, RenewOp("a1", t)) == answer
  {
    hide P.TouchRow, P.SlideRows;
  }

  // The input on which the two calls part: signed in as p, found and allowed as p; then q,
  // the same person, signs in; the renewal accepts a session of q, whom the policy refuses.
  lemma VerifierAcceptsRefusedProfile(pkce: Pkce, normal: Normal, p: Principal, q: Principal,
                                      policy: Principal -> bool, t: Time)
    requires pkce("v", "ch") && P.Storable(p) && P.IdentityOf(p) == P.IdentityOf(q) && normal(q.email).Some?
    requires policy(P.PrincipalOf(P.IdentityOf(p), ProfileOf(normal, p)))
    requires !policy(P.PrincipalOf(P.IdentityOf(p), ProfileOf(normal, q)))
    ensures var w := RunRows(pkce, normal, StartRows(t), SignIn(p, t));
            var found := ReplyOf(pkce, normal, w, LookupOp("a1", t));
            var v := RunRows(pkce, normal, w, [LookupOp("a1", t), SignInAgain(q, t)]);
            var accepted := ReplyOf(pkce, normal, v, RenewOp("a1", t));
            && AllowedRun(pkce, normal, StartRows(t), SignIn(p, t))
            && AllowedRun(pkce, normal, w, [LookupOp("a1", t), SignInAgain(q, t), RenewOp("a1", t)])
            && found.Verified? && policy(found.entry.principal)
            && accepted.Verified? && !policy(accepted.entry.principal)
  {
    hide RunRows, AllowedRun, SignIn, SignInAgain, PgApply, Allowed, StepRows, P.PrincipalOf, ProfileOf;
    SignedIn(pkce, normal, p, t);
    SignedInAgain(pkce, normal, p, q, t);
    var w := SignedInRows(normal, p, t);
    var lookup, again, renewal := LookupOp("a1", t), SignInAgain(q, t), RenewOp("a1", t);
    LookupLeavesRows(pkce, normal, w, "a1", t);
    ThreeRowSteps(pkce, normal, w, lookup, again, renewal);
    TwoRowSteps(pkce, normal, w, lookup, again);
    SessionAnswers(pkce, normal, w, P.IdentityOf(p), t);
    SessionAnswers(pkce, normal, StepRows(pkce, normal, w, again), P.IdentityOf(p), t);
    RenewalAllowed(StepRows(pkce, normal, w, again), "a1", t);
  }
}
