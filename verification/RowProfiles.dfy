// What the principals of the PostgreSQL store say, over every run of the rows: the person
// of a token is the one who signed in for the code that started its family, with the
// e-mail of that person's last sign-in that gave one.
module RowProfiles {
  import opened Grants
  import opened GrantRuns
  import opened Recovered
  import opened RowInvariant
  import opened RowOrigins
  import opened RowRuns
  import opened RowVerifier
  import opened Simulation
  import P = PostgresGrants

  // --- Sign-ins ---

  // The operation is a successful sign-in of this person.
  predicate SignsIn(op: Op, reply: Reply, provider: string, subject: string) {
    op.CodeOp? && op.principal.provider == provider && op.principal.subject == subject && reply == Done
  }

  // And so is ops[k].
  ghost predicate SignedInAt(pkce: Pkce, normal: Normal, w: Rows, ops: seq<Op>, k: int, provider: string,
                             subject: string)
  {
    0 <= k < |ops|
    && SignsIn(ops[k], ReplyOf(pkce, normal, RunRows(pkce, normal, w, ops[..k]), ops[k]), provider, subject)
  }

  // With an e-mail.
  ghost predicate EmailGivenAt(pkce: Pkce, normal: Normal, w: Rows, ops: seq<Op>, k: int, provider: string,
                               subject: string)
  {
    SignedInAt(pkce, normal, w, ops, k, provider, subject) && normal(ops[k].principal.email).Some?
  }

  // The last sign-in of the person that gave an e-mail is ops[k].
  ghost predicate LastEmailAt(pkce: Pkce, normal: Normal, w: Rows, ops: seq<Op>, k: int, provider: string,
                              subject: string)
  {
    && EmailGivenAt(pkce, normal, w, ops, k, provider, subject)
    && forall j :: k < j < |ops| ==> !EmailGivenAt(pkce, normal, w, ops, j, provider, subject)
  }

  // The principal has the e-mail of that sign-in and its word on whether it is verified;
  // where no sign-in gave an e-mail, it has none and it is not verified.
  ghost predicate AsLastSaid(pkce: Pkce, normal: Normal, w: Rows, ops: seq<Op>, p: Principal) {
    && (forall k :: LastEmailAt(pkce, normal, w, ops, k, p.provider, p.subject) ==>
          normal(ops[k].principal.email) == Some(p.email) && p.emailVerified == ops[k].principal.emailVerified)
    && ((forall k :: !EmailGivenAt(pkce, normal, w, ops, k, p.provider, p.subject)) ==>
          p.email == "" && !p.emailVerified)
  }

  // --- The profile of a person ---

  lemma SignInSetsProfile(pkce: Pkce, normal: Normal, db: P.Tables, op: Op, i: P.Identity)
    requires op.CodeOp?
    ensures var m, r := db.identities, PgApply(pkce, normal, db, op);
            && (SignsIn(op, r.reply, i.provider, i.subject) ==>
                  i in r.db.identities
                  && r.db.identities[i]
                    == if normal(op.principal.email).Some?
                       then P.Profile(normal(op.principal.email), op.principal.emailVerified)
                       else if i in m then m[i] else P.Profile(None, false))
            && (!SignsIn(op, r.reply, i.provider, i.subject) ==>
                  (i in r.db.identities <==> i in m) && (i in m ==> r.db.identities[i] == m[i]))
  {
    hide P.CodeFits, P.TouchRow;
  }

  lemma OthersKeepPeople(pkce: Pkce, normal: Normal, db: P.Tables, op: Op)
    requires !op.CodeOp?
    ensures PgApply(pkce, normal, db, op).db.identities == db.identities
  {
    if op.EvictOp? || op.RegisterOp? || op.CimdOp? { EvictionKeepsProfiles(db, op.now); }
    hide P.EvictExpired, P.SlideRows, P.TouchRow, P.CodeFits, P.CodeRowAccepts;
  }

  // The person is stored exactly after a sign-in, with the profile last given.
  ghost predicate ProfileSaid(pkce: Pkce, normal: Normal, w: Rows, ops: seq<Op>, m: map<P.Identity, P.Profile>,
                              i: P.Identity)
  {
    && (i in m <==> exists k :: SignedInAt(pkce, normal, w, ops, k, i.provider, i.subject))
    && (forall k :: LastEmailAt(pkce, normal, w, ops, k, i.provider, i.subject) ==>
          i in m && m[i] == P.Profile(normal(ops[k].principal.email), ops[k].principal.emailVerified))
    && ((forall k :: !EmailGivenAt(pkce, normal, w, ops, k, i.provider, i.subject)) ==>
          i in m ==> m[i] == P.Profile(None, false))
  }

  lemma SignInsBefore(pkce: Pkce, normal: Normal, w: Rows, init: seq<Op>, last: Op, k: int, provider: string,
                      subject: string)
    ensures k < |init| ==>
              (SignedInAt(pkce, normal, w, init + [last], k, provider, subject)
               <==> SignedInAt(pkce, normal, w, init, k, provider, subject))
              && (EmailGivenAt(pkce, normal, w, init + [last], k, provider, subject)
                  <==> EmailGivenAt(pkce, normal, w, init, k, provider, subject))
    ensures k == |init| ==>
              (SignedInAt(pkce, normal, w, init + [last], k, provider, subject)
               <==> SignsIn(last, ReplyOf(pkce, normal, RunRows(pkce, normal, w, init), last), provider, subject))
  {
    hide PgApply, RunRows, SignsIn;
    var ops := init + [last];
    if 0 <= k < |init| { assert ops[..k] == init[..k] && ops[k] == init[k]; }
    assert ops[..|init|] == init && ops[|init|] == last;
  }

  lemma LastEmailBefore(pkce: Pkce, normal: Normal, w: Rows, init: seq<Op>, last: Op, provider: string,
                        subject: string)
    requires !EmailGivenAt(pkce, normal, w, init + [last], |init|, provider, subject)
    ensures forall k :: EmailGivenAt(pkce, normal, w, init + [last], k, provider, subject)
                   <==> EmailGivenAt(pkce, normal, w, init, k, provider, subject)
    ensures forall k :: LastEmailAt(pkce, normal, w, init + [last], k, provider, subject)
                   <==> LastEmailAt(pkce, normal, w, init, k, provider, subject)
  {
    forall k
      ensures EmailGivenAt(pkce, normal, w, init + [last], k, provider, subject)
         <==> EmailGivenAt(pkce, normal, w, init, k, provider, subject)
    {
      SignInsBefore(pkce, normal, w, init, last, k, provider, subject);
    }
    hide PgApply, RunRows, SignsIn, EmailGivenAt;
    forall k
      ensures LastEmailAt(pkce, normal, w, init + [last], k, provider, subject)
         <==> LastEmailAt(pkce, normal, w, init, k, provider, subject)
    {
    }
  }

  lemma SignedInBefore(pkce: Pkce, normal: Normal, w: Rows, init: seq<Op>, last: Op, i: P.Identity)
    ensures (exists k :: SignedInAt(pkce, normal, w, init + [last], k, i.provider, i.subject))
       <==> ((exists k :: SignedInAt(pkce, normal, w, init, k, i.provider, i.subject))
             || SignsIn(last, ReplyOf(pkce, normal, RunRows(pkce, normal, w, init), last), i.provider, i.subject))
  {
    var ops := init + [last];
    forall k
      ensures SignedInAt(pkce, normal, w, ops, k, i.provider, i.subject)
         <==> (SignedInAt(pkce, normal, w, init, k, i.provider, i.subject)
               || (k == |init|
                   && SignsIn(last, ReplyOf(pkce, normal, RunRows(pkce, normal, w, init), last), i.provider,
                              i.subject)))
    {
      SignInsBefore(pkce, normal, w, init, last, k, i.provider, i.subject);
    }
    hide SignsIn, RunRows, PgApply, SignedInAt;
    assert SignedInAt(pkce, normal, w, ops, |init|, i.provider, i.subject)
      <==> (SignedInAt(pkce, normal, w, init, |init|, i.provider, i.subject)
            || SignsIn(last, ReplyOf(pkce, normal, RunRows(pkce, normal, w, init), last), i.provider, i.subject));
  }

  lemma EmailAtLast(pkce: Pkce, normal: Normal, w: Rows, init: seq<Op>, last: Op, i: P.Identity)
    ensures var v := RunRows(pkce, normal, w, init);
            EmailGivenAt(pkce, normal, w, init + [last], |init|, i.provider, i.subject)
            <==> (SignsIn(last, ReplyOf(pkce, normal, v, last), i.provider, i.subject)
                  && normal(last.principal.email).Some?)
  {
    SignInsBefore(pkce, normal, w, init, last, |init|, i.provider, i.subject);
    assert (init + [last])[|init|] == last;
    hide PgApply, RunRows;
  }

  // What a step with this reply does to the person's profile.
  ghost predicate ProfileMoves(normal: Normal, m: map<P.Identity, P.Profile>, m': map<P.Identity, P.Profile>, op: Op,
                               signsIn: bool, i: P.Identity)
    requires signsIn ==> op.CodeOp?
  {
    if signsIn then
      i in m'
      && m'[i] == if normal(op.principal.email).Some?
                  then P.Profile(normal(op.principal.email), op.principal.emailVerified)
                  else if i in m then m[i] else P.Profile(None, false)
    else (i in m' <==> i in m) && (i in m ==> m'[i] == m[i])
  }

  lemma PersonMoves(pkce: Pkce, normal: Normal, db: P.Tables, op: Op, i: P.Identity)
    ensures var r := PgApply(pkce, normal, db, op);
            ProfileMoves(normal, db.identities, r.db.identities, op, SignsIn(op, r.reply, i.provider, i.subject), i)
  {
    if op.CodeOp? {
      SignInSetsProfile(pkce, normal, db, op, i);
    } else {
      OthersKeepPeople(pkce, normal, db, op);
    }
    hide PgApply;
  }

  lemma PersonWithEmail(pkce: Pkce, normal: Normal, w: Rows, init: seq<Op>, last: Op, i: P.Identity,
                        m: map<P.Identity, P.Profile>)
    requires EmailGivenAt(pkce, normal, w, init + [last], |init|, i.provider, i.subject)
    requires last.CodeOp? && i in m && m[i] == P.Profile(normal(last.principal.email), last.principal.emailVerified)
    ensures ProfileSaid(pkce, normal, w, init + [last], m, i)
  {
    var ops := init + [last];
    assert SignedInAt(pkce, normal, w, ops, |init|, i.provider, i.subject) && ops[|init|] == last;
    hide SignedInAt, EmailGivenAt;
    forall k | LastEmailAt(pkce, normal, w, ops, k, i.provider, i.subject)
      ensures k == |init|
    {
      NothingAfterLast(pkce, normal, w, ops, k, i);
    }
    hide LastEmailAt;
  }

  lemma PersonWithout(pkce: Pkce, normal: Normal, w: Rows, init: seq<Op>, last: Op, i: P.Identity,
                      m: map<P.Identity, P.Profile>, m': map<P.Identity, P.Profile>)
    requires ProfileSaid(pkce, normal, w, init, m, i)
    requires !EmailGivenAt(pkce, normal, w, init + [last], |init|, i.provider, i.subject)
    requires (i in m' <==> exists k :: SignedInAt(pkce, normal, w, init + [last], k, i.provider, i.subject))
    requires i in m ==> i in m' && m'[i] == m[i]
    requires i !in m && i in m' ==> m'[i] == P.Profile(None, false)
    ensures ProfileSaid(pkce, normal, w, init + [last], m', i)
  {
    var ops := init + [last];
    LastEmailBefore(pkce, normal, w, init, last, i.provider, i.subject);
    forall k | LastEmailAt(pkce, normal, w, init, k, i.provider, i.subject)
      ensures 0 <= k < |init| && ops[k] == init[k]
    {
      EmailInRange(pkce, normal, w, init, k, i);
    }
    hide SignedInAt, EmailGivenAt, LastEmailAt;
  }

  lemma PersonStep(pkce: Pkce, normal: Normal, w: Rows, init: seq<Op>, last: Op, i: P.Identity)
    requires ProfileSaid(pkce, normal, w, init, RunRows(pkce, normal, w, init).db.identities, i)
    ensures ProfileSaid(pkce, normal, w, init + [last],
                        StepRows(pkce, normal, RunRows(pkce, normal, w, init), last).db.identities, i)
  {
    var v := RunRows(pkce, normal, w, init);
    var m, m' := v.db.identities, StepRows(pkce, normal, v, last).db.identities;
    PersonMoves(pkce, normal, v.db, last, i);
    SignedInBefore(pkce, normal, w, init, last, i);
    EmailAtLast(pkce, normal, w, init, last, i);
    hide PgApply, RunRows, SignedInAt, EmailGivenAt, LastEmailAt;
    if EmailGivenAt(pkce, normal, w, init + [last], |init|, i.provider, i.subject) {
      PersonWithEmail(pkce, normal, w, init, last, i, m');
    } else {
      PersonWithout(pkce, normal, w, init, last, i, m, m');
    }
  }

  lemma NothingAfterLast(pkce: Pkce, normal: Normal, w: Rows, ops: seq<Op>, k: int, i: P.Identity)
    requires ops != [] && EmailGivenAt(pkce, normal, w, ops, |ops| - 1, i.provider, i.subject)
    requires LastEmailAt(pkce, normal, w, ops, k, i.provider, i.subject)
    ensures k == |ops| - 1
  {
    hide RunRows, PgApply, SignsIn;
  }

  lemma EmailInRange(pkce: Pkce, normal: Normal, w: Rows, ops: seq<Op>, k: int, i: P.Identity)
    requires LastEmailAt(pkce, normal, w, ops, k, i.provider, i.subject)
    ensures 0 <= k < |ops|
  {
    hide RunRows, PgApply, SignsIn;
  }

  lemma NobodyAtStart(pkce: Pkce, normal: Normal, w: Rows, i: P.Identity)
    requires i !in w.db.identities
    ensures ProfileSaid(pkce, normal, w, [], w.db.identities, i)
  {
    hide PgApply;
  }

  // A person is stored exactly after a successful sign-in, with the e-mail of the last one
  // that gave an e-mail and its word on verification, or with neither.
  lemma {:induction false} ProfileIsLastSaid(pkce: Pkce, normal: Normal, start: Time, ops: seq<Op>, i: P.Identity)
    ensures ProfileSaid(pkce, normal, StartRows(start), ops,
                        RunRows(pkce, normal, StartRows(start), ops).db.identities, i)
    decreases |ops|
  {
    var w := StartRows(start);
    hide StepRows, ProfileSaid;
    if ops == [] {
      NobodyAtStart(pkce, normal, w, i);
    } else {
      var init, last := ops[..|ops| - 1], ops[|ops| - 1];
      assert ops == init + [last];
      ProfileIsLastSaid(pkce, normal, start, init, i);
      PersonStep(pkce, normal, w, init, last, i);
      RowRunSplits(pkce, normal, w, init, [last]);
      OneRowStep(pkce, normal, RunRows(pkce, normal, w, init), last);
    }
  }

  // --- The code behind a family ---

  // The row is that of the code which the sign-in ops[c] created, for ten minutes.
  ghost predicate CodeGivenAt(pkce: Pkce, normal: Normal, w: Rows, ops: seq<Op>, c: int, code: string, row: P.CodeRow) {
    && 0 <= c < |ops| && ops[c].CodeOp? && ops[c].code == code
    && SignedInAt(pkce, normal, w, ops, c, row.identity.provider, row.identity.subject)
    && row.client == ops[c].client && row.redirect == ops[c].redirect && row.challenge == ops[c].challenge
    && row.scope == ops[c].scope && row.expiresAt == ops[c].now + 600 * 1_000_000_000
  }

  lemma EvictionAddsNoCodes(db: P.Tables, now: Time)
    ensures var codes := P.EvictExpired(db, now).codes;
            forall c :: c in codes ==> c in db.codes && db.codes[c] == codes[c]
  {
  }

  lemma CodeStep(pkce: Pkce, normal: Normal, db: P.Tables, op: Op, code: string)
    requires code in PgApply(pkce, normal, db, op).db.codes
    ensures var r := PgApply(pkce, normal, db, op);
            var row := r.db.codes[code];
            || (code in db.codes && db.codes[code] == row)
            || (op.CodeOp? && op.code == code && r.reply == Done
                && row == P.CodeRow(P.Identity(op.principal.provider, op.principal.subject), op.client, op.redirect,
                                    op.challenge, op.scope, op.now + 600 * 1_000_000_000))
  {
    if op.EvictOp? || op.RegisterOp? || op.CimdOp? { EvictionAddsNoCodes(db, op.now); }
    hide P.EvictExpired, P.SlideRows, P.TouchRow, P.CodeFits, P.CodeRowAccepts, P.UpsertIdentity;
  }

  lemma CodeGivenBefore(pkce: Pkce, normal: Normal, w: Rows, init: seq<Op>, last: Op, c: int, code: string,
                        row: P.CodeRow)
    requires CodeGivenAt(pkce, normal, w, init, c, code, row)
    ensures CodeGivenAt(pkce, normal, w, init + [last], c, code, row)
  {
    SignInsBefore(pkce, normal, w, init, last, c, row.identity.provider, row.identity.subject);
    hide SignedInAt;
    assert (init + [last])[c] == init[c];
  }

  lemma CodeGivenLast(pkce: Pkce, normal: Normal, w: Rows, init: seq<Op>, last: Op, code: string, row: P.CodeRow)
    requires last.CodeOp? && last.code == code
    requires ReplyOf(pkce, normal, RunRows(pkce, normal, w, init), last) == Done
    requires row == P.CodeRow(P.Identity(last.principal.provider, last.principal.subject), last.client, last.redirect,
                              last.challenge, last.scope, last.now + 600 * 1_000_000_000)
    ensures CodeGivenAt(pkce, normal, w, init + [last], |init|, code, row)
  {
    SignInsBefore(pkce, normal, w, init, last, |init|, last.principal.provider, last.principal.subject);
    hide SignedInAt, RunRows, PgApply;
    assert (init + [last])[|init|] == last;
  }

  lemma {:induction false} CodeIsASignIn(pkce: Pkce, normal: Normal, start: Time, ops: seq<Op>, code: string)
    requires code in RunRows(pkce, normal, StartRows(start), ops).db.codes
    ensures exists c :: CodeGivenAt(pkce, normal, StartRows(start), ops, c, code,
                                    RunRows(pkce, normal, StartRows(start), ops).db.codes[code])
    decreases |ops|
  {
    var w := StartRows(start);
    assert ops != [];
    var init, last := ops[..|ops| - 1], ops[|ops| - 1];
    assert ops == init + [last];
    var v := RunRows(pkce, normal, w, init);
    RowRunSplits(pkce, normal, w, init, [last]);
    OneRowStep(pkce, normal, v, last);
    CodeStep(pkce, normal, v.db, last, code);
    hide PgApply, RunRows, CodeGivenAt;
    var row := StepRows(pkce, normal, v, last).db.codes[code];
    if code in v.db.codes && v.db.codes[code] == row {
      CodeIsASignIn(pkce, normal, start, init, code);
      var c :| CodeGivenAt(pkce, normal, w, init, c, code, row);
      CodeGivenBefore(pkce, normal, w, init, last, c, code, row);
    } else {
      CodeGivenLast(pkce, normal, w, init, last, code, row);
    }
  }

  // --- Whom the answers speak of ---

  // The person signed in at ops[c] for a code of this client and scope; ops[x] exchanged it
  // in time, with its redirect and a verifier of its challenge, and so started family f.
  ghost predicate GrantedBy(pkce: Pkce, normal: Normal, w: Rows, ops: seq<Op>, c: int, x: int, f: string,
                            client: string, scope: seq<string>, p: Principal)
  {
    && 0 <= c < x < |ops| && ops[c].CodeOp? && SignedInAt(pkce, normal, w, ops, c, p.provider, p.subject)
    && ops[c].client == client && ops[c].scope == scope
    && ops[x].ExchangeOp? && ops[x].code == ops[c].code && ops[x].family == f && ops[x].client == client
    && ops[x].redirect == ops[c].redirect && pkce(ops[x].verifier, ops[c].challenge)
    && ops[x].check < ops[c].now + 600 * 1_000_000_000
  }

  lemma FamilyIsGranted(pkce: Pkce, normal: Normal, start: Time, ops: seq<Op>, x: nat, f: string, g: RowGrant)
    requires StartedRowAt(pkce, normal, StartRows(start), ops, x, f, g)
    ensures forall p: Principal :: P.Identity(p.provider, p.subject) == g.identity ==>
              exists c :: GrantedBy(pkce, normal, StartRows(start), ops, c, x, f, g.client, g.scope, p)
  {
    var w, init := StartRows(start), ops[..x];
    var code := ops[x].code;
    var row := RunRows(pkce, normal, w, init).db.codes[code];
    CodeIsASignIn(pkce, normal, start, init, code);
    var c :| CodeGivenAt(pkce, normal, w, init, c, code, row);
    assert init[..c] == ops[..c] && init[c] == ops[c];
    forall p: Principal | P.Identity(p.provider, p.subject) == g.identity
      ensures exists c :: GrantedBy(pkce, normal, w, ops, c, x, f, g.client, g.scope, p)
    {
      assert SignedInAt(pkce, normal, w, ops, c, p.provider, p.subject);
      assert GrantedBy(pkce, normal, w, ops, c, x, f, g.client, g.scope, p);
    }
  }

  // The principal that a join of the family with its person yields.
  lemma JoinedPrincipal(pkce: Pkce, normal: Normal, start: Time, ops: seq<Op>, f: string)
    requires AllowedRun(pkce, normal, StartRows(start), ops)
    requires var db := RunRows(pkce, normal, StartRows(start), ops).db;
             P.Joined(db, f)
             && ((exists a :: OfFamily(db, a, f)) || exists r :: r in db.refresh && db.refresh[r].family == f)
    ensures var db := RunRows(pkce, normal, StartRows(start), ops).db;
            var p := P.PrincipalOf(db.families[f].identity, db.identities[db.families[f].identity]);
            && AsLastSaid(pkce, normal, StartRows(start), ops, p)
            && exists c, x :: GrantedBy(pkce, normal, StartRows(start), ops, c, x, f, db.families[f].client,
                                        db.families[f].scope, p)
  {
    var w := StartRows(start);
    var db := RunRows(pkce, normal, w, ops).db;
    var i := db.families[f].identity;
    var p := P.PrincipalOf(i, db.identities[i]);
    ProfileIsLastSaid(pkce, normal, start, ops, i);
    SaidByProfile(pkce, normal, w, ops, db.identities, i);
    RowsKeepTheirOrigin(pkce, normal, start, ops, f);
    var x: nat :| StartedRowAt(pkce, normal, w, ops, x, f, GrantedFor(db.families[f]));
    FamilyIsGranted(pkce, normal, start, ops, x, f, GrantedFor(db.families[f]));
    hide AsLastSaid, GrantedBy, RunRows, StartedRowAt, ProfileSaid;
    assert P.Identity(p.provider, p.subject) == i;
    var c :| GrantedBy(pkce, normal, w, ops, c, x, f, db.families[f].client, db.families[f].scope, p);
  }

  lemma SaidByProfile(pkce: Pkce, normal: Normal, w: Rows, ops: seq<Op>, m: map<P.Identity, P.Profile>, i: P.Identity)
    requires i in m && ProfileSaid(pkce, normal, w, ops, m, i)
    ensures AsLastSaid(pkce, normal, w, ops, P.PrincipalOf(i, m[i]))
  {
    forall k | LastEmailAt(pkce, normal, w, ops, k, i.provider, i.subject)
      ensures normal(ops[k].principal.email).Some?
    {
      EmailInRange(pkce, normal, w, ops, k, i);
    }
    hide SignedInAt;
  }

  // Whoever a lookup or a renewal answers with signed in for the code behind the token's
  // family, and appears with the e-mail of their last sign-in that gave one.
  lemma {:induction false} VerifiedSaysLastSignIn(pkce: Pkce, normal: Normal, start: Time, ops: seq<Op>, op: Op)
    requires AllowedRun(pkce, normal, StartRows(start), ops) && (op.LookupOp? || op.RenewOp?)
    requires ReplyOf(pkce, normal, RunRows(pkce, normal, StartRows(start), ops), op).Verified?
    ensures var e := ReplyOf(pkce, normal, RunRows(pkce, normal, StartRows(start), ops), op).entry;
            && AsLastSaid(pkce, normal, StartRows(start), ops, e.principal)
            && exists c, x :: GrantedBy(pkce, normal, StartRows(start), ops, c, x, e.family, e.client, e.scope,
                                        e.principal)
  {
    var w := RunRows(pkce, normal, StartRows(start), ops);
    VerifiedEntry(pkce, normal, w, op);
    hide AllowedRun, RunRows, PgApply, AsLastSaid, GrantedBy;
    assert OfFamily(w.db, op.access, w.db.access[op.access].family);
    JoinedPrincipal(pkce, normal, start, ops, w.db.access[op.access].family);
  }

  // The rotation depends on its policy through the verdict on q alone, and a live token of
  // the client is rotated exactly if that is yes.
  ghost predicate AsksAbout(pkce: Pkce, normal: Normal, db: P.Tables, op: Op, q: Principal)
    requires op.RotateOp? && op.token in db.refresh && db.refresh[op.token].family in db.families
  {
    var row, f := db.refresh[op.token], db.families[db.refresh[op.token].family];
    && (forall policy: Principal -> bool :: policy(q) == op.policy(q) ==>
          PgApply(pkce, normal, db, op.(policy := policy)) == PgApply(pkce, normal, db, op))
    && (PgApply(pkce, normal, db, op).reply.Issued?
        <==> (op.client == f.client && row.consumedAt.None? && f.revokedAt.None? && op.check < row.expiresAt
              && op.check < f.expiresAt && op.policy(q)))
  }

  lemma RotationAsksJoined(pkce: Pkce, normal: Normal, db: P.Tables, op: Op)
    requires op.RotateOp? && op.token in db.refresh && P.Joined(db, db.refresh[op.token].family)
    ensures var f := db.families[db.refresh[op.token].family];
            AsksAbout(pkce, normal, db, op, P.PrincipalOf(f.identity, db.identities[f.identity]))
  {
    hide P.InsertTokenPair, P.Revoke;
  }

  // A rotation asks its policy about the person who signed in for the code behind the
  // family, with the e-mail of that person's last sign-in that gave one.
  lemma {:induction false} RotationAsksAboutLastSignIn(pkce: Pkce, normal: Normal, start: Time, ops: seq<Op>, op: Op)
    requires AllowedRun(pkce, normal, StartRows(start), ops) && op.RotateOp?
    requires op.token in RunRows(pkce, normal, StartRows(start), ops).db.refresh
    ensures var db := RunRows(pkce, normal, StartRows(start), ops).db;
            var f := db.refresh[op.token].family;
            f in db.families
            && exists q, c, x ::
                 AsksAbout(pkce, normal, db, op, q) && AsLastSaid(pkce, normal, StartRows(start), ops, q)
                 && GrantedBy(pkce, normal, StartRows(start), ops, c, x, f, db.families[f].client, db.families[f].scope,
                              q)
  {
    var w := RunRows(pkce, normal, StartRows(start), ops);
    var f := w.db.refresh[op.token].family;
    ReachableRows(pkce, normal, start, ops);
    RefreshIsJoined(w, op.token);
    hide AllowedRun, RunRows, PgApply, AsLastSaid, GrantedBy, AsksAbout, RowsOk;
    RotationAsksJoined(pkce, normal, w.db, op);
    JoinedPrincipal(pkce, normal, start, ops, f);
    var q := P.PrincipalOf(w.db.families[f].identity, w.db.identities[w.db.families[f].identity]);
    var c, x :| GrantedBy(pkce, normal, StartRows(start), ops, c, x, f, w.db.families[f].client,
                          w.db.families[f].scope, q);
    assert AsksAbout(pkce, normal, w.db, op, q) && AsLastSaid(pkce, normal, StartRows(start), ops, q)
      && GrantedBy(pkce, normal, StartRows(start), ops, c, x, f, w.db.families[f].client, w.db.families[f].scope, q);
  }

  lemma RefreshIsJoined(w: Rows, token: string)
    requires RowsOk(w) && token in w.db.refresh
    ensures P.Joined(w.db, w.db.refresh[token].family)
  {
  }
}
