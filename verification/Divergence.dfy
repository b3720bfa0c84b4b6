// Where the two stores part: exactly which calls they answer differently, and
// which rotations leave them in different states.
module Divergence {
  import opened Grants
  import opened GrantRuns
  import opened GrantSafety
  import opened Eviction
  import opened Recovered
  import opened RowInvariant
  import opened Simulation
  import P = PostgresGrants

  // The presented credential expires exactly at the reading and is otherwise good:
  // the in-memory store s still honours it, the database no longer does.
  predicate AtBoundary(pkce: Pkce, s: Store, db: P.Tables, op: Op) {
    match op
    case ExchangeOp(code, client, redirect, verifier, check, _, _, _, _) =>
      code in db.codes && db.codes[code].expiresAt == check && db.codes[code].client == client
      && db.codes[code].redirect == redirect && pkce(verifier, db.codes[code].challenge)
    case LookupOp(access, now) =>
      access in db.access && db.access[access].expiresAt == now && Active(db.families, db.access[access].family)
    case RenewOp(access, now) =>
      access in db.access && db.access[access].expiresAt == now && Active(db.families, db.access[access].family)
    case RotateOp(_, _, _, _, _, _, _, _) => EndsNow(db, op) && MemoryAnswer(s, op)
    case _ => false
  }

  // The rotated refresh row is its active family's current one and expires at the reading.
  predicate EndsNow(db: P.Tables, op: Op)
    requires op.RotateOp?
  {
    && op.token in db.refresh && db.refresh[op.token].consumedAt.None? && db.refresh[op.token].expiresAt == op.check
    && Active(db.families, db.refresh[op.token].family) && db.families[db.refresh[op.token].family].client == op.client
  }

  lemma LookupBoundary(db: P.Tables, k: string, now: Time)
    requires Consistent(db, now)
    ensures AnonReply(LookupToken(Recover(db), k, now).reply) == AnonReply(P.LookupToken(db, k, now).reply)
       <==> !(k in db.access && db.access[k].expiresAt == now && Active(db.families, db.access[k].family))
  {
    if k in db.access { assert P.Joined(db, db.access[k].family); }
  }

  lemma RenewBoundary(db: P.Tables, k: string, now: Time)
    requires Consistent(db, now)
    ensures AnonReply(RenewToken(Recover(db), k, now).reply) == AnonReply(P.RenewToken(db, k, now).reply)
       <==> !(k in db.access && db.access[k].expiresAt == now && Active(db.families, db.access[k].family))
  {
    hide P.SlideRows, SlideRefresh, Refreshes, Replays, OneCurrent;
    if k in db.access { assert P.Joined(db, db.access[k].family); }
  }

  lemma ExchangeBoundary(pkce: Pkce, db: P.Tables, op: Op)
    requires op.ExchangeOp? && OneReading(op)
    ensures Apply(pkce, Recover(db), op).reply == PgApply(pkce, _ => None, db, op).reply
      <==> !AtBoundary(pkce, EMPTY, db, op)
  {
  }

  lemma RotateBoundary(db: P.Tables, token: string, client: string, policy: Principal -> bool,
                       now: Time, access: string, refresh: string)
    requires Consistent(db, now) && ByIdentity(policy)
    ensures RotateRefresh(Recover(db), token, client, policy, now, now, now, access, refresh).reply
         == P.RotateRefresh(db, token, client, policy, now, access, refresh).reply
       <==> !(token in db.refresh && db.refresh[token].consumedAt.None? && db.refresh[token].expiresAt == now
              && Active(db.families, db.refresh[token].family) && db.families[db.refresh[token].family].client == client
              && policy(Named(db.families[db.refresh[token].family].identity)))
  {
    if token in db.refresh {
      var row := db.refresh[token];
      assert P.Joined(db, row.family);
      var f := db.families[row.family];
      assert Anonymous(P.PrincipalOf(f.identity, db.identities[f.identity])) == Named(f.identity);
      if Unconsumed(db.refresh, token) { assert IsCurrent(db.families, db.refresh, row.family, token); }
    }
  }

  lemma BoundarySeen(pkce: Pkce, db: P.Tables, op: Op)
    requires IsGrantOp(op) && OneReading(op) && Consistent(db, First(op)) && !op.RotateOp?
    ensures AnonReply(Apply(pkce, Recover(db), op).reply) == AnonReply(PgApply(pkce, _ => None, db, op).reply)
       <==> !AtBoundary(pkce, EMPTY, db, op)
  {
    match op
    case ExchangeOp(_, _, _, _, _, _, _, _, _) => ExchangeBoundary(pkce, db, op);
    case LookupOp(access, now) => LookupBoundary(db, access, now);
    case RenewOp(access, now) => RenewBoundary(db, access, now);
  }

  // The in-memory store and the store behind the rows give a grant operation one reply.
  lemma MatchedReplies(pkce: Pkce, w: World, db: P.Tables, op: Op)
    requires Matched(w, db) && Admissible(w, op) && IsGrantOp(op) && (op.RotateOp? ==> ByIdentity(op.policy))
    ensures AnonReply(Apply(pkce, w.store, op).reply) == AnonReply(Apply(pkce, Recover(db), op).reply)
  {
    MatchedLater(w, db, First(op));
    DrawsAreFresh(w, db, op);
    AnonStepsAlike(pkce, AnonStore(w.store), Recover(db), op);
    AnonCommutes(pkce, w.store, op);
    AnonTwice(ReplyTo(pkce, w, op));
  }

  lemma RotationReplies(pkce: Pkce, s: Store, db: P.Tables, op: Op)
    requires op.RotateOp?
    ensures !Apply(pkce, s, op).reply.Verified? && !Apply(pkce, Recover(db), op).reply.Verified?
    ensures !PgApply(pkce, _ => None, db, op).reply.Verified?
  {
  }

  // A rotation whose policy always gives one answer.
  lemma AnsweredBoundary(pkce: Pkce, w: World, db: P.Tables, op: Op, answer: bool)
    requires Matched(w, db) && Admissible(w, op) && op.RotateOp? && OneReading(op)
    ensures var asked := WithAnswer(op, answer);
            Apply(pkce, w.store, asked).reply == PgApply(pkce, _ => None, db, asked).reply
            <==> !(EndsNow(db, op) && answer)
  {
    hide Matched, Consistent, Inv, Sim, NamesIn, Families, RotateRefresh, P.RotateRefresh;
    var asked := WithAnswer(op, answer);
    MatchedReplies(pkce, w, db, asked);
    RotationReplies(pkce, w.store, db, asked);
    MatchedLater(w, db, op.check);
    RotateBoundary(db, op.token, op.client, asked.policy, op.check, op.access, op.refresh);
  }

  // Asked, the database does as the policy says.
  lemma AskedRows(pkce: Pkce, db: P.Tables, op: Op)
    requires op.RotateOp? && AsksPolicy(db, op)
    ensures PgApply(pkce, _ => None, db, op).reply.Issued? <==> RowsAnswer(db, op)
    ensures PgApply(pkce, _ => None, db, op).reply.Issued? || PgApply(pkce, _ => None, db, op) == P.Result(db, Rejected)
    ensures PgApply(pkce, _ => None, db, WithAnswer(op, true)).reply.Issued?
    ensures PgApply(pkce, _ => None, db, WithAnswer(op, false)).reply == Rejected
    ensures !EndsNow(db, op)
  {
  }

  lemma RotationsPart(pkce: Pkce, w: World, db: P.Tables, op: Op)
    requires Matched(w, db) && Admissible(w, op) && op.RotateOp? && OneReading(op)
    ensures Apply(pkce, w.store, op).reply == PgApply(pkce, _ => None, db, op).reply
       <==> !AtBoundary(pkce, w.store, db, op) && PolicyAlike(w.store, db, op)
  {
    var answer := MemoryAnswer(w.store, op);
    AnsweredBoundary(pkce, w, db, op, answer);
    MemoryAsks(pkce, w.store, op);
    if PolicyAlike(w.store, db, op) {
      RowsAsk(pkce, _ => None, db, op, answer);
    } else {
      AskedRows(pkce, db, op);
    }
  }

  // Two matched stores answer a grant operation alike if and only if the presented
  // credential does not expire exactly at the reading and, where the database asks a
  // rotation's policy, the sign-in's principal and the current profile are judged alike.
  lemma {:induction false} RepliesAgreeExactly(pkce: Pkce, w: World, db: P.Tables, op: Op)
    requires Matched(w, db) && Admissible(w, op) && IsGrantOp(op) && OneReading(op)
    ensures AnonReply(ReplyTo(pkce, w, op)) == AnonReply(PgApply(pkce, _ => None, db, op).reply)
       <==> !AtBoundary(pkce, w.store, db, op) && PolicyAlike(w.store, db, op)
  {
    hide Matched, Consistent, Sim, NamesIn, Families, Apply, PgApply, MemoryAnswer, EndsNow, Active, AsksPolicy;
    if op.RotateOp? {
      RotationReplies(pkce, w.store, db, op);
      RotationsPart(pkce, w, db, op);
    } else {
      MatchedLater(w, db, First(op));
      MatchedReplies(pkce, w, db, op);
      BoundarySeen(pkce, db, op);
    }
  }

  // A code is created in both stores if and only if its client is registered in the
  // database, it has a challenge, and provider and subject are not blank; otherwise a
  // constraint refuses what the in-memory store accepts.
  lemma {:induction false} CodesNeedRegisteredClient(pkce: Pkce, normal: string -> Option<string>, w: World,
                                                     db: P.Tables, op: Op)
    requires op.CodeOp? && NamesIn(db, w.issued) && Admissible(w, op)
    ensures ReplyTo(pkce, w, op) == PgApply(pkce, normal, db, op).reply
       <==> P.Grantable(db, op.client, op.challenge, op.principal)
  {
    assert Draws(op)[0] == op.code;
  }

  // A live family's token replayed by some other client: both stores refuse, the
  // in-memory store revokes the family, the database leaves it usable. That, and a
  // policy that judges the two principals differently, are the only rotations, off the
  // boundary, after which matched stores stop matching.
  lemma {:induction false} RotationSplitsStores(pkce: Pkce, w: World, db: P.Tables, op: Op)
    requires Matched(w, db) && Admissible(w, op) && op.RotateOp? && OneReading(op) && OffBoundary(db, op.check)
    ensures Sim(Apply(pkce, w.store, op).store, PgApply(pkce, _ => None, db, op).db, op.check)
       <==> !ForeignReplay(db, op.token, op.client, op.check) && PolicyAlike(w.store, db, op)
  {
    if ForeignReplay(db, op.token, op.client, op.check) {
      ForeignReplaySplits(pkce, w, db, op);
    } else if PolicyAlike(w.store, db, op) {
      AnsweredStepsAlike(pkce, _ => None, w, db, op);
    } else {
      PolicySplits(pkce, w, db, op);
    }
  }

  lemma ForeignReplaySplits(pkce: Pkce, w: World, db: P.Tables, op: Op)
    requires Matched(w, db) && Admissible(w, op) && op.RotateOp? && ForeignReplay(db, op.token, op.client, op.check)
    ensures !Sim(Apply(pkce, w.store, op).store, PgApply(pkce, _ => None, db, op).db, op.check)
  {
    hide Matched, Consistent, Inv, Sim, NamesIn, Families, Apply, PgApply;
    MatchedLater(w, db, op.check);
    ForeignReplayKeepsRows(pkce, db, op);
    var f := db.refresh[op.token].family;
    RecoveredStillLive(db, f, op.check);
    ForeignReplayRevokes(pkce, w.store, db, op);
    SimilarKeepsFamily(Apply(pkce, w.store, op).store, db, f, op.check);
  }

  // One store mints the new pair and the other does not.
  lemma PolicySplits(pkce: Pkce, w: World, db: P.Tables, op: Op)
    requires Matched(w, db) && Admissible(w, op) && op.RotateOp? && OneReading(op) && !PolicyAlike(w.store, db, op)
    ensures !Sim(Apply(pkce, w.store, op).store, PgApply(pkce, _ => None, db, op).db, op.check)
  {
    NewAccess(w, db, op);
    hide Matched, Consistent, Inv, Sim, NamesIn, Recorded, Admissible, MemoryAnswer, RowsAnswer, AsksPolicy, EndsNow;
    AskedRows(pkce, db, op);
    AnsweredBoundary(pkce, w, db, op, MemoryAnswer(w.store, op));
    MemoryAsks(pkce, w.store, op);
    if MemoryAnswer(w.store, op) {
      IssuedMints(pkce, w.store, op);
      MintedOnlyHere(Apply(pkce, w.store, op).store, db, op.access, op.check);
    } else {
      RefusedMintsNothing(pkce, w.store, op);
      RowsMint(pkce, db, op);
      MintedOnlyThere(Apply(pkce, w.store, op).store, PgApply(pkce, _ => None, db, op).db, op.access, op.check);
    }
  }

  lemma NewAccess(w: World, db: P.Tables, op: Op)
    requires Matched(w, db) && Admissible(w, op) && op.RotateOp?
    ensures op.access !in w.store.tokens && op.access !in db.access
  {
    assert Draws(op)[0] == op.access;
  }

  lemma IssuedMints(pkce: Pkce, s: Store, op: Op)
    requires op.RotateOp? && OneReading(op) && Apply(pkce, s, op).reply.Issued?
    ensures var m := Apply(pkce, s, op).store.tokens; op.access in m && m[op.access].expiresAt >= op.check
  {
  }

  lemma RowsMint(pkce: Pkce, db: P.Tables, op: Op)
    requires op.RotateOp? && PgApply(pkce, _ => None, db, op).reply.Issued?
    ensures var db' := PgApply(pkce, _ => None, db, op).db;
            op.access in db'.access && db'.access[op.access].expiresAt >= op.check
            && Active(db'.families, db'.access[op.access].family)
  {
  }

  lemma RefusedMintsNothing(pkce: Pkce, s: Store, op: Op)
    requires op.RotateOp? && Apply(pkce, s, op).reply == Rejected && op.access !in s.tokens
    ensures op.access !in Apply(pkce, s, op).store.tokens
  {
  }

  lemma MintedOnlyHere(s: Store, db: P.Tables, access: string, now: Time)
    requires access in s.tokens && s.tokens[access].expiresAt >= now && access !in db.access
    ensures !Sim(s, db, now)
  {
    assert access in AnonStore(s).tokens && AnonStore(s).tokens[access].expiresAt >= now;
  }

  lemma MintedOnlyThere(s: Store, db: P.Tables, access: string, now: Time)
    requires access !in s.tokens && access in db.access && db.access[access].expiresAt >= now
    requires Active(db.families, db.access[access].family)
    ensures !Sim(s, db, now)
  {
    assert access in Recover(db).tokens && Recover(db).tokens[access].expiresAt >= now;
  }

  lemma ForeignReplayKeepsRows(pkce: Pkce, db: P.Tables, op: Op)
    requires op.RotateOp? && ForeignReplay(db, op.token, op.client, op.check)
    ensures PgApply(pkce, _ => None, db, op) == P.Result(db, Rejected)
  {
  }

  lemma RecoveredStillLive(db: P.Tables, f: string, now: Time)
    requires Consistent(db, now) && Active(db.families, f) && db.families[f].expiresAt > now
    ensures LiveFamily(Refreshes(db.families, db.refresh), f, now)
  {
    var r :| IsCurrent(db.families, db.refresh, f, r);
    assert Refreshes(db.families, db.refresh)[r].family == f;
  }

  lemma ForeignReplayRevokes(pkce: Pkce, s: Store, db: P.Tables, op: Op)
    requires op.RotateOp? && ForeignReplay(db, op.token, op.client, op.check) && Sim(s, db, op.check)
    requires Families(AnonStore(s), op.check)
    requires LiveFamily(Refreshes(db.families, db.refresh), db.refresh[op.token].family, op.check)
    ensures !HasFamily(Apply(pkce, s, op).store.refresh, db.refresh[op.token].family)
    ensures Apply(pkce, s, op).reply == Rejected
  {
    var f := db.refresh[op.token].family;
    assert op.token in Recover(db).consumed && Recover(db).consumed[op.token] == f;
    assert op.token in s.consumed && s.consumed[op.token] == f;
    assert op.token !in AnonStore(s).refresh;
  }

  lemma SimilarKeepsFamily(s: Store, db: P.Tables, f: string, now: Time)
    requires LiveFamily(Refreshes(db.families, db.refresh), f, now)
    ensures Sim(s, db, now) ==> HasFamily(s.refresh, f)
  {
    var m := Refreshes(db.families, db.refresh);
    var r :| r in m && m[r].family == f && m[r].expiresAt >= now;
    if Sim(s, db, now) {
      assert AnonStore(s).refresh[r] == m[r];
      assert s.refresh[r].family == f;
    }
  }
}
