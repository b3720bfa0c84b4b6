// Eviction is unobservable to grants: inserting evictions anywhere in a run, or
// removing them, changes no verdict of an exchange, lookup, renewal or rotation.
module Eviction {
  import opened Grants
  import opened GrantRuns

  // --- Stores that agree on everything still alive ---

  ghost predicate LiveFamily(m: map<string, Entry>, f: string, t: Time) {
    exists r :: r in m && m[r].family == f && m[r].expiresAt >= t
  }

  ghost predicate Kept(m: map<string, Entry>, m': map<string, Entry>, t: Time) {
    forall k :: k in m && m[k].expiresAt >= t ==> k in m' && m'[k] == m[k]
  }

  ghost predicate KeptCodes(m: map<string, AuthCode>, m': map<string, AuthCode>, t: Time) {
    forall k :: k in m && m[k].expiresAt >= t ==> k in m' && m'[k] == m[k]
  }

  ghost predicate KeptReplays(refresh: map<string, Entry>, consumed: map<string, string>,
                              consumed': map<string, string>, t: Time)
  {
    forall k :: k in consumed && LiveFamily(refresh, consumed[k], t) ==>
      k in consumed' && consumed'[k] == consumed[k]
  }

  ghost predicate Within(s: Store, s': Store, t: Time) {
    KeptCodes(s.codes, s'.codes, t) && Kept(s.tokens, s'.tokens, t) && Kept(s.refresh, s'.refresh, t)
    && KeptReplays(s.refresh, s.consumed, s'.consumed, t)
  }

  ghost predicate Agree(s: Store, s': Store, t: Time) {
    Within(s, s', t) && Within(s', s, t)
  }

  lemma WithinLater(s: Store, s': Store, t: Time, later: Time)
    requires Within(s, s', t) && t <= later
    ensures Within(s, s', later)
  {
    assert forall f :: LiveFamily(s.refresh, f, later) ==> LiveFamily(s.refresh, f, t);
  }

  lemma FamiliesLater(s: Store, t: Time, later: Time)
    requires Families(s, t) && t <= later
    ensures Families(s, later)
  {
    assert forall a :: a in s.tokens ==> Covered(s.refresh, s.tokens[a], t);
  }

  lemma LiveFamilyCarries(m: map<string, Entry>, m': map<string, Entry>, f: string, t: Time)
    requires Kept(m, m', t) && LiveFamily(m, f, t)
    ensures LiveFamily(m', f, t)
  {
    var r :| r in m && m[r].family == f && m[r].expiresAt >= t;
    assert m'[r] == m[r];
  }

  // --- One operation on two agreeing stores ---

  lemma SweepAgrees(s: Store, s': Store, now: Time)
    requires Agree(s, s', now) && Families(s', now)
    ensures Agree(s, Evict(s', now).store, now)
  {
    var e := Evict(s', now).store;
    assert Kept(s.refresh, e.refresh, now) && Kept(e.refresh, s.refresh, now);
    forall k | k in s.consumed && LiveFamily(s.refresh, s.consumed[k], now)
      ensures k in e.consumed && e.consumed[k] == s.consumed[k]
    {
      LiveFamilyCarries(s.refresh, e.refresh, s.consumed[k], now);
    }
    forall k | k in e.consumed && LiveFamily(e.refresh, e.consumed[k], now)
      ensures k in s.consumed && s.consumed[k] == e.consumed[k]
    {
      LiveFamilyCarries(e.refresh, s'.refresh, e.consumed[k], now);
    }
  }

  lemma LookupAgrees(s: Store, s': Store, access: string, now: Time)
    requires Agree(s, s', now)
    ensures LookupToken(s, access, now).reply == LookupToken(s', access, now).reply
    ensures LookupToken(s, access, now).reply.Rejected? ==> access in s.tokens ==> s.tokens[access].expiresAt < now
    ensures Within(LookupToken(s, access, now).store, LookupToken(s', access, now).store, now)
  {
    if access !in s.tokens || s.tokens[access].expiresAt < now {
      ExpiredTokenWithin(s, s', access, now);
    }
  }

  // Two stores after an expired token, if present, was dropped from either.
  lemma ExpiredTokenWithin(s: Store, s': Store, access: string, now: Time)
    requires Within(s, s', now) && (access in s.tokens ==> s.tokens[access].expiresAt < now)
    ensures Within(s, s'.(tokens := Delete(s'.tokens, access)), now)
    ensures Within(s.(tokens := Delete(s.tokens, access)), s', now)
    ensures Within(s.(tokens := Delete(s.tokens, access)), s'.(tokens := Delete(s'.tokens, access)), now)
  {
  }

  lemma RenewReplies(s: Store, s': Store, access: string, now: Time)
    requires Agree(s, s', now)
    ensures RenewToken(s, access, now).reply == RenewToken(s', access, now).reply
  {
  }

  lemma RenewAgrees(s: Store, s': Store, access: string, now: Time)
    requires Agree(s, s', now) && Families(s, now) && Families(s', now)
    ensures Within(RenewToken(s, access, now).store, RenewToken(s', access, now).store, now)
  {
    if access !in s.tokens || s.tokens[access].expiresAt < now {
      ExpiredTokenWithin(s, s', access, now);
    } else {
      assert s'.tokens[access] == s.tokens[access];
      SlidWithin(s.refresh, s'.refresh, s.tokens[access], now, s.consumed, s'.consumed);
    }
  }

  lemma SlidWithin(m: map<string, Entry>, m': map<string, Entry>, te: Entry, now: Time,
                   consumed: map<string, string>, consumed': map<string, string>)
    requires Kept(m, m', now) && KeptReplays(m, consumed, consumed', now)
    requires te.expiresAt >= now && Covered(m, te, now)
    ensures Kept(SlideRefresh(m, te.family, now), SlideRefresh(m', te.family, now), now)
    ensures KeptReplays(SlideRefresh(m, te.family, now), consumed, consumed', now)
  {
    var r := SlideRefresh(m, te.family, now);
    forall k | k in r && r[k].expiresAt >= now
      ensures m[k].expiresAt >= now
    {
      SlidLive(m, te, k, now);
    }
    forall k | k in consumed && LiveFamily(r, consumed[k], now)
      ensures k in consumed' && consumed'[k] == consumed[k]
    {
      var q :| q in r && r[q].family == consumed[k] && r[q].expiresAt >= now;
      assert m[q].family == consumed[k];
      assert LiveFamily(m, consumed[k], now);
    }
  }

  lemma SlidLive(m: map<string, Entry>, te: Entry, k: string, now: Time)
    requires k in m && now <= te.expiresAt && Covered(m, te, now)
    requires k in SlideRefresh(m, te.family, now) && SlideRefresh(m, te.family, now)[k].expiresAt >= now
    ensures m[k].expiresAt >= now
  {
  }

  lemma MintAgrees(s: Store, s': Store, e: Entry, access: string, refresh: string, now: Time)
    requires Within(s, s', now)
    requires forall k :: k in s.consumed && s.consumed[k] == e.family ==> k in s'.consumed && s'.consumed[k] == e.family
    ensures Within(MintPair(s, e, access, refresh, now), MintPair(s', e, access, refresh, now), now)
  {
    var r, r' := MintPair(s, e, access, refresh, now), MintPair(s', e, access, refresh, now);
    forall k | k in r.consumed && LiveFamily(r.refresh, r.consumed[k], now)
      ensures k in r'.consumed && r'.consumed[k] == r.consumed[k]
    {
      var q :| q in r.refresh && r.refresh[q].family == r.consumed[k] && r.refresh[q].expiresAt >= now;
      if r.consumed[k] != e.family {
        assert s.refresh[q] == r.refresh[q];
      }
    }
  }

  lemma ExchangeAgrees(pkce: Pkce, s: Store, s': Store, op: Op)
    requires op.ExchangeOp? && Ordered(op) && Agree(s, s', First(op))
    requires forall k :: k in s.consumed ==> s.consumed[k] != op.family
    ensures Apply(pkce, s, op).reply == Apply(pkce, s', op).reply
    ensures Within(Apply(pkce, s, op).store, Apply(pkce, s', op).store, Last(op))
  {
    WithinLater(s, s', op.check, op.mint);
    var p, p' := s.(codes := Delete(s.codes, op.code)), s'.(codes := Delete(s'.codes, op.code));
    BurnedWithin(s, s', op.code, op.mint);
    if op.code in s.codes && s.codes[op.code].expiresAt >= op.check {
      var ac := s.codes[op.code];
      assert s'.codes[op.code] == ac;
      MintAgrees(p, p', Entry(op.client, ac.scope, op.mint, op.family, ac.principal), op.access, op.refresh, op.mint);
    }
  }

  lemma BurnedWithin(s: Store, s': Store, code: string, t: Time)
    requires Within(s, s', t)
    ensures Within(s.(codes := Delete(s.codes, code)), s'.(codes := Delete(s'.codes, code)), t)
    ensures code !in s.codes || s.codes[code].expiresAt < t ==> Within(s, s'.(codes := Delete(s'.codes, code)), t)
    ensures Within(s.(codes := Delete(s.codes, code)), s', t)
  {
  }

  // Rotating a token that both stores hold alive.
  lemma RotateLiveAgrees(pkce: Pkce, s: Store, s': Store, op: Op)
    requires op.RotateOp? && Ordered(op) && Agree(s, s', First(op)) && OneRefresh(s, First(op))
    requires op.token in s.refresh && s.refresh[op.token].expiresAt >= op.check
    ensures Apply(pkce, s, op).reply == Apply(pkce, s', op).reply
    ensures Within(Apply(pkce, s, op).store, Apply(pkce, s', op).store, Last(op))
  {
    assert s'.refresh[op.token] == s.refresh[op.token];
    RotateLiveReplies(pkce, s, s', op);
    WithinLater(s, s', op.check, op.mint);
    hide Within, OneRefresh, Delete, MintPair;
    if Apply(pkce, s, op).reply.Issued? {
      RotatedWithin(s, s', op.token, op.access, op.refresh, op.check, op.mint);
    } else {
      RotateLiveRefused(pkce, s, s', op, op.mint);
    }
  }

  lemma RotateLiveReplies(pkce: Pkce, s: Store, s': Store, op: Op)
    requires op.RotateOp? && op.token in s.refresh && op.token in s'.refresh
    requires s'.refresh[op.token] == s.refresh[op.token]
    ensures Apply(pkce, s, op).reply == Apply(pkce, s', op).reply
  {
  }

  // Refused, two rotations of one stored entry both drop it or both keep it.
  lemma RotateLiveRefused(pkce: Pkce, s: Store, s': Store, op: Op, t: Time)
    requires op.RotateOp? && op.token in s.refresh && op.token in s'.refresh && Within(s, s', t)
    requires s'.refresh[op.token] == s.refresh[op.token] && !Apply(pkce, s, op).reply.Issued?
    ensures Within(Apply(pkce, s, op).store, Apply(pkce, s', op).store, t)
  {
    DeletedWithin(s, s', op.token, t);
    hide Within, Delete, MintPair;
  }

  lemma RotatedWithin(s: Store, s': Store, token: string, access: string, refresh: string, t: Time, now: Time)
    requires Within(s, s', t) && t <= now && token in s.refresh && s.refresh[token].expiresAt >= t
    ensures
      var re := s.refresh[token];
      var p := s.(refresh := Delete(s.refresh, token), consumed := s.consumed[token := re.family]);
      var p' := s'.(refresh := Delete(s'.refresh, token), consumed := s'.consumed[token := re.family]);
      Within(MintPair(p, re, access, refresh, now), MintPair(p', re, access, refresh, now), now)
  {
    var re := s.refresh[token];
    var p := s.(refresh := Delete(s.refresh, token), consumed := s.consumed[token := re.family]);
    var p' := s'.(refresh := Delete(s'.refresh, token), consumed := s'.consumed[token := re.family]);
    assert LiveFamily(s.refresh, re.family, t);
    SpentWithin(s, s', p, p', token, t, now);
    MintAgrees(p, p', re, access, refresh, now);
  }

  lemma SpentWithin(s: Store, s': Store, p: Store, p': Store, token: string, t: Time, now: Time)
    requires Within(s, s', t) && t <= now && token in s.refresh && LiveFamily(s.refresh, s.refresh[token].family, t)
    requires p == s.(refresh := Delete(s.refresh, token), consumed := s.consumed[token := s.refresh[token].family])
    requires p' == s'.(refresh := Delete(s'.refresh, token), consumed := s'.consumed[token := s.refresh[token].family])
    ensures Within(p, p', now)
    ensures forall k :: k in p.consumed && p.consumed[k] == s.refresh[token].family ==>
      k in p'.consumed && p'.consumed[k] == s.refresh[token].family
  {
    WithinLater(s, s', t, now);
    forall k | k in p.consumed && LiveFamily(p.refresh, p.consumed[k], now)
      ensures k in p'.consumed && p'.consumed[k] == p.consumed[k]
    {
      var r :| r in p.refresh && p.refresh[r].family == p.consumed[k] && p.refresh[r].expiresAt >= now;
      assert s.refresh[r] == p.refresh[r];
    }
  }

  lemma KeptDeleted(m: map<string, Entry>, m': map<string, Entry>, token: string, t: Time)
    requires Kept(m, m', t)
    ensures Kept(Delete(m, token), Delete(m', token), t) && Kept(Delete(m, token), m', t)
    ensures token !in m || m[token].expiresAt < t ==> Kept(m, Delete(m', token), t)
  {
  }

  lemma ReplaysDeleted(refresh: map<string, Entry>, consumed: map<string, string>, consumed': map<string, string>,
                       token: string, t: Time)
    requires KeptReplays(refresh, consumed, consumed', t)
    ensures KeptReplays(Delete(refresh, token), consumed, consumed', t)
  {
    var m := Delete(refresh, token);
    forall f | LiveFamily(m, f, t)
      ensures LiveFamily(refresh, f, t)
    {
      var r :| r in m && m[r].family == f && m[r].expiresAt >= t;
      assert refresh[r] == m[r];
    }
  }

  lemma DeletedWithin(s: Store, s': Store, token: string, t: Time)
    requires Within(s, s', t)
    ensures Within(s.(refresh := Delete(s.refresh, token)), s'.(refresh := Delete(s'.refresh, token)), t)
    ensures token !in s.refresh || s.refresh[token].expiresAt < t ==>
      Within(s, s'.(refresh := Delete(s'.refresh, token)), t)
    ensures Within(s.(refresh := Delete(s.refresh, token)), s', t)
  {
    KeptDeleted(s.refresh, s'.refresh, token, t);
    ReplaysDeleted(s.refresh, s.consumed, s'.consumed, token, t);
    hide Kept, KeptCodes, KeptReplays, Delete;
  }

  // A token neither store holds alive: whatever they do to it, nothing live changes
  // beyond a revocation both perform.
  lemma RotateDeadAgrees(pkce: Pkce, s: Store, s': Store, op: Op)
    requires op.RotateOp? && Ordered(op) && Agree(s, s', First(op)) && Families(s, First(op)) && Families(s', First(op))
    requires Dead(s, op.token, op.check)
    ensures Apply(pkce, s, op).reply == Apply(pkce, s', op).reply == Rejected
    ensures Within(Apply(pkce, s, op).store, Apply(pkce, s', op).store, Last(op))
  {
    assert Dead(s', op.token, op.check);
    DeadIsRejected(pkce, s, op);
    DeadIsRejected(pkce, s', op);
    if LiveReplay(s, op.token, op.check) {
      ReplayOfLiveFamily(s, s', op.token, op.check);
      WithinLater(s, s', op.check, op.mint);
      RevokedWithin(s, s', s.consumed[op.token], op.mint);
    } else {
      assert !LiveReplay(s', op.token, op.check) by {
        if LiveReplay(s', op.token, op.check) {
          ReplayOfLiveFamily(s', s, op.token, op.check);
        }
      }
      DeadRotationsAgree(s, s', op, Apply(pkce, s, op).store, Apply(pkce, s', op).store);
    }
  }

  lemma DeadRotationsAgree(s: Store, s': Store, op: Op, r: Store, r': Store)
    requires op.RotateOp? && Ordered(op) && Within(s, s', op.check)
    requires Families(s, op.check) && Families(s', op.check)
    requires Dead(s, op.token, op.check) && !LiveReplay(s, op.token, op.check)
    requires Dead(s', op.token, op.check) && !LiveReplay(s', op.token, op.check)
    requires r == RotateRefresh(s, op.token, op.client, op.policy, op.check, op.recheck, op.mint, op.access,
                                op.refresh).store
    requires r' == RotateRefresh(s', op.token, op.client, op.policy, op.check, op.recheck, op.mint, op.access,
                                 op.refresh).store
    ensures Within(r, r', op.mint)
  {
    DropsOnlyDead(s, op, r);
    DropsOnlyDead(s', op, r');
    WithinTransitive(r, s, s', op.check);
    WithinTransitive(r, s', r', op.check);
    WithinLater(r, r', op.check, op.mint);
  }

  ghost predicate Dead(s: Store, token: string, t: Time) {
    token !in s.refresh || s.refresh[token].expiresAt < t
  }

  lemma DeadIsRejected(pkce: Pkce, s: Store, op: Op)
    requires op.RotateOp? && Dead(s, op.token, op.check)
    ensures Apply(pkce, s, op).reply == Rejected
  {
  }

  ghost predicate LiveReplay(s: Store, token: string, t: Time) {
    token !in s.refresh && token in s.consumed && LiveFamily(s.refresh, s.consumed[token], t)
  }

  lemma ReplayOfLiveFamily(s: Store, s': Store, token: string, t: Time)
    requires Agree(s, s', t) && OneRefresh(s', t) && LiveReplay(s, token, t)
    ensures LiveReplay(s', token, t) && s'.consumed[token] == s.consumed[token]
  {
    LiveFamilyCarries(s.refresh, s'.refresh, s.consumed[token], t);
  }

  lemma RevokedWithin(s: Store, s': Store, f: string, t: Time)
    requires Within(s, s', t)
    ensures Within(RevokeFamily(s, f), RevokeFamily(s', f), t)
  {
    var r := RevokeFamily(s, f);
    forall k | k in r.consumed && LiveFamily(r.refresh, r.consumed[k], t)
      ensures k in RevokeFamily(s', f).consumed && RevokeFamily(s', f).consumed[k] == r.consumed[k]
    {
      var q :| q in r.refresh && r.refresh[q].family == r.consumed[k] && r.refresh[q].expiresAt >= t;
      assert s.refresh[q] == r.refresh[q];
    }
  }

  lemma WithinTransitive(a: Store, b: Store, c: Store, t: Time)
    requires Within(a, b, t) && Within(b, c, t)
    ensures Within(a, c, t)
  {
    forall k | k in a.consumed && LiveFamily(a.refresh, a.consumed[k], t)
      ensures k in c.consumed && c.consumed[k] == a.consumed[k]
    {
      LiveFamilyCarries(a.refresh, b.refresh, a.consumed[k], t);
    }
  }

  // Presenting a dead refresh token, or replaying one of a dead family, removes
  // nothing that is alive.
  lemma DropsOnlyDead(s: Store, op: Op, r: Store)
    requires op.RotateOp? && Families(s, op.check)
    requires Dead(s, op.token, op.check) && !LiveReplay(s, op.token, op.check)
    requires r == RotateRefresh(s, op.token, op.client, op.policy, op.check, op.recheck, op.mint, op.access,
                                op.refresh).store
    ensures Agree(s, r, op.check)
  {
    if op.token !in s.refresh && op.token in s.consumed {
      var f := s.consumed[op.token];
      forall a | a in s.tokens && s.tokens[a].family == f
        ensures s.tokens[a].expiresAt < op.check
      {
        assert Covered(s.refresh, s.tokens[a], op.check);
      }
      RevokedDeadAgrees(s, f, op.check);
    } else {
      ReflexiveWithin(s, op.check);
      DeletedWithin(s, s, op.token, op.check);
    }
  }

  lemma ReflexiveWithin(s: Store, t: Time)
    ensures Within(s, s, t)
  {
  }

  lemma RevokedDeadAgrees(s: Store, f: string, t: Time)
    requires !LiveFamily(s.refresh, f, t)
    requires forall a :: a in s.tokens && s.tokens[a].family == f ==> s.tokens[a].expiresAt < t
    ensures Agree(s, RevokeFamily(s, f), t)
  {
    var r := RevokeFamily(s, f);
    forall k | k in r.consumed && LiveFamily(r.refresh, r.consumed[k], t)
      ensures k in s.consumed && s.consumed[k] == r.consumed[k]
    {
    }
  }

  // --- Whole runs ---

  // Two worlds that differ at most by evictions; w saw fewer of them.
  ghost predicate Twins(w: World, w': World) {
    Inv(w) && Inv(w') && w.clock <= w'.clock && w.issued == w'.issued && Agree(w.store, w'.store, w'.clock)
  }

  predicate IsGrantOp(op: Op) {
    op.ExchangeOp? || op.LookupOp? || op.RenewOp? || op.RotateOp?
  }

  ghost function GrantReplies(pkce: Pkce, w: World, ops: seq<Op>): seq<Reply>
    decreases |ops|
  {
    if ops == [] then []
    else (if IsGrantOp(ops[0]) then [ReplyTo(pkce, w, ops[0])] else [])
         + GrantReplies(pkce, Step(pkce, w, ops[0]), ops[1..])
  }

  ghost function WithoutEvictions(ops: seq<Op>): seq<Op>
    decreases |ops|
  {
    if ops == [] then []
    else (if ops[0].EvictOp? then [] else [ops[0]]) + WithoutEvictions(ops[1..])
  }

  lemma {:induction false} TwinStores(pkce: Pkce, s: Store, s': Store, op: Op)
    requires !op.EvictOp? && Ordered(op) && Agree(s, s', First(op))
    requires Families(s, First(op)) && Families(s', First(op))
    requires op.ExchangeOp? ==> forall k :: k in s.consumed ==> s.consumed[k] != op.family
    ensures IsGrantOp(op) ==> Apply(pkce, s, op).reply == Apply(pkce, s', op).reply
    ensures Within(Apply(pkce, s, op).store, Apply(pkce, s', op).store, Last(op))
  {
    match op
    case ExchangeOp(_, _, _, _, _, _, _, _, _) => ExchangeAgrees(pkce, s, s', op);
    case LookupOp(access, now) => LookupAgrees(s, s', access, now);
    case RenewOp(access, now) => RenewReplies(s, s', access, now); RenewAgrees(s, s', access, now);
    case RotateOp(token, _, _, check, _, _, _, _) =>
      if token in s.refresh && s.refresh[token].expiresAt >= check {
        RotateLiveAgrees(pkce, s, s', op);
      } else {
        RotateDeadAgrees(pkce, s, s', op);
      }
    case _ => ClientOpsAgree(pkce, s, s', op);
  }

  lemma ClientOpsAgree(pkce: Pkce, s: Store, s': Store, op: Op)
    requires (op.RegisterOp? || op.CimdOp? || op.CodeOp?) && Within(s, s', op.now)
    ensures Within(Apply(pkce, s, op).store, Apply(pkce, s', op).store, op.now)
  {
    hide Kept, KeptReplays;
  }

  lemma TwinsReady(w: World, w': World, op: Op)
    requires Twins(w, w') && Admissible(w', op)
    ensures Admissible(w, op) && Agree(w.store, w'.store, First(op))
    ensures Families(w.store, First(op)) && Families(w'.store, First(op))
    ensures op.ExchangeOp? ==> forall k :: k in w.store.consumed ==> w.store.consumed[k] != op.family
    ensures op.ExchangeOp? ==> forall k :: k in w'.store.consumed ==> w'.store.consumed[k] != op.family
  {
    WithinLater(w.store, w'.store, w'.clock, First(op));
    WithinLater(w'.store, w.store, w'.clock, First(op));
    FamiliesLater(w.store, w.clock, First(op));
    FamiliesLater(w'.store, w'.clock, First(op));
    assert op.ExchangeOp? ==> Draws(op)[0] == op.family;
  }

  lemma TwinsEvict(pkce: Pkce, w: World, w': World, op: Op)
    requires op.EvictOp? && Twins(w, w') && Admissible(w', op) && Inv(Step(pkce, w', op))
    ensures Twins(w, Step(pkce, w', op))
  {
    hide Families, Recorded, Traceable, Replayable, Within, Evict, KeptCodes, KeptReplays;
    TwinsReady(w, w', op);
    SweepAgrees(w.store, w'.store, op.now);
    assert Draws(op) == [];
    assert Step(pkce, w', op).issued == w'.issued;
  }

  lemma TwinsStep(pkce: Pkce, w: World, w': World, op: Op)
    requires Twins(w, w') && Admissible(w', op)
    ensures op.EvictOp? ==> Twins(w, Step(pkce, w', op))
    ensures !op.EvictOp? ==> Admissible(w, op) && Twins(Step(pkce, w, op), Step(pkce, w', op))
    ensures IsGrantOp(op) ==> ReplyTo(pkce, w, op) == ReplyTo(pkce, w', op)
  {
    hide Families, Recorded, Traceable, Replayable, Apply, Within;
    TwinsReady(w, w', op);
    StepKeepsInv(pkce, w', op);
    if op.EvictOp? {
      TwinsEvict(pkce, w, w', op);
    } else {
      StepKeepsInv(pkce, w, op);
      TwinStores(pkce, w.store, w'.store, op);
      TwinStores(pkce, w'.store, w.store, op);
    }
  }

  lemma {:induction false} TwinRuns(pkce: Pkce, w: World, w': World, ops: seq<Op>)
    requires Twins(w, w') && AdmissibleRun(pkce, w', ops)
    ensures AdmissibleRun(pkce, w, WithoutEvictions(ops))
    ensures GrantReplies(pkce, w, WithoutEvictions(ops)) == GrantReplies(pkce, w', ops)
    decreases |ops|
  {
    if ops != [] {
      var op, rest := ops[0], ops[1..];
      TwinsStep(pkce, w, w', op);
      if op.EvictOp? {
        TwinRuns(pkce, w, Step(pkce, w', op), rest);
        assert WithoutEvictions(ops) == WithoutEvictions(rest);
      } else {
        TwinRuns(pkce, Step(pkce, w, op), Step(pkce, w', op), rest);
        assert WithoutEvictions(ops) == [op] + WithoutEvictions(rest);
        assert WithoutEvictions(ops)[1..] == WithoutEvictions(rest);
      }
    }
  }

  // From any reachable world, a run and the same run with every eviction erased
  // answer every grant operation alike.
  lemma {:induction false} EvictionIsUnobservable(pkce: Pkce, start: Time, prefix: seq<Op>, ops: seq<Op>)
    requires AdmissibleRun(pkce, Initial(start), prefix)
    requires AdmissibleRun(pkce, Run(pkce, Initial(start), prefix), ops)
    ensures
      var w := Run(pkce, Initial(start), prefix);
      && AdmissibleRun(pkce, w, WithoutEvictions(ops))
      && GrantReplies(pkce, w, WithoutEvictions(ops)) == GrantReplies(pkce, w, ops)
  {
    var w := Run(pkce, Initial(start), prefix);
    RunKeepsInv(pkce, Initial(start), prefix);
    ReflexiveWithin(w.store, w.clock);
    TwinRuns(pkce, w, w, ops);
  }
}
