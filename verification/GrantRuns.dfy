// Whole runs of the in-memory grant store: any sequence of interface operations,
// with nondecreasing clock readings and never-repeating random strings.
module GrantRuns {
  import opened Grants

  datatype Op =
    | RegisterOp(id: string, redirects: seq<string>, now: Time)
    | CimdOp(id: string, redirects: seq<string>, now: Time)
    | CodeOp(code: string, client: string, redirect: string, challenge: string,
             scope: seq<string>, principal: Principal, now: Time)
    | ExchangeOp(code: string, client: string, redirect: string, verifier: string,
                 check: Time, mint: Time, family: string, access: string, refresh: string)
    | LookupOp(access: string, now: Time)
    | RenewOp(access: string, now: Time)
    | RotateOp(token: string, client: string, policy: Principal -> bool,
               check: Time, recheck: Time, mint: Time, access: string, refresh: string)
    | EvictOp(now: Time)

  ghost function Apply(pkce: Pkce, s: Store, op: Op): Outcome {
    match op
    case RegisterOp(id, redirects, now) => RegisterClient(s, id, redirects, now)
    case CimdOp(id, redirects, now) => RegisterCimdClient(s, id, redirects, now)
    case CodeOp(code, client, redirect, challenge, scope, principal, now) =>
      CreateCode(s, code, client, redirect, challenge, scope, principal, now)
    case ExchangeOp(code, client, redirect, verifier, check, mint, family, access, refresh) =>
      ExchangeCode(pkce, s, code, client, redirect, verifier, check, mint, family, access, refresh)
    case LookupOp(access, now) => LookupToken(s, access, now)
    case RenewOp(access, now) => RenewToken(s, access, now)
    case RotateOp(token, client, policy, check, recheck, mint, access, refresh) =>
      RotateRefresh(s, token, client, policy, check, recheck, mint, access, refresh)
    case EvictOp(now) => Evict(s, now)
  }

  function First(op: Op): Time {
    match op
    case ExchangeOp(_, _, _, _, check, _, _, _, _) => check
    case RotateOp(_, _, _, check, _, _, _, _) => check
    case _ => op.now
  }

  function Last(op: Op): Time {
    match op
    case ExchangeOp(_, _, _, _, _, mint, _, _, _) => mint
    case RotateOp(_, _, _, _, _, mint, _, _) => mint
    case _ => op.now
  }

  predicate Ordered(op: Op) {
    match op
    case ExchangeOp(_, _, _, _, check, mint, _, _, _) => check <= mint
    case RotateOp(_, _, _, check, recheck, mint, _, _) => check <= recheck <= mint
    case _ => true
  }

  // The random strings an operation may draw.
  function Draws(op: Op): seq<string> {
    match op
    case RegisterOp(id, _, _) => [id]
    case CodeOp(code, _, _, _, _, _, _) => [code]
    case ExchangeOp(_, _, _, _, _, _, family, access, refresh) => [family, access, refresh]
    case RotateOp(_, _, _, _, _, _, access, refresh) => [access, refresh]
    case _ => []
  }

  predicate NeverSeen(draws: seq<string>, issued: set<string>) {
    && (forall i :: 0 <= i < |draws| ==> draws[i] !in issued)
    && (forall i, j :: 0 <= i < j < |draws| ==> draws[i] != draws[j])
  }

  // What an authorization code was granted for.
  datatype Grant = Grant(client: string, scope: seq<string>, principal: Principal)

  function GrantOf(e: Entry): Grant {
    Grant(e.client, e.scope, e.principal)
  }

  // The store together with the history the properties speak of: the last clock
  // reading, every random string drawn, the grant of the code that started each
  // family, and the family of every refresh token ever rotated.
  datatype World = World(store: Store, clock: Time, issued: set<string>,
                         origin: map<string, Grant>, rotated: map<string, string>)

  function Initial(t: Time): World {
    World(EMPTY, t, {}, map[], map[])
  }

  ghost predicate Admissible(w: World, op: Op) {
    w.clock <= First(op) && Ordered(op) && NeverSeen(Draws(op), w.issued)
  }

  ghost function ReplyTo(pkce: Pkce, w: World, op: Op): Reply {
    Apply(pkce, w.store, op).reply
  }

  ghost function Step(pkce: Pkce, w: World, op: Op): World {
    var out := Apply(pkce, w.store, op);
    World(out.store, Last(op), w.issued + (set x | x in Draws(op)),
          if op.ExchangeOp? && out.reply.Issued? then
            var ac := w.store.codes[op.code];
            w.origin[op.family := Grant(ac.client, ac.scope, ac.principal)]
          else w.origin,
          if op.RotateOp? && out.reply.Issued? then w.rotated[op.token := w.store.refresh[op.token].family]
          else w.rotated)
  }

  ghost predicate AdmissibleRun(pkce: Pkce, w: World, ops: seq<Op>)
    decreases |ops|
  {
    ops == [] || (Admissible(w, ops[0]) && AdmissibleRun(pkce, Step(pkce, w, ops[0]), ops[1..]))
  }

  ghost function Run(pkce: Pkce, w: World, ops: seq<Op>): World
    decreases |ops|
  {
    if ops == [] then w else Run(pkce, Step(pkce, w, ops[0]), ops[1..])
  }

  // --- The invariant ---

  // A family's tokens never outlive its refresh entry; without one they have expired.
  ghost predicate Covered(refresh: map<string, Entry>, e: Entry, clock: Time) {
    (forall r :: r in refresh && refresh[r].family == e.family ==> e.expiresAt <= refresh[r].expiresAt)
    && (HasFamily(refresh, e.family) || e.expiresAt < clock)
  }

  ghost predicate OneRefresh(s: Store, clock: Time) {
    && (forall r, q :: r in s.refresh && q in s.refresh && s.refresh[r].family == s.refresh[q].family ==> r == q)
    && (forall r :: r in s.refresh ==> r !in s.consumed && s.refresh[r].expiresAt <= clock + TOKEN_IDLE_TTL)
  }

  ghost predicate Families(s: Store, clock: Time) {
    OneRefresh(s, clock) && forall a :: a in s.tokens ==> Covered(s.refresh, s.tokens[a], clock)
  }

  ghost predicate Recorded(w: World) {
    && (forall k :: k in w.store.codes ==> k in w.issued)
    && (forall k :: k in w.store.tokens ==> k in w.issued)
    && (forall k :: k in w.store.refresh ==> k in w.issued && k !in w.rotated)
    && (forall k :: k in w.rotated ==> k in w.issued && w.rotated[k] in w.origin)
    && (forall f :: f in w.origin ==> f in w.issued)
    && (forall k :: k in w.store.consumed ==> k in w.rotated && w.rotated[k] == w.store.consumed[k])
  }

  // Every outstanding token carries the grant of the code that started its family.
  ghost predicate Traceable(w: World) {
    && (forall a :: a in w.store.tokens ==> FromOrigin(w, w.store.tokens[a]))
    && (forall r :: r in w.store.refresh ==> FromOrigin(w, w.store.refresh[r]))
  }

  ghost predicate FromOrigin(w: World, e: Entry) {
    e.family in w.origin && GrantOf(e) == w.origin[e.family]
  }

  ghost predicate Extinct(s: Store, family: string) {
    !HasFamily(s.tokens, family) && !HasFamily(s.refresh, family)
  }

  // A rotated token is still on record, unless nothing of its family is left.
  ghost predicate Replayable(w: World) {
    forall k :: k in w.rotated ==> k in w.store.consumed || Extinct(w.store, w.rotated[k])
  }

  ghost predicate Inv(w: World) {
    Families(w.store, w.clock) && Recorded(w) && Traceable(w) && Replayable(w)
  }

  // --- Every operation keeps it ---

  predicate SameGrant(e: Entry, e': Entry) {
    GrantOf(e) == GrantOf(e') && e.family == e'.family
  }

  predicate SameTokens(s: Store, s': Store) {
    s'.tokens == s.tokens && s'.refresh == s.refresh && s'.consumed == s.consumed
  }

  // s' holds nothing that s does not, up to expiries.
  ghost predicate Narrows(s: Store, s': Store) {
    && (forall a :: a in s'.tokens ==> a in s.tokens && SameGrant(s.tokens[a], s'.tokens[a]))
    && (forall r :: r in s'.refresh ==> r in s.refresh && SameGrant(s.refresh[r], s'.refresh[r]))
    && (forall k :: k in s'.consumed ==> k in s.consumed && s.consumed[k] == s'.consumed[k])
  }

  lemma NarrowingKeepsHistory(w: World, w': World)
    requires Recorded(w) && Traceable(w) && Narrows(w.store, w'.store)
    requires w'.origin == w.origin && w'.rotated == w.rotated
    requires w.issued <= w'.issued && forall k :: k in w'.store.codes ==> k in w'.issued
    ensures Recorded(w') && Traceable(w')
  {
    forall a | a in w'.store.tokens
      ensures FromOrigin(w', w'.store.tokens[a])
    {
      assert FromOrigin(w, w.store.tokens[a]);
    }
    forall r | r in w'.store.refresh
      ensures FromOrigin(w', w'.store.refresh[r])
    {
      assert FromOrigin(w, w.store.refresh[r]);
    }
  }

  lemma NarrowingKeepsExtinct(s: Store, s': Store, f: string)
    requires Narrows(s, s') && Extinct(s, f)
    ensures Extinct(s', f)
  {
    forall a | a in s'.tokens ensures s'.tokens[a].family != f { assert s.tokens[a].family != f; }
    forall r | r in s'.refresh ensures s'.refresh[r].family != f { assert s.refresh[r].family != f; }
  }

  // Replay records may be dropped only for families with nothing left.
  lemma NarrowingKeepsReplayable(w: World, w': World)
    requires Recorded(w) && Replayable(w) && Narrows(w.store, w'.store) && w'.rotated == w.rotated
    requires forall k :: k in w.store.consumed && k !in w'.store.consumed ==> Extinct(w'.store, w.store.consumed[k])
    ensures Replayable(w')
  {
    forall k | k in w'.rotated && k !in w'.store.consumed
      ensures Extinct(w'.store, w'.rotated[k])
    {
      if k !in w.store.consumed {
        NarrowingKeepsExtinct(w.store, w'.store, w.rotated[k]);
      }
    }
  }

  // Just before a pair is minted for e's family: the invariant, except that the
  // family has no refresh entry and its access tokens may still be live.
  ghost predicate AwaitingMint(w: World, e: Entry, now: Time) {
    && Recorded(w) && Traceable(w) && FromOrigin(w, e)
    && w.clock <= now && !HasFamily(w.store.refresh, e.family)
    && OneRefresh(w.store, w.clock)
    && (forall a :: a in w.store.tokens ==> CoveredBut(w.store.refresh, w.store.tokens[a], e.family, w.clock, now))
    && (forall k :: k in w.rotated ==>
      k in w.store.consumed || (Extinct(w.store, w.rotated[k]) && w.rotated[k] != e.family))
  }

  ghost predicate CoveredBut(refresh: map<string, Entry>, e: Entry, family: string, clock: Time, now: Time) {
    if e.family == family then e.expiresAt <= now + TOKEN_IDLE_TTL else Covered(refresh, e, clock)
  }

  lemma MintKeepsFamilies(s: Store, e: Entry, access: string, refresh: string, t: Time, now: Time)
    requires t <= now && !HasFamily(s.refresh, e.family) && OneRefresh(s, t)
    requires refresh !in s.refresh && refresh !in s.consumed && access !in s.tokens
    requires forall a :: a in s.tokens ==> CoveredBut(s.refresh, s.tokens[a], e.family, t, now)
    ensures Families(MintPair(s, e, access, refresh, now), now)
  {
    var s' := MintPair(s, e, access, refresh, now);
    assert s'.refresh[refresh].family == e.family;
    assert forall r :: r in s.refresh ==> s'.refresh[r] == s.refresh[r] && s.refresh[r].family != e.family;
    forall a | a in s'.tokens
      ensures Covered(s'.refresh, s'.tokens[a], now)
    {
      if s'.tokens[a].family != e.family {
        assert CoveredBut(s.refresh, s.tokens[a], e.family, t, now);
        KeepsCovered(s.refresh, s'.refresh, s.tokens[a], t, now);
      }
    }
  }

  lemma MintKeepsTraceable(w: World, w': World, e: Entry)
    requires Traceable(w) && w'.origin == w.origin && FromOrigin(w, e)
    requires forall a :: a in w'.store.tokens ==>
      (a in w.store.tokens && w'.store.tokens[a] == w.store.tokens[a]) || SameGrant(e, w'.store.tokens[a])
    requires forall r :: r in w'.store.refresh ==>
      (r in w.store.refresh && w'.store.refresh[r] == w.store.refresh[r]) || SameGrant(e, w'.store.refresh[r])
    ensures Traceable(w')
  {
    forall a | a in w'.store.tokens
      ensures FromOrigin(w', w'.store.tokens[a])
    {
      if a in w.store.tokens { assert FromOrigin(w, w.store.tokens[a]); }
    }
    forall r | r in w'.store.refresh
      ensures FromOrigin(w', w'.store.refresh[r])
    {
      if r in w.store.refresh { assert FromOrigin(w, w.store.refresh[r]); }
    }
  }

  lemma MintKeepsReplayable(w: World, s': Store, e: Entry, access: string, refresh: string, now: Time)
    requires s' == MintPair(w.store, e, access, refresh, now)
    requires forall k :: k in w.rotated ==>
      k in w.store.consumed || (Extinct(w.store, w.rotated[k]) && w.rotated[k] != e.family)
    ensures forall k :: k in w.rotated ==> k in s'.consumed || Extinct(s', w.rotated[k])
  {
    forall k | k in w.rotated && k !in s'.consumed
      ensures Extinct(s', w.rotated[k])
    {
      assert !HasFamily(w.store.tokens, w.rotated[k]);
      assert !HasFamily(w.store.refresh, w.rotated[k]);
    }
  }

  lemma MintKeepsInv(w: World, w': World, e: Entry, access: string, refresh: string, now: Time)
    requires AwaitingMint(w, e, now) && access !in w.issued && refresh !in w.issued
    requires w'.store == MintPair(w.store, e, access, refresh, now) && w'.clock == now
    requires w.issued <= w'.issued && access in w'.issued && refresh in w'.issued
    requires w'.origin == w.origin && w'.rotated == w.rotated
    ensures Inv(w')
  {
    assert refresh !in w.store.consumed;
    MintKeepsFamilies(w.store, e, access, refresh, w.clock, now);
    MintKeepsTraceable(w, w', e);
    MintKeepsReplayable(w, w'.store, e, access, refresh, now);
  }

  // A change that keeps the family's refresh entry, or drops it once it has expired.
  lemma KeepsCovered(m: map<string, Entry>, m': map<string, Entry>, e: Entry, t: Time, t': Time)
    requires Covered(m, e, t) && t <= t'
    requires forall r :: r in m' && m'[r].family == e.family ==>
      r in m && m[r].family == e.family && m[r].expiresAt <= m'[r].expiresAt
    requires forall r :: r in m && m[r].family == e.family ==>
      (r in m' && m'[r].family == e.family) || m[r].expiresAt < t'
    ensures Covered(m', e, t')
  {
    if HasFamily(m, e.family) {
      var r :| r in m && m[r].family == e.family;
      assert r in m' ==> m'[r].family == e.family ==> HasFamily(m', e.family);
    }
  }

  lemma IssuedKeepsInv(pkce: Pkce, w: World, op: Op)
    requires op.ExchangeOp? && Inv(w) && Admissible(w, op) && ReplyTo(pkce, w, op).Issued?
    ensures Inv(Step(pkce, w, op))
  {
    hide Families, Traceable, Replayable, AwaitingMint, MintPair;
    var s, w' := w.store, Step(pkce, w, op);
    assert Draws(op)[0] == op.family && Draws(op)[1] == op.access && Draws(op)[2] == op.refresh;
    var ac := s.codes[op.code];
    var e := Entry(op.client, ac.scope, op.mint, op.family, ac.principal);
    var burned := World(s.(codes := Delete(s.codes, op.code)), w.clock, w.issued + {op.family},
                        w.origin[op.family := GrantOf(e)], w.rotated);
    NewFamilyAwaitsMint(w, burned, e, op.mint);
    MintKeepsInv(burned, w', e, op.access, op.refresh, op.mint);
  }

  lemma ExchangeKeepsInv(pkce: Pkce, w: World, op: Op)
    requires op.ExchangeOp? && Inv(w) && Admissible(w, op)
    ensures Inv(Step(pkce, w, op))
  {
    hide Families, Traceable, Replayable, MintPair;
    if ReplyTo(pkce, w, op).Issued? {
      IssuedKeepsInv(pkce, w, op);
    } else {
      RejectionKeepsInv(w, Step(pkce, w, op));
    }
  }

  lemma NewFamilyAwaitsMint(w: World, w': World, e: Entry, now: Time)
    requires Inv(w) && w.clock == w'.clock <= now && e.family !in w.issued
    requires SameTokens(w.store, w'.store) && w'.rotated == w.rotated
    requires w'.origin == w.origin[e.family := GrantOf(e)]
    requires e.family in w'.issued && forall x :: x in w.issued ==> x in w'.issued
    requires forall k :: k in w'.store.codes ==> k in w.store.codes
    ensures AwaitingMint(w', e, now)
  {
    hide Covered;
    NewFamilyIsAbsent(w, w', e);
    forall k | k in w.rotated && k !in w.store.consumed
      ensures Extinct(w'.store, w.rotated[k]) && w.rotated[k] != e.family
    {
      assert Extinct(w.store, w.rotated[k]);
    }
  }

  lemma NewFamilyIsAbsent(w: World, w': World, e: Entry)
    requires Recorded(w) && Traceable(w) && e.family !in w.issued
    requires w'.origin == w.origin[e.family := GrantOf(e)]
    requires w'.store.tokens == w.store.tokens && w'.store.refresh == w.store.refresh
    ensures Traceable(w') && Extinct(w.store, e.family)
  {
    assert e.family !in w.origin;
    forall a | a in w.store.tokens
      ensures FromOrigin(w', w.store.tokens[a]) && w.store.tokens[a].family != e.family
    {
      assert FromOrigin(w, w.store.tokens[a]);
    }
    forall r | r in w.store.refresh
      ensures FromOrigin(w', w.store.refresh[r]) && w.store.refresh[r].family != e.family
    {
      assert FromOrigin(w, w.store.refresh[r]);
    }
  }

  // Codes and clients play no part in the invariant beyond the codes' names.
  lemma RejectionKeepsInv(w: World, w': World)
    requires Inv(w) && w.clock <= w'.clock && forall k :: k in w'.store.codes ==> k in w'.issued
    requires SameTokens(w.store, w'.store)
    requires w'.origin == w.origin && w'.rotated == w.rotated && w.issued <= w'.issued
    ensures Inv(w')
  {
    NarrowingKeepsHistory(w, w');
    NarrowingKeepsReplayable(w, w');
    forall a | a in w'.store.tokens
      ensures Covered(w'.store.refresh, w'.store.tokens[a], w'.clock)
    {
      KeepsCovered(w.store.refresh, w'.store.refresh, w.store.tokens[a], w.clock, w'.clock);
    }
  }

  lemma LookupKeepsInv(pkce: Pkce, w: World, op: Op)
    requires op.LookupOp? && Inv(w) && Admissible(w, op)
    ensures Inv(Step(pkce, w, op))
  {
    var w' := Step(pkce, w, op);
    if w'.store == w.store {
      RejectionKeepsInv(w, w');
    } else {
      ExpiredTokenKeepsInv(w, w', op.access);
    }
  }

  lemma ExpiredTokenKeepsInv(w: World, w': World, access: string)
    requires Inv(w) && w.clock <= w'.clock && w.issued <= w'.issued
    requires w' == w.(store := w.store.(tokens := Delete(w.store.tokens, access)), clock := w'.clock,
                      issued := w'.issued)
    ensures Inv(w')
  {
    hide Traceable, Replayable;
    var s, s' := w.store, w'.store;
    NarrowingKeepsHistory(w, w');
    NarrowingKeepsReplayable(w, w');
    forall a | a in s'.tokens
      ensures Covered(s'.refresh, s'.tokens[a], w'.clock)
    {
      KeepsCovered(s.refresh, s'.refresh, s.tokens[a], w.clock, w'.clock);
    }
  }

  lemma RenewKeepsInv(pkce: Pkce, w: World, op: Op)
    requires op.RenewOp? && Inv(w) && Admissible(w, op)
    ensures Inv(Step(pkce, w, op))
  {
    hide Families, Traceable, Replayable;
    if ReplyTo(pkce, w, op).Verified? {
      RenewalKeepsInv(w, Step(pkce, w, op), op.access, op.now);
    } else if op.access in w.store.tokens {
      ExpiredTokenKeepsInv(w, Step(pkce, w, op), op.access);
    } else {
      RejectionKeepsInv(w, Step(pkce, w, op));
    }
  }

  lemma RenewalKeepsInv(w: World, w': World, access: string, now: Time)
    requires Inv(w) && w.clock <= now && access in w.store.tokens && now <= w.store.tokens[access].expiresAt
    requires w' == w.(store := RenewToken(w.store, access, now).store, clock := now)
    ensures Inv(w')
  {
    RenewalNarrows(w.store, access, w.clock, now);
    NarrowingKeepsHistory(w, w');
    NarrowingKeepsReplayable(w, w');
    RenewalKeepsCovered(w.store, access, w.clock, now);
  }

  lemma RenewalNarrows(s: Store, access: string, t: Time, now: Time)
    requires Families(s, t) && t <= now && access in s.tokens && now <= s.tokens[access].expiresAt
    ensures Narrows(s, RenewToken(s, access, now).store)
    ensures RenewToken(s, access, now).store.(clients := s.clients)
         == s.(tokens := RenewToken(s, access, now).store.tokens, refresh := RenewToken(s, access, now).store.refresh)
  {
    hide Families, HasFamily;
    RenewedIsLive(s, access, now, t);
  }

  lemma RenewalKeepsCovered(s: Store, access: string, t: Time, now: Time)
    requires Families(s, t) && t <= now && access in s.tokens && now <= s.tokens[access].expiresAt
    ensures Families(RenewToken(s, access, now).store, now)
  {
    var s', f := RenewToken(s, access, now).store, s.tokens[access].family;
    RenewedIsLive(s, access, now, t);
    assert forall r :: r in s.refresh ==> s'.refresh[r].family == s.refresh[r].family;
    forall a | a in s'.tokens
      ensures Covered(s'.refresh, s'.tokens[a], now)
    {
      KeepsCovered(s.refresh, s'.refresh, s.tokens[a], t, now);
      if a == access {
        var r :| r in s.refresh && s.refresh[r].family == f;
        assert s'.refresh[r].family == f;
      }
    }
  }

  // A live access token's family still has its refresh entry, and it is live:
  // a renewal never deletes an entry of its own family.
  lemma RenewedIsLive(s: Store, access: string, now: Time, t: Time)
    requires Families(s, t) && t <= now && access in s.tokens && now <= s.tokens[access].expiresAt
    ensures HasFamily(s.refresh, s.tokens[access].family)
    ensures SlideRefresh(s.refresh, s.tokens[access].family, now).Keys == s.refresh.Keys
  {
    assert Covered(s.refresh, s.tokens[access], t);
  }

  lemma RotateIssuedKeepsInv(pkce: Pkce, w: World, op: Op)
    requires op.RotateOp? && Inv(w) && Admissible(w, op) && ReplyTo(pkce, w, op).Issued?
    ensures Inv(Step(pkce, w, op))
  {
    var re := w.store.refresh[op.token];
    assert Draws(op)[0] == op.access && Draws(op)[1] == op.refresh;
    var spent := SpentWorld(w, op.token);
    SpentAwaitsMint(w, op.token, op.mint);
    MintKeepsInv(spent, Step(pkce, w, op), re, op.access, op.refresh, op.mint);
  }

  function SpentWorld(w: World, token: string): World
    requires token in w.store.refresh
  {
    var s, f := w.store, w.store.refresh[token].family;
    w.(store := s.(refresh := Delete(s.refresh, token), consumed := s.consumed[token := f]),
       rotated := w.rotated[token := f])
  }

  lemma SpentStaysCovered(s: Store, token: string, a: string, t: Time, now: Time)
    requires Families(s, t) && t <= now && token in s.refresh && a in s.tokens
    ensures CoveredBut(Delete(s.refresh, token), s.tokens[a], s.refresh[token].family, t, now)
  {
    assert Covered(s.refresh, s.tokens[a], t);
    if s.tokens[a].family != s.refresh[token].family {
      KeepsCovered(s.refresh, Delete(s.refresh, token), s.tokens[a], t, t);
    }
  }

  lemma SpentIsTraceable(w: World, token: string)
    requires Recorded(w) && Traceable(w) && token in w.store.refresh
    ensures Recorded(SpentWorld(w, token)) && Traceable(SpentWorld(w, token))
    ensures FromOrigin(SpentWorld(w, token), w.store.refresh[token])
  {
    var w' := SpentWorld(w, token);
    assert FromOrigin(w, w.store.refresh[token]);
    forall a | a in w'.store.tokens
      ensures FromOrigin(w', w'.store.tokens[a])
    {
      assert FromOrigin(w, w.store.tokens[a]);
    }
    forall r | r in w'.store.refresh
      ensures FromOrigin(w', w'.store.refresh[r])
    {
      assert FromOrigin(w, w.store.refresh[r]);
    }
  }

  lemma SpentReplays(w: World, token: string, k: string)
    requires Families(w.store, w.clock) && Recorded(w) && Replayable(w) && token in w.store.refresh
    requires k in w.rotated && k !in w.store.consumed
    ensures Extinct(SpentWorld(w, token).store, w.rotated[k]) && w.rotated[k] != w.store.refresh[token].family
  {
    assert Extinct(w.store, w.rotated[k]);
  }

  lemma SpentAwaitsMint(w: World, token: string, now: Time)
    requires Inv(w) && w.clock <= now && token in w.store.refresh
    ensures AwaitingMint(SpentWorld(w, token), w.store.refresh[token], now)
  {
    hide Recorded, Traceable, Replayable, Covered, CoveredBut, Extinct;
    SpentIsTraceable(w, token);
    forall a | a in w.store.tokens
      ensures CoveredBut(Delete(w.store.refresh, token), w.store.tokens[a], w.store.refresh[token].family, w.clock, now)
    {
      SpentStaysCovered(w.store, token, a, w.clock, now);
    }
    forall k | k in w.rotated && k !in w.store.consumed
      ensures Extinct(SpentWorld(w, token).store, w.rotated[k]) && w.rotated[k] != w.store.refresh[token].family
    {
      SpentReplays(w, token, k);
    }
  }

  lemma RotateRefusedKeepsInv(pkce: Pkce, w: World, op: Op)
    requires op.RotateOp? && Inv(w) && Admissible(w, op) && !ReplyTo(pkce, w, op).Issued? && op.token in w.store.refresh
    ensures Inv(Step(pkce, w, op))
  {
    hide Families, Traceable, Replayable, RevokeFamily, MintPair;
    var w' := Step(pkce, w, op);
    if w'.store.refresh == w.store.refresh {
      RejectionKeepsInv(w, w');
    } else {
      ExpiredRefreshKeepsInv(w, w', op.token);
    }
  }

  lemma RotateRejectedKeepsInv(pkce: Pkce, w: World, op: Op)
    requires op.RotateOp? && Inv(w) && Admissible(w, op) && !ReplyTo(pkce, w, op).Issued?
    ensures Inv(Step(pkce, w, op))
  {
    var s, w' := w.store, Step(pkce, w, op);
    hide Families, Traceable, Replayable, RevokeFamily, MintPair;
    if op.token in s.refresh {
      RotateRefusedKeepsInv(pkce, w, op);
    } else if op.token in s.consumed {
      RevocationKeepsInv(w, w', s.consumed[op.token]);
    } else {
      RejectionKeepsInv(w, w');
    }
  }

  lemma ExpiredRefreshKeepsInv(w: World, w': World, token: string)
    requires Inv(w) && w.clock <= w'.clock && w.issued <= w'.issued
    requires token in w.store.refresh && w.store.refresh[token].expiresAt < w'.clock
    requires w' == w.(store := w.store.(refresh := Delete(w.store.refresh, token)), clock := w'.clock,
                      issued := w'.issued)
    ensures Inv(w')
  {
    hide Traceable, Replayable;
    var s, s' := w.store, w'.store;
    NarrowingKeepsHistory(w, w');
    NarrowingKeepsReplayable(w, w');
    forall a | a in s'.tokens
      ensures Covered(s'.refresh, s'.tokens[a], w'.clock)
    {
      KeepsCovered(s.refresh, s'.refresh, s.tokens[a], w.clock, w'.clock);
    }
  }

  lemma RevocationKeepsInv(w: World, w': World, f: string)
    requires Inv(w) && w.clock <= w'.clock && w.issued <= w'.issued
    requires w' == w.(store := RevokeFamily(w.store, f), clock := w'.clock, issued := w'.issued)
    ensures Inv(w') && Extinct(w'.store, f)
  {
    var s, s' := w.store, w'.store;
    NarrowingKeepsHistory(w, w');
    assert Extinct(s', f);
    NarrowingKeepsReplayable(w, w');
    forall a | a in s'.tokens
      ensures Covered(s'.refresh, s'.tokens[a], w'.clock)
    {
      KeepsCovered(s.refresh, s'.refresh, s.tokens[a], w.clock, w'.clock);
    }
  }

  lemma EvictKeepsInv(pkce: Pkce, w: World, op: Op)
    requires op.EvictOp? && Inv(w) && Admissible(w, op)
    ensures Inv(Step(pkce, w, op))
  {
    var s, w' := w.store, Step(pkce, w, op);
    var s' := w'.store;
    NarrowingKeepsHistory(w, w');
    forall a | a in s'.tokens
      ensures Covered(s'.refresh, s'.tokens[a], op.now) && HasFamily(s'.refresh, s'.tokens[a].family)
    {
      KeepsCovered(s.refresh, s'.refresh, s.tokens[a], w.clock, op.now);
    }
    forall k | k in s.consumed && k !in s'.consumed
      ensures Extinct(s', s.consumed[k])
    {
      assert !HasFamily(s'.refresh, s.consumed[k]);
    }
    NarrowingKeepsReplayable(w, w');
  }

  lemma {:induction false} StepKeepsInv(pkce: Pkce, w: World, op: Op)
    requires Inv(w) && Admissible(w, op)
    ensures Inv(Step(pkce, w, op))
  {
    match op
    case ExchangeOp(_, _, _, _, _, _, _, _, _) => ExchangeKeepsInv(pkce, w, op);
    case LookupOp(_, _) => LookupKeepsInv(pkce, w, op);
    case RenewOp(_, _) => RenewKeepsInv(pkce, w, op);
    case RotateOp(_, _, _, _, _, _, _, _) =>
      if ReplyTo(pkce, w, op).Issued? {
        RotateIssuedKeepsInv(pkce, w, op);
      } else {
        RotateRejectedKeepsInv(pkce, w, op);
      }
    case EvictOp(_) => EvictKeepsInv(pkce, w, op);
    case _ => OtherKeepsInv(pkce, w, op);
  }

  lemma OtherKeepsInv(pkce: Pkce, w: World, op: Op)
    requires (op.RegisterOp? || op.CimdOp? || op.CodeOp?) && Inv(w) && Admissible(w, op)
    ensures Inv(Step(pkce, w, op))
  {
    assert op.CodeOp? ==> op.code in Draws(op);
    RejectionKeepsInv(w, Step(pkce, w, op));
  }

  lemma {:induction false} RunKeepsInv(pkce: Pkce, w: World, ops: seq<Op>)
    requires Inv(w) && AdmissibleRun(pkce, w, ops)
    ensures Inv(Run(pkce, w, ops))
    decreases |ops|
  {
    if ops != [] {
      StepKeepsInv(pkce, w, ops[0]);
      RunKeepsInv(pkce, Step(pkce, w, ops[0]), ops[1..]);
    }
  }
}
