// What every run of the in-memory store guarantees: one live refresh token per
// family, replay ends a family for good, grants keep their origin, the client cap.
module GrantSafety {
  import opened Collections
  import opened Grants
  import opened GrantRuns

  lemma RunSplits(pkce: Pkce, w: World, ops: seq<Op>, more: seq<Op>)
    ensures Run(pkce, w, ops + more) == Run(pkce, Run(pkce, w, ops), more)
    ensures AdmissibleRun(pkce, w, ops + more)
       <==> AdmissibleRun(pkce, w, ops) && AdmissibleRun(pkce, Run(pkce, w, ops), more)
    decreases |ops|
  {
    if ops == [] {
      assert ops + more == more;
    } else {
      assert (ops + more)[1..] == ops[1..] + more;
      RunSplits(pkce, Step(pkce, w, ops[0]), ops[1..], more);
    }
  }

  // --- What one operation can add ---

  // e is what a successful operation op mints in store s.
  ghost predicate Mints(s: Store, op: Op, e: Entry) {
    match op
    case ExchangeOp(code, _, _, _, _, _, family, _, _) =>
      code in s.codes && e.family == family
      && GrantOf(e) == Grant(s.codes[code].client, s.codes[code].scope, s.codes[code].principal)
    case RotateOp(token, _, _, _, _, _, _, _) => token in s.refresh && SameGrant(s.refresh[token], e)
    case _ => false
  }

  // Entries stay what they were, or are minted under the operation's fresh names.
  ghost predicate Extends(m: map<string, Entry>, m': map<string, Entry>, s: Store, op: Op, name: string) {
    forall a :: a in m' ==> (a in m && SameGrant(m[a], m'[a])) || (a == name && Mints(s, op, m'[a]))
  }

  lemma RotateExtends(pkce: Pkce, s: Store, op: Op)
    requires op.RotateOp?
    ensures var s' := Apply(pkce, s, op).store;
      Extends(s.tokens, s'.tokens, s, op, op.access) && Extends(s.refresh, s'.refresh, s, op, op.refresh)
  {
    if !Apply(pkce, s, op).reply.Issued? {
      RejectedRotationNarrows(pkce, s, op);
    }
  }

  lemma RejectedRotationNarrows(pkce: Pkce, s: Store, op: Op)
    requires op.RotateOp? && !Apply(pkce, s, op).reply.Issued?
    ensures Narrows(s, Apply(pkce, s, op).store)
  {
  }

  lemma ExchangeExtends(pkce: Pkce, s: Store, op: Op)
    requires op.ExchangeOp?
    ensures var s' := Apply(pkce, s, op).store;
      Extends(s.tokens, s'.tokens, s, op, op.access) && Extends(s.refresh, s'.refresh, s, op, op.refresh)
  {
  }

  lemma OthersOnlyNarrow(pkce: Pkce, s: Store, op: Op)
    requires !op.ExchangeOp? && !op.RotateOp?
    ensures Narrows(s, Apply(pkce, s, op).store)
  {
    hide RenewToken, Evict, RegisterClient, RegisterCimdClient, CreateCode, RotateRefresh, ExchangeCode;
    match op
    case RenewOp(access, now) => RenewalOnlyNarrows(s, access, now);
    case EvictOp(now) => EvictionOnlyNarrows(s, now);
    case LookupOp(_, _) =>
    case _ => ClientsOnlyNarrow(pkce, s, op);
  }

  lemma ClientsOnlyNarrow(pkce: Pkce, s: Store, op: Op)
    requires op.RegisterOp? || op.CimdOp? || op.CodeOp?
    ensures Narrows(s, Apply(pkce, s, op).store)
  {
  }

  lemma RenewalOnlyNarrows(s: Store, access: string, now: Time)
    ensures Narrows(s, RenewToken(s, access, now).store)
  {
  }

  lemma EvictionOnlyNarrows(s: Store, now: Time)
    ensures Narrows(s, Evict(s, now).store)
  {
  }

  lemma ApplyExtends(pkce: Pkce, s: Store, op: Op, access: string, refresh: string)
    requires op.ExchangeOp? || op.RotateOp? ==> access == op.access && refresh == op.refresh
    ensures var s' := Apply(pkce, s, op).store;
      Extends(s.tokens, s'.tokens, s, op, access) && Extends(s.refresh, s'.refresh, s, op, refresh)
  {
    if op.RotateOp? {
      RotateExtends(pkce, s, op);
    } else if op.ExchangeOp? {
      ExchangeExtends(pkce, s, op);
    } else {
      OthersOnlyNarrow(pkce, s, op);
    }
  }

  // --- Families ---

  // Every reachable store: at most one refresh entry per family, none of them a
  // consumed one, and access tokens that end no later than it or have ended.
  lemma {:induction false} ReachableFamilies(pkce: Pkce, start: Time, ops: seq<Op>)
    requires AdmissibleRun(pkce, Initial(start), ops)
    ensures Families(Run(pkce, Initial(start), ops).store, Run(pkce, Initial(start), ops).clock)
    ensures Traceable(Run(pkce, Initial(start), ops))
  {
    RunKeepsInv(pkce, Initial(start), ops);
  }

  // --- Replay ---

  // The operation honours a token of family f.
  ghost predicate Serves(pkce: Pkce, w: World, op: Op, f: string) {
    match op
    case LookupOp(access, _) =>
      access in w.store.tokens && w.store.tokens[access].family == f && ReplyTo(pkce, w, op).Verified?
    case RenewOp(access, _) =>
      access in w.store.tokens && w.store.tokens[access].family == f && ReplyTo(pkce, w, op).Verified?
    case RotateOp(token, _, _, _, _, _, _, _) =>
      token in w.store.refresh && w.store.refresh[token].family == f && ReplyTo(pkce, w, op).Issued?
    case _ => false
  }

  ghost predicate NeverServed(pkce: Pkce, w: World, ops: seq<Op>, f: string)
    decreases |ops|
  {
    ops == [] || (!Serves(pkce, w, ops[0], f) && NeverServed(pkce, Step(pkce, w, ops[0]), ops[1..], f))
  }

  lemma ExtinctStays(pkce: Pkce, w: World, op: Op, f: string)
    requires Recorded(w) && Admissible(w, op) && f in w.origin && Extinct(w.store, f)
    ensures Extinct(Apply(pkce, w.store, op).store, f)
  {
    var s, s' := w.store, Apply(pkce, w.store, op).store;
    var access := if op.ExchangeOp? || op.RotateOp? then op.access else "";
    var refresh := if op.ExchangeOp? || op.RotateOp? then op.refresh else "";
    ApplyExtends(pkce, s, op, access, refresh);
    assert forall e :: Mints(s, op, e) ==> e.family != f by {
      assert op.ExchangeOp? ==> Draws(op)[0] == op.family;
    }
    ExtensionKeepsAbsent(s.tokens, s'.tokens, s, op, access, f);
    ExtensionKeepsAbsent(s.refresh, s'.refresh, s, op, refresh, f);
  }

  lemma ExtensionKeepsAbsent(m: map<string, Entry>, m': map<string, Entry>, s: Store, op: Op, name: string, f: string)
    requires Extends(m, m', s, op, name) && !HasFamily(m, f)
    requires forall e :: Mints(s, op, e) ==> e.family != f
    ensures !HasFamily(m', f)
  {
    forall a | a in m'
      ensures m'[a].family != f
    {
      if a in m { assert m[a].family != f; }
    }
  }

  lemma ExtinctIsNotServed(pkce: Pkce, w: World, op: Op, f: string)
    requires Extinct(w.store, f)
    ensures !Serves(pkce, w, op, f)
  {
  }

  lemma {:induction false} ExtinctIsForever(pkce: Pkce, w: World, ops: seq<Op>, f: string)
    requires Inv(w) && AdmissibleRun(pkce, w, ops) && f in w.origin && Extinct(w.store, f)
    ensures NeverServed(pkce, w, ops, f) && Extinct(Run(pkce, w, ops).store, f)
    decreases |ops|
  {
    if ops != [] {
      ExtinctStays(pkce, w, ops[0], f);
      ExtinctIsNotServed(pkce, w, ops[0], f);
      StepKeepsInv(pkce, w, ops[0]);
      ExtinctIsForever(pkce, Step(pkce, w, ops[0]), ops[1..], f);
    }
  }

  lemma ReplayRejected(pkce: Pkce, w: World, op: Op)
    requires Inv(w) && Admissible(w, op) && op.RotateOp? && op.token in w.rotated
    ensures ReplyTo(pkce, w, op).Rejected? && Extinct(Step(pkce, w, op).store, w.rotated[op.token])
  {
    assert op.token !in w.store.refresh;
  }

  lemma {:induction false} RotationIsRemembered(pkce: Pkce, w: World, ops: seq<Op>, token: string)
    requires Inv(w) && AdmissibleRun(pkce, w, ops) && token in w.rotated
    ensures token in Run(pkce, w, ops).rotated && Run(pkce, w, ops).rotated[token] == w.rotated[token]
    decreases |ops|
  {
    if ops != [] {
      StepKeepsInv(pkce, w, ops[0]);
      assert token !in w.store.refresh;
      RotationIsRemembered(pkce, Step(pkce, w, ops[0]), ops[1..], token);
    }
  }

  // Once a refresh token has been rotated, presenting it again at any later point
  // is refused, and from then on nothing of its family is ever honoured, whatever
  // ran in between or runs afterwards, evictions and renewals included.
  lemma {:induction false} ReplayKillsFamily(pkce: Pkce, w: World, rotation: Op, between: seq<Op>, replay: Op,
                                             rest: seq<Op>)
    requires Inv(w) && rotation.RotateOp? && ReplyTo(pkce, w, rotation).Issued?
    requires replay.RotateOp? && replay.token == rotation.token
    requires AdmissibleRun(pkce, w, [rotation] + (between + ([replay] + rest)))
    ensures
      var before := Run(pkce, w, [rotation] + between);
      && ReplyTo(pkce, before, replay).Rejected?
      && NeverServed(pkce, Step(pkce, before, replay), rest, w.store.refresh[rotation.token].family)
  {
    var f, after := w.store.refresh[rotation.token].family, Step(pkce, w, rotation);
    RunStarts(pkce, w, rotation, between + ([replay] + rest));
    RunStarts(pkce, w, rotation, between);
    RunSplits(pkce, after, between, [replay] + rest);
    var before := Run(pkce, after, between);
    RunStarts(pkce, before, replay, rest);
    StepKeepsInv(pkce, w, rotation);
    RotationIsRemembered(pkce, after, between, rotation.token);
    RunKeepsInv(pkce, after, between);
    ReplayEndsFamily(pkce, before, replay, rest, f);
  }

  lemma RunStarts(pkce: Pkce, w: World, op: Op, ops: seq<Op>)
    ensures Run(pkce, w, [op] + ops) == Run(pkce, Step(pkce, w, op), ops)
    ensures AdmissibleRun(pkce, w, [op] + ops) <==> Admissible(w, op) && AdmissibleRun(pkce, Step(pkce, w, op), ops)
  {
    assert ([op] + ops)[1..] == ops;
  }

  lemma ReplayEndsFamily(pkce: Pkce, w: World, replay: Op, rest: seq<Op>, f: string)
    requires Inv(w) && Admissible(w, replay) && AdmissibleRun(pkce, Step(pkce, w, replay), rest)
    requires replay.RotateOp? && replay.token in w.rotated && w.rotated[replay.token] == f
    ensures ReplyTo(pkce, w, replay).Rejected? && NeverServed(pkce, Step(pkce, w, replay), rest, f)
  {
    ReplayRejected(pkce, w, replay);
    StepKeepsInv(pkce, w, replay);
    ExtinctIsForever(pkce, Step(pkce, w, replay), rest, f);
  }

  // --- Origin ---

  // ops[i] is the exchange that started family f, for a code granted as g.
  ghost predicate StartedAt(pkce: Pkce, w: World, ops: seq<Op>, i: nat, f: string, g: Grant) {
    i < |ops| && Starts(Run(pkce, w, ops[..i]).store.codes, ops[i], f, g)
  }

  predicate Starts(codes: map<string, AuthCode>, op: Op, f: string, g: Grant) {
    op.ExchangeOp? && op.family == f && op.code in codes
    && var ac := codes[op.code];
       g == Grant(ac.client, ac.scope, ac.principal)
  }

  lemma NewOriginStarts(pkce: Pkce, w: World, op: Op, f: string)
    requires f in Step(pkce, w, op).origin
    requires !(f in w.origin && w.origin[f] == Step(pkce, w, op).origin[f])
    ensures Starts(w.store.codes, op, f, Step(pkce, w, op).origin[f])
  {
  }

  lemma {:induction false} OriginIsAnExchange(pkce: Pkce, w: World, ops: seq<Op>, f: string)
    requires f in Run(pkce, w, ops).origin && f !in w.origin
    ensures exists i: nat :: StartedAt(pkce, w, ops, i, f, Run(pkce, w, ops).origin[f])
    decreases |ops|
  {
    hide Step, Starts;
    var init, last := ops[..|ops| - 1], ops[|ops| - 1];
    assert ops == init + [last];
    RunSplits(pkce, w, init, [last]);
    var before := Run(pkce, w, init);
    assert Run(pkce, before, [last]) == Step(pkce, before, last);
    var g := Run(pkce, w, ops).origin[f];
    if f in before.origin && before.origin[f] == g {
      OriginIsAnExchange(pkce, w, init, f);
      var i: nat :| StartedAt(pkce, w, init, i, f, g);
      assert ops[..i] == init[..i];
      assert StartedAt(pkce, w, ops, i, f, g);
    } else {
      NewOriginStarts(pkce, before, last, f);
      assert StartedAt(pkce, w, ops, |ops| - 1, f, g);
    }
  }

  // Every outstanding access or refresh token carries the client, scope and
  // principal of the authorization code whose exchange started its family.
  lemma {:induction false} TokensKeepTheirOrigin(pkce: Pkce, start: Time, ops: seq<Op>, e: Entry)
    requires AdmissibleRun(pkce, Initial(start), ops)
    requires var s := Run(pkce, Initial(start), ops).store; e in s.tokens.Values || e in s.refresh.Values
    ensures exists i: nat :: StartedAt(pkce, Initial(start), ops, i, e.family, GrantOf(e))
  {
    var w := Run(pkce, Initial(start), ops);
    RunKeepsInv(pkce, Initial(start), ops);
    assert FromOrigin(w, e);
    OriginIsAnExchange(pkce, Initial(start), ops, e.family);
  }

  // --- Clients ---

  ghost predicate ClientsInv(s: Store) {
    |s.clients| <= 50 && forall c :: HoldsGrant(s, c) ==> c in s.clients
  }

  ghost predicate CodesForRegistered(pkce: Pkce, w: World, ops: seq<Op>)
    decreases |ops|
  {
    ops == [] || ((ops[0].CodeOp? ==> ops[0].client in w.store.clients)
                  && CodesForRegistered(pkce, Step(pkce, w, ops[0]), ops[1..]))
  }

  lemma RegistrationBounded(pkce: Pkce, s: Store, op: Op)
    requires (op.RegisterOp? || op.CimdOp?) && |s.clients| <= 50
    ensures |Apply(pkce, s, op).store.clients| <= 50
  {
    SubsetSize(Apply(pkce, s, op).store.clients.Keys, s.clients.Keys + {op.id});
    assert op.id in s.clients ==> s.clients.Keys + {op.id} == s.clients.Keys;
  }

  lemma ClientsBounded(pkce: Pkce, w: World, op: Op)
    requires |w.store.clients| <= 50
    ensures |Step(pkce, w, op).store.clients| <= 50
  {
    var c, c' := w.store.clients, Step(pkce, w, op).store.clients;
    if op.RegisterOp? || op.CimdOp? {
      RegistrationBounded(pkce, w.store, op);
    } else {
      NoNewClients(pkce, w.store, op);
      SubsetSize(c'.Keys, c.Keys);
    }
  }

  lemma NoNewClients(pkce: Pkce, s: Store, op: Op)
    requires !op.RegisterOp? && !op.CimdOp?
    ensures forall id :: id in Apply(pkce, s, op).store.clients ==> id in s.clients
  {
  }

  // A grant that outlives an operation was there before, or belongs to a client just touched.
  lemma GrantsStayRegistered(pkce: Pkce, s: Store, op: Op, c: string)
    requires !op.EvictOp? && HoldsGrant(Apply(pkce, s, op).store, c)
    ensures HoldsGrant(s, c) || (op.CodeOp? && op.client == c)
  {
    var s' := Apply(pkce, s, op).store;
    var access := if op.ExchangeOp? || op.RotateOp? then op.access else "";
    var refresh := if op.ExchangeOp? || op.RotateOp? then op.refresh else "";
    ApplyExtends(pkce, s, op, access, refresh);
    if k :| k in s'.codes && s'.codes[k].client == c {
      CodesComeFrom(pkce, s, op, k);
    } else if k :| k in s'.tokens && s'.tokens[k].client == c {
      HolderOfMinted(s, op, s'.tokens[k]);
    } else {
      var k :| k in s'.refresh && s'.refresh[k].client == c;
      HolderOfMinted(s, op, s'.refresh[k]);
    }
  }

  lemma CodesComeFrom(pkce: Pkce, s: Store, op: Op, k: string)
    requires k in Apply(pkce, s, op).store.codes
    ensures (k in s.codes && s.codes[k] == Apply(pkce, s, op).store.codes[k])
         || (op.CodeOp? && Apply(pkce, s, op).store.codes[k].client == op.client)
  {
  }

  lemma HolderOfMinted(s: Store, op: Op, e: Entry)
    requires Mints(s, op, e)
      || (exists k :: k in s.tokens && SameGrant(s.tokens[k], e))
      || (exists k :: k in s.refresh && SameGrant(s.refresh[k], e))
    ensures HoldsGrant(s, e.client)
  {
  }

  lemma ClientsKept(pkce: Pkce, s: Store, op: Op, c: string)
    requires !op.EvictOp? && c in s.clients
    ensures c in Apply(pkce, s, op).store.clients
  {
  }

  lemma EvictionSparesHolders(s: Store, now: Time, c: string)
    requires HoldsGrant(Evict(s, now).store, c) && (HoldsGrant(s, c) ==> c in s.clients)
    ensures c in Evict(s, now).store.clients
  {
    assert HoldsGrant(Swept(s, now), c);
  }

  // At most 50 clients are ever registered, whatever is called.
  lemma {:induction false} ClientsStayCapped(pkce: Pkce, w: World, ops: seq<Op>)
    requires |w.store.clients| <= 50
    ensures |Run(pkce, w, ops).store.clients| <= 50
    decreases |ops|
  {
    hide Step;
    if ops != [] {
      ClientsBounded(pkce, w, ops[0]);
      ClientsStayCapped(pkce, Step(pkce, w, ops[0]), ops[1..]);
    }
  }

  // If codes are created only for registered clients, no outstanding grant refers to an
  // evicted one.
  lemma {:induction false} ClientsStayConsistent(pkce: Pkce, w: World, ops: seq<Op>)
    requires ClientsInv(w.store) && CodesForRegistered(pkce, w, ops)
    ensures ClientsInv(Run(pkce, w, ops).store)
    decreases |ops|
  {
    if ops != [] {
      ClientsBounded(pkce, w, ops[0]);
      forall c | HoldsGrant(Step(pkce, w, ops[0]).store, c)
        ensures c in Step(pkce, w, ops[0]).store.clients
      {
        if ops[0].EvictOp? {
          EvictionSparesHolders(w.store, ops[0].now, c);
        } else {
          GrantsStayRegistered(pkce, w.store, ops[0], c);
          ClientsKept(pkce, w.store, ops[0], c);
        }
      }
      ClientsStayConsistent(pkce, Step(pkce, w, ops[0]), ops[1..]);
    }
  }

  // --- Token verification: lookup, policy, renewal, with anything in between ---

  lemma TokenIdentityIsStable(pkce: Pkce, w: World, op: Op, a: string)
    requires Admissible(w, op) && a in w.issued && a in Apply(pkce, w.store, op).store.tokens
    ensures a in w.store.tokens && SameGrant(w.store.tokens[a], Apply(pkce, w.store, op).store.tokens[a])
  {
    var minting := op.ExchangeOp? || op.RotateOp?;
    ApplyExtends(pkce, w.store, op, if minting then op.access else "", if minting then op.refresh else "");
    assert minting ==> op.access in Draws(op);
  }

  lemma {:induction false} TokenKeepsIdentity(pkce: Pkce, w: World, ops: seq<Op>, a: string)
    requires Inv(w) && AdmissibleRun(pkce, w, ops) && a in w.issued && a in Run(pkce, w, ops).store.tokens
    ensures a in w.store.tokens && SameGrant(w.store.tokens[a], Run(pkce, w, ops).store.tokens[a])
    decreases |ops|
  {
    if ops != [] {
      StepKeepsInv(pkce, w, ops[0]);
      TokenKeepsIdentity(pkce, Step(pkce, w, ops[0]), ops[1..], a);
      TokenIdentityIsStable(pkce, w, ops[0], a);
    }
  }

  // TokenVerifier makes two separate store calls. Over the in-memory store, whatever runs
  // between them, the session it accepts is the one whose principal the policy allowed.
  // RowVerifier has what becomes of this over the database.
  lemma {:induction false} VerifierAcceptsOnlyAllowed(pkce: Pkce, w: World, lookup: Op, policy: Principal -> bool,
                                   between: seq<Op>, renewal: Op)
    requires Inv(w) && AdmissibleRun(pkce, w, [lookup] + between + [renewal])
    requires lookup.LookupOp? && renewal.RenewOp? && renewal.access == lookup.access
    requires ReplyTo(pkce, w, lookup).Verified? && policy(ReplyTo(pkce, w, lookup).entry.principal)
    requires ReplyTo(pkce, Run(pkce, w, [lookup] + between), renewal).Verified?
    ensures
      var accepted := ReplyTo(pkce, Run(pkce, w, [lookup] + between), renewal).entry;
      && policy(accepted.principal)
      && SameGrant(ReplyTo(pkce, w, lookup).entry, accepted)
      && accepted.expiresAt == renewal.now + TOKEN_IDLE_TTL
  {
    RunSplits(pkce, w, [lookup] + between, [renewal]);
    TokenKeepsIdentity(pkce, w, [lookup] + between, lookup.access);
  }
}
