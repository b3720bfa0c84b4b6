// The in-memory store a set of PostgreSQL rows stands for, and how each transaction
// looks through it: as the operation of the same name in Grants.
module Recovered {
  import opened Grants
  import opened GrantRuns
  import opened Eviction
  import P = PostgresGrants

  // --- Principals by identity only ---

  function Anonymous(p: Principal): Principal {
    Principal(p.provider, p.subject, "", false)
  }

  function AnonEntry(e: Entry): Entry {
    e.(principal := Anonymous(e.principal))
  }

  function AnonReply(r: Reply): Reply {
    if r.Verified? then Verified(AnonEntry(r.entry)) else r
  }

  function Named(i: P.Identity): Principal {
    Principal(i.provider, i.subject, "", false)
  }

  // --- The store behind the rows ---

  predicate Active(families: map<string, P.FamilyRow>, f: string) {
    f in families && families[f].revokedAt.None?
  }

  function EntryFor(families: map<string, P.FamilyRow>, f: string, expiresAt: Time): Entry
    requires f in families
  {
    Entry(families[f].client, families[f].scope, expiresAt, f, Named(families[f].identity))
  }

  function Codes(rows: map<string, P.CodeRow>): map<string, AuthCode> {
    map c | c in rows :: AuthCode(rows[c].client, rows[c].redirect, rows[c].challenge, rows[c].scope,
                                  rows[c].expiresAt, Named(rows[c].identity))
  }

  function Tokens(families: map<string, P.FamilyRow>, rows: map<string, P.AccessRow>): map<string, Entry> {
    map a | a in rows && Active(families, rows[a].family) :: EntryFor(families, rows[a].family, rows[a].expiresAt)
  }

  function Refreshes(families: map<string, P.FamilyRow>, rows: map<string, P.RefreshRow>): map<string, Entry> {
    map r | r in rows && rows[r].consumedAt.None? && Active(families, rows[r].family) ::
      EntryFor(families, rows[r].family, rows[r].expiresAt)
  }

  function Replays(families: map<string, P.FamilyRow>, rows: map<string, P.RefreshRow>): map<string, string> {
    map r | r in rows && rows[r].consumedAt.Some? && Active(families, rows[r].family) :: rows[r].family
  }

  function Recover(db: P.Tables): Store {
    Store(map[], Codes(db.codes), Tokens(db.families, db.access),
          Refreshes(db.families, db.refresh), Replays(db.families, db.refresh))
  }

  predicate SameGrants(s: Store, s': Store) {
    s.codes == s'.codes && SameTokens(s, s')
  }

  lemma SameGrantsAgree(s: Store, s': Store, t: Time)
    requires SameGrants(s, s')
    ensures Agree(s, s', t)
  {
  }

  // --- The rows' own invariant ---

  ghost predicate IsCurrent(families: map<string, P.FamilyRow>, rows: map<string, P.RefreshRow>, f: string, r: string) {
    r in rows && rows[r].family == f && rows[r].consumedAt.None?
    && f in families && rows[r].expiresAt == families[f].expiresAt
  }

  ghost predicate Current(families: map<string, P.FamilyRow>, rows: map<string, P.RefreshRow>, f: string) {
    exists r :: IsCurrent(families, rows, f, r)
  }

  ghost predicate Unconsumed(rows: map<string, P.RefreshRow>, r: string) {
    r in rows && rows[r].consumedAt.None?
  }

  ghost predicate Alone(rows: map<string, P.RefreshRow>) {
    forall r, q :: Unconsumed(rows, r) && Unconsumed(rows, q) && rows[r].family == rows[q].family ==> r == q
  }

  // Every family has exactly one unconsumed refresh row, which expires with it.
  ghost predicate OneCurrent(families: map<string, P.FamilyRow>, rows: map<string, P.RefreshRow>) {
    && (forall f :: f in families ==> Current(families, rows, f))
    && (forall r :: Unconsumed(rows, r) ==> IsCurrent(families, rows, rows[r].family, r))
    && Alone(rows)
  }

  // Foreign keys.
  ghost predicate Linked(db: P.Tables) {
    && (forall f :: f in db.families ==> P.Joined(db, f) && db.families[f].client in db.clients)
    && (forall a :: a in db.access ==> db.access[a].family in db.families)
    && (forall r :: r in db.refresh ==> db.refresh[r].family in db.families)
    && (forall c :: c in db.codes ==> db.codes[c].client in db.clients && db.codes[c].identity in db.identities)
  }

  ghost predicate Capped(db: P.Tables, t: Time) {
    && (forall a :: a in db.access && db.access[a].family in db.families ==>
      db.access[a].expiresAt <= db.families[db.access[a].family].expiresAt)
    && (forall f :: f in db.families ==> db.families[f].expiresAt <= t + TOKEN_IDLE_TTL)
  }

  ghost predicate Consistent(db: P.Tables, t: Time) {
    Linked(db) && OneCurrent(db.families, db.refresh) && Capped(db, t)
  }

  lemma ConsistentLater(db: P.Tables, t: Time, now: Time)
    requires Consistent(db, t) && t <= now
    ensures Consistent(db, now)
  {
  }

  lemma RecoveredFamilies(db: P.Tables, t: Time)
    requires Consistent(db, t)
    ensures Families(Recover(db), t)
  {
    var s := Recover(db);
    RecoveredOneRefresh(db, t);
    forall a | a in s.tokens
      ensures Covered(s.refresh, s.tokens[a], t)
    {
      RecoveredCovered(db, s.tokens[a], t);
    }
  }

  lemma RecoveredOneRefresh(db: P.Tables, t: Time)
    requires OneCurrent(db.families, db.refresh) && Capped(db, t)
    ensures OneRefresh(Recover(db), t)
  {
    var s := Recover(db);
    forall r | r in s.refresh
      ensures Unconsumed(db.refresh, r) && IsCurrent(db.families, db.refresh, s.refresh[r].family, r)
    {
      assert Unconsumed(db.refresh, r);
    }
  }

  lemma RecoveredCovered(db: P.Tables, e: Entry, t: Time)
    requires OneCurrent(db.families, db.refresh) && Active(db.families, e.family)
      && e.expiresAt <= db.families[e.family].expiresAt
    ensures Covered(Refreshes(db.families, db.refresh), e, t)
  {
    var m := Refreshes(db.families, db.refresh);
    var r :| IsCurrent(db.families, db.refresh, e.family, r);
    assert m[r].family == e.family;
    forall q | q in m && m[q].family == e.family
      ensures e.expiresAt <= m[q].expiresAt
    {
      assert Unconsumed(db.refresh, q) && IsCurrent(db.families, db.refresh, e.family, q);
    }
  }

  // No row of the presented kind expires exactly at the reading.
  predicate OffBoundary(db: P.Tables, now: Time) {
    && (forall c :: c in db.codes ==> db.codes[c].expiresAt != now)
    && (forall a :: a in db.access ==> db.access[a].expiresAt != now)
    && (forall f :: f in db.families ==> db.families[f].expiresAt != now)
  }

  // --- Each transaction, seen through Recover ---

  // Off the boundary, the memory store honours exactly the tokens the rows honour.
  lemma LiveTokenSeen(db: P.Tables, k: string, now: Time)
    requires Consistent(db, now) && OffBoundary(db, now)
    ensures
      var tokens := Recover(db).tokens;
      (k in tokens && now <= tokens[k].expiresAt)
        <==> (k in db.access && P.Usable(db, db.access[k].family, now) && db.access[k].expiresAt > now)
  {
    if k in db.access { assert P.Joined(db, db.access[k].family); }
  }

  lemma LookupSeen(db: P.Tables, k: string, now: Time)
    requires Consistent(db, now) && OffBoundary(db, now)
    ensures AnonReply(LookupToken(Recover(db), k, now).reply) == AnonReply(P.LookupToken(db, k, now).reply)
  {
    LiveTokenSeen(db, k, now);
  }

  lemma RenewRepliesSeen(db: P.Tables, k: string, now: Time)
    requires Consistent(db, now) && OffBoundary(db, now)
    ensures AnonReply(RenewToken(Recover(db), k, now).reply) == AnonReply(P.RenewToken(db, k, now).reply)
  {
    LiveTokenSeen(db, k, now);
  }

  lemma RenewSeen(db: P.Tables, k: string, now: Time)
    requires Linked(db) && OneCurrent(db.families, db.refresh)
    requires P.RenewToken(db, k, now).reply.Verified? && RenewToken(Recover(db), k, now).reply.Verified?
    ensures SameGrants(RenewToken(Recover(db), k, now).store, Recover(P.RenewToken(db, k, now).db))
  {
    RenewedTokens(db, k, now);
    RenewedRefreshes(db, db.access[k].family, now);
  }

  lemma RenewedTokens(db: P.Tables, k: string, now: Time)
    requires Linked(db) && P.RenewToken(db, k, now).reply.Verified?
    ensures
      var db' := P.RenewToken(db, k, now).db;
      Tokens(db'.families, db'.access)
        == Tokens(db.families, db.access)[k := EntryFor(db.families, db.access[k].family, now + TOKEN_IDLE_TTL)]
  {
  }

  lemma RenewedRefreshes(db: P.Tables, f: string, now: Time)
    requires OneCurrent(db.families, db.refresh) && Active(db.families, f) && db.families[f].expiresAt > now
    ensures
      var families := db.families[f := db.families[f].(expiresAt := now + TOKEN_IDLE_TTL)];
      && Refreshes(families, P.SlideRows(db.refresh, f, now))
        == SlideRefresh(Refreshes(db.families, db.refresh), f, now)
      && Replays(families, P.SlideRows(db.refresh, f, now)) == Replays(db.families, db.refresh)
  {
    forall r | r in db.refresh && db.refresh[r].family == f && db.refresh[r].consumedAt.None?
      ensures db.refresh[r].expiresAt > now
    {
      assert Unconsumed(db.refresh, r) && IsCurrent(db.families, db.refresh, f, r);
    }
    var families := db.families[f := db.families[f].(expiresAt := now + TOKEN_IDLE_TTL)];
    SlidRefreshes(db.families, families, db.refresh, f, now);
    SlidReplays(db.families, families, db.refresh, f, now);
  }

  lemma SlidRefreshes(families: map<string, P.FamilyRow>, families': map<string, P.FamilyRow>,
                      rows: map<string, P.RefreshRow>, f: string, now: Time)
    requires Active(families, f) && families' == families[f := families[f].(expiresAt := now + TOKEN_IDLE_TTL)]
    requires forall r :: r in rows && rows[r].family == f && rows[r].consumedAt.None? ==> rows[r].expiresAt > now
    ensures Refreshes(families', P.SlideRows(rows, f, now)) == SlideRefresh(Refreshes(families, rows), f, now)
  {
  }

  lemma SlidReplays(families: map<string, P.FamilyRow>, families': map<string, P.FamilyRow>,
                    rows: map<string, P.RefreshRow>, f: string, now: Time)
    requires Active(families, f) && families' == families[f := families[f].(expiresAt := now + TOKEN_IDLE_TTL)]
    ensures Replays(families', P.SlideRows(rows, f, now)) == Replays(families, rows)
  {
  }

  // A new family's name occurs in no row; an existing one only gets a later expiry.
  ghost predicate Insertable(db: P.Tables, f: string, row: P.FamilyRow) {
    row.revokedAt.None?
    && (if f in db.families then row == db.families[f].(expiresAt := row.expiresAt)
        else NoRows(db, f))
  }

  ghost predicate NoRows(db: P.Tables, f: string) {
    && (forall a :: a in db.access ==> db.access[a].family != f)
    && (forall r :: r in db.refresh ==> db.refresh[r].family != f)
  }

  lemma InsertedTokens(db: P.Tables, f: string, row: P.FamilyRow, access: string)
    requires Insertable(db, f, row)
    ensures Tokens(db.families[f := row], db.access[access := P.AccessRow(f, row.expiresAt)])
         == Tokens(db.families, db.access)[access := EntryFor(map[f := row], f, row.expiresAt)]
  {
  }

  lemma InsertedRefreshes(db: P.Tables, f: string, row: P.FamilyRow, refresh: string)
    requires Insertable(db, f, row)
    ensures Refreshes(db.families[f := row], db.refresh[refresh := P.RefreshRow(f, row.expiresAt, None)])
         == Refreshes(db.families, db.refresh)[refresh := EntryFor(map[f := row], f, row.expiresAt)]
  {
  }

  lemma InsertedReplays(db: P.Tables, f: string, row: P.FamilyRow, refresh: string)
    requires Insertable(db, f, row) && refresh !in db.refresh
    ensures Replays(db.families[f := row], db.refresh[refresh := P.RefreshRow(f, row.expiresAt, None)])
         == Replays(db.families, db.refresh)
  {
  }

  lemma InsertedSeen(db: P.Tables, f: string, row: P.FamilyRow, access: string, refresh: string, now: Time)
    requires Insertable(db, f, row) && refresh !in db.refresh
    requires row.expiresAt == now + TOKEN_IDLE_TTL
    ensures SameGrants(MintPair(Recover(db), Entry(row.client, row.scope, now, f, Named(row.identity)), access, refresh,
                                now),
                       Recover(P.InsertTokenPair(db, f, row, access, refresh, now)))
  {
    InsertedTokens(db, f, row, access);
    InsertedRefreshes(db, f, row, refresh);
    InsertedReplays(db, f, row, refresh);
  }

  lemma ExchangeSeen(pkce: Pkce, db: P.Tables, code: string, client: string, redirect: string, verifier: string,
                     now: Time, family: string, access: string, refresh: string)
    requires Linked(db) && OffBoundary(db, now)
    requires family !in db.families && refresh !in db.refresh
    ensures
      var m := ExchangeCode(pkce, Recover(db), code, client, redirect, verifier, now, now, family, access, refresh);
      var p := P.ExchangeCode(pkce, db, code, client, redirect, verifier, now, family, access, refresh);
      m.reply == p.reply && SameGrants(m.store, Recover(p.db))
  {
    hide Refreshes, Replays, Tokens, P.InsertTokenPair, MintPair;
    var burned := db.(codes := Delete(db.codes, code));
    assert Codes(burned.codes) == Delete(Codes(db.codes), code);
    if P.ExchangeCode(pkce, db, code, client, redirect, verifier, now, family, access, refresh).reply.Issued? {
      var row := db.codes[code];
      InsertedSeen(burned, family, P.FamilyRow(row.identity, client, row.scope, now + TOKEN_IDLE_TTL, None),
                   access, refresh, now);
      assert Recover(burned) == Recover(db).(codes := Delete(Codes(db.codes), code));
    }
  }

  lemma CreateSeen(db: P.Tables, email: Option<string>, code: string, client: string, redirect: string,
                   challenge: string, scope: seq<string>, principal: Principal, now: Time)
    requires P.CodeFits(db, code, client, challenge, "S256", principal)
    ensures
      var m := CreateCode(Recover(db), code, client, redirect, challenge, scope, Anonymous(principal), now);
      var p := P.CreateCode(db, email, code, client, redirect, challenge, "S256", scope, principal, now);
      m.reply == p.reply && SameGrants(m.store, Recover(p.db))
  {
    hide Refreshes, Replays, Tokens;
  }

  // --- Rotation ---

  lemma SpentSeen(db: P.Tables, token: string, now: Time)
    requires token in db.refresh && db.refresh[token].consumedAt.None? && Active(db.families, db.refresh[token].family)
    ensures
      var row := db.refresh[token];
      var spent := db.(refresh := db.refresh[token := row.(consumedAt := Some(now))]);
      && Refreshes(db.families, spent.refresh) == Delete(Refreshes(db.families, db.refresh), token)
      && Replays(db.families, spent.refresh) == Replays(db.families, db.refresh)[token := row.family]
  {
  }

  lemma RevokeSeen(db: P.Tables, f: string, now: Time)
    requires f in db.families
    ensures SameGrants(RevokeFamily(Recover(db), f), Recover(P.Revoke(db, f, now)))
  {
    var families := P.Revoke(db, f, now).families;
    assert forall g :: Active(families, g) <==> g != f && Active(db.families, g);
    DeactivatedTokens(db.families, families, db.access, f);
    DeactivatedRefreshes(db.families, families, db.refresh, f);
  }

  lemma DeactivatedTokens(families: map<string, P.FamilyRow>, families': map<string, P.FamilyRow>,
                          rows: map<string, P.AccessRow>, f: string)
    requires forall g :: Active(families', g) <==> g != f && Active(families, g)
    requires forall g :: g in families && g != f ==> g in families' && families'[g] == families[g]
    ensures Tokens(families', rows) == WithoutFamily(Tokens(families, rows), f)
  {
  }

  lemma DeactivatedRefreshes(families: map<string, P.FamilyRow>, families': map<string, P.FamilyRow>,
                             rows: map<string, P.RefreshRow>, f: string)
    requires forall g :: Active(families', g) <==> g != f && Active(families, g)
    requires forall g :: g in families && g != f ==> g in families' && families'[g] == families[g]
    ensures Refreshes(families', rows) == WithoutFamily(Refreshes(families, rows), f)
    ensures Replays(families', rows) == map k | k in Replays(families, rows)
      && Replays(families, rows)[k] != f :: Replays(families, rows)[k]
  {
  }

  ghost predicate ByIdentity(policy: Principal -> bool) {
    forall p :: policy(p) == policy(Anonymous(p))
  }

  lemma RotateIssuedSeen(db: P.Tables, token: string, client: string, policy: Principal -> bool,
                         now: Time, access: string, refresh: string)
    requires refresh !in db.refresh
    requires P.RotateRefresh(db, token, client, policy, now, access, refresh).reply.Issued?
    requires RotateRefresh(Recover(db), token, client, policy, now, now, now, access, refresh).reply.Issued?
    ensures SameGrants(RotateRefresh(Recover(db), token, client, policy, now, now, now, access, refresh).store,
                       Recover(P.RotateRefresh(db, token, client, policy, now, access, refresh).db))
  {
    var row := db.refresh[token];
    var f := db.families[row.family];
    var spent := db.(refresh := db.refresh[token := row.(consumedAt := Some(now))]);
    SpentSeen(db, token, now);
    assert Recover(spent) == Recover(db).(refresh := Delete(Refreshes(db.families, db.refresh), token),
                                          consumed := Replays(db.families, db.refresh)[token := row.family]);
    InsertedSeen(spent, row.family, f.(expiresAt := now + TOKEN_IDLE_TTL), access, refresh, now);
  }

  lemma RotateRepliesSeen(db: P.Tables, token: string, client: string, policy: Principal -> bool,
                          now: Time, access: string, refresh: string)
    requires Consistent(db, now) && OffBoundary(db, now) && ByIdentity(policy)
    ensures RotateRefresh(Recover(db), token, client, policy, now, now, now, access, refresh).reply
         == P.RotateRefresh(db, token, client, policy, now, access, refresh).reply
  {
    if token in db.refresh {
      var row := db.refresh[token];
      assert P.Joined(db, row.family);
      var f := db.families[row.family];
      assert Anonymous(P.PrincipalOf(f.identity, db.identities[f.identity])) == Named(f.identity);
      if Unconsumed(db.refresh, token) { assert IsCurrent(db.families, db.refresh, row.family, token); }
    }
  }

  // A consumed token of a family still alive, presented by some other client.
  predicate ForeignReplay(db: P.Tables, token: string, client: string, now: Time) {
    token in db.refresh && db.refresh[token].consumedAt.Some? && Active(db.families, db.refresh[token].family)
    && db.families[db.refresh[token].family].expiresAt > now && db.families[db.refresh[token].family].client != client
  }

  lemma DeadFamilySeen(db: P.Tables, f: string, now: Time)
    requires OneCurrent(db.families, db.refresh) && OffBoundary(db, now) && f in db.families
      && db.families[f].expiresAt <= now
    ensures !LiveFamily(Refreshes(db.families, db.refresh), f, now)
  {
    var m := Refreshes(db.families, db.refresh);
    forall r | r in m && m[r].family == f
      ensures m[r].expiresAt < now
    {
      assert Unconsumed(db.refresh, r) && IsCurrent(db.families, db.refresh, f, r);
    }
  }

  // A refused rotation, seen through Recover: the replay of a live family's token
  // by its own client revokes it; nothing else changes what is alive.
  lemma RotateRejectedSeen(db: P.Tables, token: string, client: string, policy: Principal -> bool,
                           now: Time, access: string, refresh: string)
    requires Consistent(db, now) && OffBoundary(db, now) && ByIdentity(policy)
    requires P.RotateRefresh(db, token, client, policy, now, access, refresh).reply == Rejected
    requires !ForeignReplay(db, token, client, now)
    ensures Agree(RotateRefresh(Recover(db), token, client, policy, now, now, now, access, refresh).store,
                  Recover(P.RotateRefresh(db, token, client, policy, now, access, refresh).db), now)
  {
    if token in db.refresh && db.refresh[token].consumedAt.Some? {
      ReplaySeen(db, token, client, policy, now, access, refresh);
    } else {
      RotateRepliesSeen(db, token, client, policy, now, access, refresh);
      assert P.RotateRefresh(db, token, client, policy, now, access, refresh).db == db;
      RefusalSeen(Recover(db), token, client, policy, now, access, refresh);
    }
  }

  lemma RefusalSeen(s: Store, token: string, client: string, policy: Principal -> bool,
                    now: Time, access: string, refresh: string)
    requires token !in s.consumed
      && RotateRefresh(s, token, client, policy, now, now, now, access, refresh).reply == Rejected
    ensures Agree(RotateRefresh(s, token, client, policy, now, now, now, access, refresh).store, s, now)
  {
    SameGrantsAgree(s, s, now);
    DeletedWithin(s, s, token, now);
  }

  lemma ReplayOutcomes(db: P.Tables, token: string, client: string, policy: Principal -> bool,
                       now: Time, access: string, refresh: string)
    requires token in db.refresh && db.refresh[token].consumedAt.Some? && P.Joined(db, db.refresh[token].family)
    ensures
      var s, f := Recover(db), db.refresh[token].family;
      && RotateRefresh(s, token, client, policy, now, now, now, access, refresh).store
         == (if Active(db.families, f) then RevokeFamily(s, f) else s)
      && P.RotateRefresh(db, token, client, policy, now, access, refresh).db
         == (if db.families[f].client == client then P.Revoke(db, f, now) else db)
  {
    hide RevokeFamily, P.Revoke;
  }

  lemma ReplaySeen(db: P.Tables, token: string, client: string, policy: Principal -> bool,
                   now: Time, access: string, refresh: string)
    requires Consistent(db, now) && OffBoundary(db, now) && !ForeignReplay(db, token, client, now)
    requires token in db.refresh && db.refresh[token].consumedAt.Some?
    ensures Agree(RotateRefresh(Recover(db), token, client, policy, now, now, now, access, refresh).store,
                  Recover(P.RotateRefresh(db, token, client, policy, now, access, refresh).db), now)
  {
    var s, f := Recover(db), db.refresh[token].family;
    assert P.Joined(db, f);
    hide Linked, OneCurrent, Capped, OffBoundary, Agree, SameGrants, Recover;
    hide RevokeFamily, P.Revoke, RotateRefresh, P.RotateRefresh;
    ReplayOutcomes(db, token, client, policy, now, access, refresh);
    SameGrantsAgree(s, s, now);
    if !Active(db.families, f) {
      InactiveRevokeSeen(db, f, now);
      SameGrantsAgree(s, Recover(P.Revoke(db, f, now)), now);
    } else if db.families[f].client == client {
      RevokeSeen(db, f, now);
      SameGrantsAgree(RevokeFamily(s, f), Recover(P.Revoke(db, f, now)), now);
    } else {
      ForeignDeadReplaySeen(db, f, now);
    }
  }

  lemma ForeignDeadReplaySeen(db: P.Tables, f: string, now: Time)
    requires Consistent(db, now) && OffBoundary(db, now) && f in db.families && db.families[f].expiresAt <= now
    ensures Agree(RevokeFamily(Recover(db), f), Recover(db), now)
  {
    var s := Recover(db);
    DeadFamilySeen(db, f, now);
    RecoveredFamilies(db, now);
    forall a | a in s.tokens && s.tokens[a].family == f
      ensures s.tokens[a].expiresAt < now
    {
      assert Covered(s.refresh, s.tokens[a], now);
    }
    RevokedDeadAgrees(s, f, now);
  }

  lemma InactiveRevokeSeen(db: P.Tables, f: string, now: Time)
    requires f in db.families && !Active(db.families, f)
    ensures P.Revoke(db, f, now).(families := db.families) == db
    ensures Recover(P.Revoke(db, f, now)) == Recover(db)
  {
    assert P.Revoke(db, f, now).families == db.families;
  }

  // --- Eviction ---

  lemma SweepSeen(db: P.Tables, now: Time)
    requires Consistent(db, now) && OffBoundary(db, now)
    ensures Agree(Recover(db), Recover(P.SweepRows(db, now)), now)
  {
    var db' := P.SweepRows(db, now);
    SweepSweeps(db, now);
    SweptTokens(db, db', now);
    SweptRefreshes(db, db', now);
    SweptReplays(db, db', now);
  }

  // The rows a sweep keeps of each table.
  ghost predicate Sweeps(db: P.Tables, db': P.Tables, now: Time) {
    && (forall f :: f in db'.families <==> f in db.families && db.families[f].expiresAt > now)
    && (forall f :: f in db'.families ==> db'.families[f] == db.families[f])
    && (forall a :: a in db'.access <==>
          a in db.access && db.access[a].expiresAt > now && db.access[a].family in db'.families)
    && (forall a :: a in db'.access ==> db'.access[a] == db.access[a])
    && (forall r :: r in db'.refresh <==> r in db.refresh && db.refresh[r].family in db'.families)
    && (forall r :: r in db'.refresh ==> db'.refresh[r] == db.refresh[r])
  }

  lemma SweepSweeps(db: P.Tables, now: Time)
    ensures Sweeps(db, P.SweepRows(db, now), now)
    ensures OffBoundary(db, now) ==> KeptCodes(Codes(db.codes), Codes(P.SweepRows(db, now).codes), now)
    ensures KeptCodes(Codes(P.SweepRows(db, now).codes), Codes(db.codes), now)
  {
    var db' := P.SweepRows(db, now);
    assert forall f :: f in db'.families <==> f in db.families && db.families[f].expiresAt > now;
  }

  lemma SweptTokens(db: P.Tables, db': P.Tables, now: Time)
    requires Sweeps(db, db', now) && Capped(db, now) && OffBoundary(db, now)
    ensures Kept(Tokens(db.families, db.access), Tokens(db'.families, db'.access), now)
    ensures Kept(Tokens(db'.families, db'.access), Tokens(db.families, db.access), now)
  {
  }

  lemma CurrentOutlives(db: P.Tables, r: string, now: Time)
    requires OneCurrent(db.families, db.refresh) && OffBoundary(db, now) && Unconsumed(db.refresh, r)
      && db.refresh[r].expiresAt >= now
    ensures db.refresh[r].family in db.families && db.families[db.refresh[r].family].expiresAt > now
  {
    assert IsCurrent(db.families, db.refresh, db.refresh[r].family, r);
  }

  lemma SweptRefreshes(db: P.Tables, db': P.Tables, now: Time)
    requires Sweeps(db, db', now) && OneCurrent(db.families, db.refresh) && OffBoundary(db, now)
    ensures Kept(Refreshes(db.families, db.refresh), Refreshes(db'.families, db'.refresh), now)
    ensures Kept(Refreshes(db'.families, db'.refresh), Refreshes(db.families, db.refresh), now)
  {
    var m, m' := Refreshes(db.families, db.refresh), Refreshes(db'.families, db'.refresh);
    forall r | r in m && m[r].expiresAt >= now
      ensures r in m' && m'[r] == m[r]
    {
      CurrentOutlives(db, r, now);
    }
  }

  lemma SweptReplays(db: P.Tables, db': P.Tables, now: Time)
    requires Sweeps(db, db', now) && OneCurrent(db.families, db.refresh) && OffBoundary(db, now)
    ensures KeptReplays(Refreshes(db.families, db.refresh), Replays(db.families, db.refresh),
                        Replays(db'.families, db'.refresh), now)
    ensures KeptReplays(Refreshes(db'.families, db'.refresh), Replays(db'.families, db'.refresh),
                        Replays(db.families, db.refresh), now)
  {
    var m := Refreshes(db.families, db.refresh);
    forall k | k in Replays(db.families, db.refresh) && LiveFamily(m, Replays(db.families, db.refresh)[k], now)
      ensures k in Replays(db'.families, db'.refresh)
    {
      var r :| r in m && m[r].family == Replays(db.families, db.refresh)[k] && m[r].expiresAt >= now;
      CurrentOutlives(db, r, now);
    }
  }

  // What goes with an idle client after the sweep is nothing alive.
  lemma IdleHaveNothing(db: P.Tables, now: Time, gone: set<string>)
    requires forall f :: f in db.families ==> db.families[f].expiresAt > now
    requires forall id :: id in gone ==> P.Idle(db, id, now)
    ensures forall c :: c in db.codes ==> db.codes[c].client !in gone
    ensures forall f :: Active(db.families, f) ==> db.families[f].client !in gone
  {
  }

  lemma DropSeen(db: P.Tables, now: Time)
    requires Linked(db) && forall f :: f in db.families ==> db.families[f].expiresAt > now
    ensures SameGrants(Recover(db), Recover(P.DropIdleClients(db, now)))
  {
    var db' := P.DropIdleClients(db, now);
    var gone := set id | id in db.clients && P.Idle(db, id, now);
    IdleHaveNothing(db, now, gone);
    hide P.Idle, Linked, Refreshes, Replays, Tokens;
    assert db'.codes == db.codes;
    DroppedInactive(db.families, db'.families, db.access, db'.access, db.refresh, db'.refresh);
  }

  lemma DroppedInactive(families: map<string, P.FamilyRow>, families': map<string, P.FamilyRow>,
                        access: map<string, P.AccessRow>, access': map<string, P.AccessRow>,
                        refresh: map<string, P.RefreshRow>, refresh': map<string, P.RefreshRow>)
    requires forall f :: f in families' ==> f in families && families'[f] == families[f]
    requires forall f :: Active(families, f) ==> f in families'
    requires forall a :: a in access' ==> a in access && access'[a] == access[a]
    requires forall a :: a in access && access[a].family in families' ==> a in access'
    requires forall r :: r in refresh' ==> r in refresh && refresh'[r] == refresh[r]
    requires forall r :: r in refresh && refresh[r].family in families' ==> r in refresh'
    ensures Tokens(families', access') == Tokens(families, access)
    ensures Refreshes(families', refresh') == Refreshes(families, refresh)
    ensures Replays(families', refresh') == Replays(families, refresh)
  {
  }
}
