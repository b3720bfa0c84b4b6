// How long things last in both stores, with the readings written out: what an eviction
// takes and what it leaves, and that issued tokens live as long as the reply says.
module Expiry {
  import opened Grants
  import opened GrantRuns
  import Simulation
  import P = PostgresGrants

  const DAY: int := 24 * 3600 * 1_000_000_000

  // --- The rows ---

  // A client that nobody registered by hand, unused for more than a day, with no code
  // that lasts and no family in force.
  ghost predicate IdleRow(db: P.Tables, id: string, now: Time) {
    && id in db.clients && !db.clients[id].isStatic && db.clients[id].lastActivity + DAY < now
    && (forall c :: c in db.codes && db.codes[c].expiresAt > now ==> db.codes[c].client != id)
    && (forall f :: f in db.families && db.families[f].expiresAt > now && db.families[f].revokedAt.None? ==>
          db.families[f].client != id)
  }

  // A family that has not expired and whose client stays.
  ghost predicate FamilyStays(db: P.Tables, f: string, now: Time) {
    f in db.families && db.families[f].expiresAt > now && !IdleRow(db, db.families[f].client, now)
  }

  lemma SweptIdle(db: P.Tables, id: string, now: Time)
    ensures P.Idle(P.SweepRows(db, now), id, now) <==> IdleRow(db, id, now)
  {
    var swept := P.SweepRows(db, now);
    assert forall c :: c in db.codes && db.codes[c].expiresAt > now <==> c in swept.codes;
    assert forall f :: f in db.families && db.families[f].expiresAt > now <==> f in swept.families;
    assert swept.clients == db.clients;
  }

  lemma DroppedRows(swept: P.Tables, now: Time)
    ensures var after := P.DropIdleClients(swept, now);
            && after.clients == (map id | id in swept.clients && !P.Idle(swept, id, now) :: swept.clients[id])
            && after.codes == (map c | c in swept.codes && !P.Idle(swept, swept.codes[c].client, now) :: swept.codes[c])
            && after.families
               == (map f | f in swept.families && !P.Idle(swept, swept.families[f].client, now) :: swept.families[f])
            && after.access
               == (map a | a in swept.access && swept.access[a].family in after.families :: swept.access[a])
            && after.refresh
               == (map r | r in swept.refresh && swept.refresh[r].family in after.families :: swept.refresh[r])
            && after.identities == swept.identities
  {
    assert forall id :: P.Idle(swept, id, now) ==> id in swept.clients;
    hide P.Idle;
  }

  lemma EvictedClients(db: P.Tables, now: Time)
    ensures var after := P.EvictExpired(db, now);
            && after.clients == (map id | id in db.clients && !IdleRow(db, id, now) :: db.clients[id])
            && after.codes
               == (map c | c in db.codes && db.codes[c].expiresAt > now && !IdleRow(db, db.codes[c].client, now) ::
                     db.codes[c])
            && after.identities == db.identities
  {
    var swept := P.SweepRows(db, now);
    forall id ensures P.Idle(swept, id, now) <==> IdleRow(db, id, now) { SweptIdle(db, id, now); }
    DroppedRows(swept, now);
    SweptRows(db, now);
    hide P.Idle, IdleRow, P.SweepRows, P.DropIdleClients;
  }

  lemma EvictedFamilies(db: P.Tables, now: Time)
    ensures P.EvictExpired(db, now).families
         == (map f | f in db.families && FamilyStays(db, f, now) :: db.families[f])
  {
    var swept := P.SweepRows(db, now);
    forall id ensures P.Idle(swept, id, now) <==> IdleRow(db, id, now) { SweptIdle(db, id, now); }
    DroppedRows(swept, now);
    SweptRows(db, now);
    hide P.Idle, IdleRow, P.SweepRows, P.DropIdleClients;
  }

  lemma EvictedTokens(db: P.Tables, now: Time)
    ensures var after := P.EvictExpired(db, now);
            && after.access
               == (map a | a in db.access && db.access[a].expiresAt > now
                           && FamilyStays(db, db.access[a].family, now) :: db.access[a])
            && after.refresh == (map r | r in db.refresh && FamilyStays(db, db.refresh[r].family, now) :: db.refresh[r])
  {
    var swept, after := P.SweepRows(db, now), P.EvictExpired(db, now);
    EvictedFamilies(db, now);
    DroppedRows(swept, now);
    SweptRows(db, now);
    hide P.Idle, IdleRow, P.SweepRows, P.DropIdleClients;
    assert after == P.DropIdleClients(swept, now);
    TokensFollow(db, swept, after, now);
  }

  lemma TokensFollow(db: P.Tables, swept: P.Tables, after: P.Tables, now: Time)
    requires after.families == (map f | f in db.families && FamilyStays(db, f, now) :: db.families[f])
    requires forall f :: f in swept.families <==> f in db.families && db.families[f].expiresAt > now
    requires forall a :: a in swept.access
               <==> a in db.access && db.access[a].expiresAt > now && db.access[a].family in swept.families
    requires forall a :: a in swept.access ==> swept.access[a] == db.access[a]
    requires after.access == (map a | a in swept.access && swept.access[a].family in after.families :: swept.access[a])
    requires swept.refresh == (map r | r in db.refresh && db.refresh[r].family in swept.families :: db.refresh[r])
    requires after.refresh
          == (map r | r in swept.refresh && swept.refresh[r].family in after.families :: swept.refresh[r])
    ensures after.access
         == (map a | a in db.access && db.access[a].expiresAt > now && FamilyStays(db, db.access[a].family, now) ::
               db.access[a])
    ensures after.refresh == (map r | r in db.refresh && FamilyStays(db, db.refresh[r].family, now) :: db.refresh[r])
  {
    assert forall f :: FamilyStays(db, f, now) ==> f in db.families && db.families[f].expiresAt > now;
    hide FamilyStays;
  }

  // An eviction deletes the expired codes, access rows and families, then every idle client
  // with what is left of it; rows go with their family. All others stay as they are.
  lemma {:induction false} EvictedRowsExactly(db: P.Tables, now: Time)
    ensures var after := P.EvictExpired(db, now);
            && after.clients == (map id | id in db.clients && !IdleRow(db, id, now) :: db.clients[id])
            && after.codes
               == (map c | c in db.codes && db.codes[c].expiresAt > now && !IdleRow(db, db.codes[c].client, now) ::
                     db.codes[c])
            && after.families == (map f | f in db.families && FamilyStays(db, f, now) :: db.families[f])
            && after.access
               == (map a | a in db.access && db.access[a].expiresAt > now
                           && FamilyStays(db, db.access[a].family, now) :: db.access[a])
            && after.refresh == (map r | r in db.refresh && FamilyStays(db, db.refresh[r].family, now) :: db.refresh[r])
            && after.identities == db.identities
  {
    EvictedClients(db, now);
    EvictedFamilies(db, now);
    EvictedTokens(db, now);
    hide P.EvictExpired, FamilyStays, IdleRow;
  }

  lemma SweptRows(db: P.Tables, now: Time)
    ensures var swept := P.SweepRows(db, now);
            && swept.clients == db.clients && swept.identities == db.identities
            && swept.codes == (map c | c in db.codes && db.codes[c].expiresAt > now :: db.codes[c])
            && swept.families == (map f | f in db.families && db.families[f].expiresAt > now :: db.families[f])
            && swept.access
               == (map a | a in db.access && db.access[a].expiresAt > now && db.access[a].family in swept.families ::
                     db.access[a])
            && swept.refresh == (map r | r in db.refresh && db.refresh[r].family in swept.families :: db.refresh[r])
  {
  }

  // --- The maps in memory ---

  ghost predicate IdleClient(s: Store, id: string, now: Time) {
    && id in s.clients && !s.clients[id].authorized
    && (match s.clients[id].lastActivity case Some(t) => t case None => s.clients[id].createdAt) + DAY < now
    && (forall c :: c in s.codes && s.codes[c].expiresAt >= now ==> s.codes[c].client != id)
    && (forall t :: t in s.tokens && s.tokens[t].expiresAt >= now ==> s.tokens[t].client != id)
    && (forall r :: r in s.refresh && s.refresh[r].expiresAt >= now ==> s.refresh[r].client != id)
  }

  lemma SweptHolder(s: Store, id: string, now: Time)
    requires id in s.clients
    ensures Evictable(Swept(s, now), id, s.clients[id], now) <==> IdleClient(s, id, now)
  {
    var swept := Swept(s, now);
    assert forall c :: c in s.codes && s.codes[c].expiresAt >= now <==> c in swept.codes;
    assert forall t :: t in s.tokens && s.tokens[t].expiresAt >= now <==> t in swept.tokens;
    assert forall r :: r in s.refresh && s.refresh[r].expiresAt >= now <==> r in swept.refresh;
  }

  // The same in memory, where an entry still counts at its expiry, and the memory of a
  // consumed token lasts as long as its family has a refresh token.
  lemma {:induction false} EvictedEntriesExactly(s: Store, now: Time)
    ensures var after := Evict(s, now).store;
            && after.clients == (map id | id in s.clients && !IdleClient(s, id, now) :: s.clients[id])
            && after.codes == (map c | c in s.codes && s.codes[c].expiresAt >= now :: s.codes[c])
            && after.tokens == (map t | t in s.tokens && s.tokens[t].expiresAt >= now :: s.tokens[t])
            && after.refresh == (map r | r in s.refresh && s.refresh[r].expiresAt >= now :: s.refresh[r])
            && after.consumed
               == map x | x in s.consumed && LastsWith(s.refresh, s.consumed[x], now) :: s.consumed[x]
  {
    forall id | id in s.clients ensures Evictable(Swept(s, now), id, s.clients[id], now) <==> IdleClient(s, id, now) {
      SweptHolder(s, id, now);
    }
    var refresh := Unexpired(s.refresh, now);
    forall f ensures HasFamily(refresh, f) <==> LastsWith(s.refresh, f, now) {
      FamilyLasts(s.refresh, f, now);
    }
    hide Evictable, IdleClient, HasFamily, LastsWith;
  }

  // A refresh token of the family has not expired.
  ghost predicate LastsWith(refresh: map<string, Entry>, family: string, now: Time) {
    exists r :: r in refresh && refresh[r].expiresAt >= now && refresh[r].family == family
  }

  lemma FamilyLasts(refresh: map<string, Entry>, family: string, now: Time)
    ensures HasFamily(Unexpired(refresh, now), family) <==> LastsWith(refresh, family, now)
  {
    var kept := Unexpired(refresh, now);
    if HasFamily(kept, family) {
      var r :| r in kept && kept[r].family == family;
      assert r in refresh && refresh[r].expiresAt >= now;
    }
    if LastsWith(refresh, family, now) {
      var r :| r in refresh && refresh[r].expiresAt >= now && refresh[r].family == family;
      assert r in kept;
    }
  }

  // --- Issued tokens ---

  // An issued pair is good for the seconds the reply gives, thirty days: in memory,
  lemma {:induction false} IssuedPairLasts(pkce: Pkce, s: Store, op: Op)
    requires op.ExchangeOp? || op.RotateOp?
    requires Apply(pkce, s, op).reply.Issued?
    ensures var after, r := Apply(pkce, s, op).store, Apply(pkce, s, op).reply;
            && r.expiresIn == 2_592_000 && r.access == op.access && r.refresh == op.refresh
            && op.access in after.tokens && after.tokens[op.access].scope == r.scope
            && after.tokens[op.access].expiresAt == op.mint + r.expiresIn * 1_000_000_000
            && op.refresh in after.refresh && after.refresh[op.refresh] == after.tokens[op.access]
  {
  }

  // as in the rows, where the family lasts as long.
  lemma {:induction false} IssuedRowsLast(pkce: Pkce, normal: string -> Option<string>, db: P.Tables, op: Op)
    requires op.ExchangeOp? || op.RotateOp?
    requires Simulation.PgApply(pkce, normal, db, op).reply.Issued?
    ensures var after, r := Simulation.PgApply(pkce, normal, db, op).db, Simulation.PgApply(pkce, normal, db, op).reply;
            var expiry := op.check + r.expiresIn * 1_000_000_000;
            && r.expiresIn == 2_592_000 && r.access == op.access && r.refresh == op.refresh
            && op.access in after.access && after.access[op.access].expiresAt == expiry
            && op.refresh in after.refresh && after.refresh[op.refresh].expiresAt == expiry
            && after.refresh[op.refresh].consumedAt.None?
            && after.access[op.access].family == after.refresh[op.refresh].family
            && after.access[op.access].family in after.families
            && after.families[after.access[op.access].family].scope == r.scope
            && after.families[after.access[op.access].family].expiresAt == expiry
  {
  }
}
