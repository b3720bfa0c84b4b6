// The rows stay consistent: foreign keys hold, every family has exactly one
// unconsumed refresh row expiring with it, and no access row outlives its family.
module RowInvariant {
  import opened Grants
  import opened Recovered
  import P = PostgresGrants

  // Every row name was drawn before.
  ghost predicate NamesIn(db: P.Tables, issued: set<string>) {
    && (forall c :: c in db.codes ==> c in issued)
    && (forall f :: f in db.families ==> f in issued)
    && (forall a :: a in db.access ==> a in issued)
    && (forall r :: r in db.refresh ==> r in issued)
  }

  // Just before a pair is inserted for family f.
  ghost predicate OneCurrentBut(families: map<string, P.FamilyRow>, rows: map<string, P.RefreshRow>, f: string) {
    && (forall g :: g in families && g != f ==> Current(families, rows, g))
    && (forall r :: Unconsumed(rows, r) ==> rows[r].family != f && IsCurrent(families, rows, rows[r].family, r))
    && Alone(rows)
  }

  lemma InsertKeepsOneCurrent(families: map<string, P.FamilyRow>, rows: map<string, P.RefreshRow>,
                              f: string, row: P.FamilyRow, refresh: string)
    requires OneCurrentBut(families, rows, f) && refresh !in rows
    ensures OneCurrent(families[f := row], rows[refresh := P.RefreshRow(f, row.expiresAt, None)])
  {
    var families', rows' := families[f := row], rows[refresh := P.RefreshRow(f, row.expiresAt, None)];
    assert IsCurrent(families', rows', f, refresh);
    forall g | g in families' && g != f
      ensures Current(families', rows', g)
    {
      var r :| IsCurrent(families, rows, g, r);
      assert IsCurrent(families', rows', g, r);
    }
    forall r | Unconsumed(rows', r)
      ensures IsCurrent(families', rows', rows'[r].family, r)
      ensures r != refresh ==> Unconsumed(rows, r) && rows[r] == rows'[r] && rows[r].family != f
    {
      if r != refresh {
        assert Unconsumed(rows, r) && IsCurrent(families, rows, rows[r].family, r);
      }
    }
  }

  lemma InsertKeepsLinked(db: P.Tables, f: string, row: P.FamilyRow, access: string, refresh: string, now: Time)
    requires Linked(db) && row.client in db.clients && row.identity in db.identities
    ensures Linked(P.InsertTokenPair(db, f, row, access, refresh, now))
  {
    var db' := P.InsertTokenPair(db, f, row, access, refresh, now);
    assert forall id :: id in db.clients ==> id in db'.clients;
    forall g | g in db'.families
      ensures P.Joined(db', g) && db'.families[g].client in db'.clients
    {
      if g != f { assert P.Joined(db, g); }
    }
  }

  lemma InsertKeepsCapped(db: P.Tables, f: string, row: P.FamilyRow, access: string, refresh: string, t: Time,
                          now: Time)
    requires Linked(db) && Capped(db, t) && t <= now && row.expiresAt == now + TOKEN_IDLE_TTL
    ensures Capped(P.InsertTokenPair(db, f, row, access, refresh, now), now)
  {
    var db' := P.InsertTokenPair(db, f, row, access, refresh, now);
    forall a | a in db'.access
      ensures db'.access[a].expiresAt <= db'.families[db'.access[a].family].expiresAt
    {
      if a != access {
        assert db.families[db.access[a].family].expiresAt <= t + TOKEN_IDLE_TTL;
      }
    }
  }

  lemma ExchangeConsistent(pkce: Pkce, db: P.Tables, code: string, client: string, redirect: string, verifier: string,
                           t: Time, now: Time, family: string, access: string, refresh: string)
    requires Consistent(db, t) && t <= now && family !in db.families && refresh !in db.refresh
    ensures Consistent(P.ExchangeCode(pkce, db, code, client, redirect, verifier, now, family, access, refresh).db, now)
  {
    hide OneCurrent, Capped, P.InsertTokenPair;
    ConsistentLater(db, t, now);
    var burned := db.(codes := Delete(db.codes, code));
    BurnedConsistent(db, burned, now);
    if P.ExchangeCode(pkce, db, code, client, redirect, verifier, now, family, access, refresh).reply.Issued? {
      var row := db.codes[code];
      NewFamilyConsistent(burned, family, P.FamilyRow(row.identity, client, row.scope, now + TOKEN_IDLE_TTL, None),
                          access, refresh, now);
    }
  }

  lemma NewFamilyConsistent(db: P.Tables, f: string, row: P.FamilyRow, access: string, refresh: string, now: Time)
    requires Consistent(db, now) && f !in db.families && refresh !in db.refresh
    requires row.client in db.clients && row.identity in db.identities && row.expiresAt == now + TOKEN_IDLE_TTL
    ensures Consistent(P.InsertTokenPair(db, f, row, access, refresh, now), now)
  {
    NewFamilyOneCurrent(db.families, db.refresh, f);
    InsertKeepsConsistent(db, f, row, access, refresh, now);
  }

  lemma InsertKeepsConsistent(db: P.Tables, f: string, row: P.FamilyRow, access: string, refresh: string, now: Time)
    requires Linked(db) && Capped(db, now) && OneCurrentBut(db.families, db.refresh, f) && refresh !in db.refresh
    requires row.client in db.clients && row.identity in db.identities && row.expiresAt == now + TOKEN_IDLE_TTL
    ensures Consistent(P.InsertTokenPair(db, f, row, access, refresh, now), now)
  {
    InsertKeepsOneCurrent(db.families, db.refresh, f, row, refresh);
    InsertKeepsLinked(db, f, row, access, refresh, now);
    InsertKeepsCapped(db, f, row, access, refresh, now, now);
  }

  lemma NewFamilyOneCurrent(families: map<string, P.FamilyRow>, rows: map<string, P.RefreshRow>, f: string)
    requires OneCurrent(families, rows) && f !in families
    ensures OneCurrentBut(families, rows, f)
  {
  }

  // A change to codes, identities and clients that keeps the references.
  lemma BurnedConsistent(db: P.Tables, db': P.Tables, t: Time)
    requires Consistent(db, t)
    requires db'.families == db.families && db'.access == db.access && db'.refresh == db.refresh
    requires forall i :: i in db.identities ==> i in db'.identities
    requires forall c :: c in db.clients ==> c in db'.clients
    requires forall c :: c in db'.codes ==>
      (c in db.codes && db'.codes[c] == db.codes[c])
      || (db'.codes[c].client in db'.clients && db'.codes[c].identity in db'.identities)
    ensures Consistent(db', t)
  {
    assert forall f :: f in db.families ==> P.Joined(db, f);
  }

  lemma {:induction false} RotateConsistent(db: P.Tables, token: string, client: string, policy: Principal -> bool,
                         t: Time, now: Time, access: string, refresh: string)
    requires Consistent(db, t) && t <= now && refresh !in db.refresh
    ensures Consistent(P.RotateRefresh(db, token, client, policy, now, access, refresh).db, now)
  {
    ConsistentLater(db, t, now);
    var out := P.RotateRefresh(db, token, client, policy, now, access, refresh);
    if out.reply.Issued? {
      var row := db.refresh[token];
      var spent := db.(refresh := db.refresh[token := row.(consumedAt := Some(now))]);
      var f := db.families[row.family].(expiresAt := now + TOKEN_IDLE_TTL);
      SpentConsistent(db, token, now);
      InsertKeepsConsistent(spent, row.family, f, access, refresh, now);
    } else if out.db != db {
      RevokeConsistent(db, db.refresh[token].family, now);
    }
  }

  lemma SpentConsistent(db: P.Tables, token: string, now: Time)
    requires Consistent(db, now) && Unconsumed(db.refresh, token)
    ensures
      var spent := db.(refresh := db.refresh[token := db.refresh[token].(consumedAt := Some(now))]);
      Linked(spent) && Capped(spent, now) && OneCurrentBut(spent.families, spent.refresh, db.refresh[token].family)
  {
    var spent := db.(refresh := db.refresh[token := db.refresh[token].(consumedAt := Some(now))]);
    SpentOneCurrent(db.families, db.refresh, token, now);
    assert forall g :: g in db.families ==> P.Joined(db, g);
  }

  lemma SpentOneCurrent(families: map<string, P.FamilyRow>, rows: map<string, P.RefreshRow>, token: string, now: Time)
    requires OneCurrent(families, rows) && Unconsumed(rows, token)
    ensures OneCurrentBut(families, rows[token := rows[token].(consumedAt := Some(now))], rows[token].family)
  {
    var rows' := rows[token := rows[token].(consumedAt := Some(now))];
    forall r | Unconsumed(rows', r)
      ensures Unconsumed(rows, r) && rows'[r].family != rows[token].family
      ensures IsCurrent(families, rows', rows'[r].family, r)
    {
      assert Unconsumed(rows, r) && IsCurrent(families, rows, rows[r].family, r);
    }
    forall g | g in families && g != rows[token].family
      ensures Current(families, rows', g)
    {
      var r :| IsCurrent(families, rows, g, r);
      assert IsCurrent(families, rows', g, r);
    }
  }

  lemma RevokeConsistent(db: P.Tables, f: string, now: Time)
    requires Consistent(db, now) && f in db.families
    ensures Consistent(P.Revoke(db, f, now), now)
  {
    var db' := P.Revoke(db, f, now);
    SameExpiriesConsistent(db, db', now);
  }

  // Only revocation marks changed.
  lemma SameExpiriesConsistent(db: P.Tables, db': P.Tables, t: Time)
    requires Consistent(db, t) && db' == db.(families := db'.families) && db'.families.Keys == db.families.Keys
    requires forall g :: g in db.families ==>
      db'.families[g].expiresAt == db.families[g].expiresAt && db'.families[g].client == db.families[g].client
      && db'.families[g].identity == db.families[g].identity
    ensures Consistent(db', t)
  {
    hide OneCurrent;
    SameExpiriesOneCurrent(db.families, db'.families, db.refresh);
    assert forall g :: g in db'.families ==> P.Joined(db, g);
  }

  lemma SameExpiriesOneCurrent(families: map<string, P.FamilyRow>, families': map<string, P.FamilyRow>,
                               rows: map<string, P.RefreshRow>)
    requires OneCurrent(families, rows) && families'.Keys == families.Keys
    requires forall g :: g in families ==> families'[g].expiresAt == families[g].expiresAt
    ensures OneCurrent(families', rows)
  {
    forall g | g in families'
      ensures Current(families', rows, g)
    {
      var r :| IsCurrent(families, rows, g, r);
      assert IsCurrent(families', rows, g, r);
    }
    forall r | Unconsumed(rows, r)
      ensures IsCurrent(families', rows, rows[r].family, r)
    {
      assert IsCurrent(families, rows, rows[r].family, r);
    }
  }

  lemma RenewConsistent(db: P.Tables, token: string, t: Time, now: Time)
    requires Consistent(db, t) && t <= now
    ensures Consistent(P.RenewToken(db, token, now).db, now)
  {
    ConsistentLater(db, t, now);
    if P.RenewToken(db, token, now).reply.Verified? {
      RenewedOneCurrent(db, token, now);
      RenewedLinked(db, token, now);
      RenewedCapped(db, token, t, now);
    }
  }

  lemma RenewedOneCurrent(db: P.Tables, token: string, now: Time)
    requires OneCurrent(db.families, db.refresh) && P.RenewToken(db, token, now).reply.Verified?
    ensures OneCurrent(P.RenewToken(db, token, now).db.families, P.RenewToken(db, token, now).db.refresh)
  {
    var db', f := P.RenewToken(db, token, now).db, db.access[token].family;
    forall r | Unconsumed(db'.refresh, r)
      ensures Unconsumed(db.refresh, r) && db'.refresh[r].family == db.refresh[r].family
      ensures IsCurrent(db'.families, db'.refresh, db'.refresh[r].family, r)
    {
      assert Unconsumed(db.refresh, r) && IsCurrent(db.families, db.refresh, db.refresh[r].family, r);
    }
    forall g | g in db'.families
      ensures Current(db'.families, db'.refresh, g)
    {
      var r :| IsCurrent(db.families, db.refresh, g, r);
      assert IsCurrent(db'.families, db'.refresh, g, r);
    }
  }

  lemma RenewedLinked(db: P.Tables, token: string, now: Time)
    requires Linked(db) && P.RenewToken(db, token, now).reply.Verified?
    ensures Linked(P.RenewToken(db, token, now).db)
  {
    var db' := P.RenewToken(db, token, now).db;
    assert forall g :: g in db.families ==> P.Joined(db, g);
    assert forall id :: id in db.clients ==> id in db'.clients;
  }

  lemma RenewedCapped(db: P.Tables, token: string, t: Time, now: Time)
    requires Linked(db) && Capped(db, t) && t <= now && P.RenewToken(db, token, now).reply.Verified?
    ensures Capped(P.RenewToken(db, token, now).db, now)
  {
    var db' := P.RenewToken(db, token, now).db;
    forall a | a in db'.access
      ensures db'.access[a].expiresAt <= db'.families[db'.access[a].family].expiresAt
    {
      assert db.families[db.access[a].family].expiresAt <= t + TOKEN_IDLE_TTL;
    }
  }

  // --- Eviction and registration ---

  // Keeping some families with all their rows, and dropping other rows freely.
  ghost predicate Thins(db: P.Tables, db': P.Tables) {
    && (forall f :: f in db'.families ==> f in db.families && db'.families[f] == db.families[f])
    && (forall a :: a in db'.access ==>
        a in db.access && db'.access[a] == db.access[a] && db.access[a].family in db'.families)
    && (forall r :: r in db'.refresh ==>
        r in db.refresh && db'.refresh[r] == db.refresh[r] && db.refresh[r].family in db'.families)
    && (forall r :: r in db.refresh && db.refresh[r].family in db'.families ==> r in db'.refresh)
    && (forall c :: c in db'.codes ==>
        c in db.codes && db'.codes[c] == db.codes[c] && db.codes[c].client in db'.clients)
    && (forall f :: f in db'.families ==> db'.families[f].client in db'.clients)
    && db'.identities == db.identities
  }

  lemma ThinConsistent(db: P.Tables, db': P.Tables, t: Time)
    requires Consistent(db, t) && Thins(db, db')
    ensures Consistent(db', t)
  {
    hide OneCurrent, Linked, Capped, Thins;
    ThinLinked(db, db');
    ThinCapped(db, db', t);
    ThinOneCurrent(db, db');
  }

  lemma ThinLinked(db: P.Tables, db': P.Tables)
    requires Linked(db) && Thins(db, db')
    ensures Linked(db')
  {
    assert forall f :: f in db'.families ==> P.Joined(db, f);
  }

  lemma ThinCapped(db: P.Tables, db': P.Tables, t: Time)
    requires Capped(db, t) && Thins(db, db')
    ensures Capped(db', t)
  {
  }

  lemma ThinOneCurrent(db: P.Tables, db': P.Tables)
    requires OneCurrent(db.families, db.refresh) && Thins(db, db')
    ensures OneCurrent(db'.families, db'.refresh)
  {
    forall f | f in db'.families
      ensures Current(db'.families, db'.refresh, f)
    {
      var r :| IsCurrent(db.families, db.refresh, f, r);
      assert IsCurrent(db'.families, db'.refresh, f, r);
    }
    forall r | Unconsumed(db'.refresh, r)
      ensures Unconsumed(db.refresh, r) && IsCurrent(db'.families, db'.refresh, db'.refresh[r].family, r)
    {
      assert Unconsumed(db.refresh, r) && IsCurrent(db.families, db.refresh, db.refresh[r].family, r);
    }
  }

  lemma SweepThins(db: P.Tables, now: Time)
    requires Linked(db)
    ensures Thins(db, P.SweepRows(db, now))
    ensures forall f :: f in P.SweepRows(db, now).families ==> P.SweepRows(db, now).families[f].expiresAt > now
  {
  }

  lemma DropThins(db: P.Tables, now: Time)
    requires Linked(db)
    ensures Thins(db, P.DropIdleClients(db, now))
  {
  }

  lemma {:induction false} EvictConsistent(db: P.Tables, t: Time, now: Time)
    requires Consistent(db, t) && t <= now
    ensures Consistent(P.EvictExpired(db, now), now)
  {
    var swept := P.SweepRows(db, now);
    ConsistentLater(db, t, now);
    SweepThins(db, now);
    ThinConsistent(db, swept, now);
    DropThins(swept, now);
    ThinConsistent(swept, P.EvictExpired(db, now), now);
  }

  lemma EvictNames(db: P.Tables, now: Time, issued: set<string>)
    requires Consistent(db, now) && NamesIn(db, issued)
    ensures NamesIn(P.EvictExpired(db, now), issued)
  {
    var swept := P.SweepRows(db, now);
    SweepThins(db, now);
    ThinConsistent(db, swept, now);
    DropThins(swept, now);
    ThinNames(db, swept, issued);
    ThinNames(swept, P.EvictExpired(db, now), issued);
  }

  lemma ThinNames(db: P.Tables, db': P.Tables, issued: set<string>)
    requires Thins(db, db') && NamesIn(db, issued)
    ensures NamesIn(db', issued)
  {
  }
}
