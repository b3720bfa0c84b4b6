// The PostgreSQL OAuth store of pkg/oauth/postgres_store.go, one transaction per
// method and one assignment per SQL statement. Every method is proved to leave the
// tables, and return the answer, that the specification in PostgresGrants names.
module PostgresStores {
  import opened Grants
  import opened PostgresGrants

  class PostgresStore {
    var identities: map<Identity, Profile>
    var clients: map<string, ClientRow>
    var codes: map<string, CodeRow>
    var families: map<string, FamilyRow>
    var access: map<string, AccessRow>
    var refresh: map<string, RefreshRow>

    ghost function Rows(): Tables
      reads this
    {
      Tables(identities, clients, codes, families, access, refresh)
    }

    constructor ()
      ensures Rows() == NO_ROWS
    {
      identities, clients, codes, families, access, refresh := map[], map[], map[], map[], map[], map[];
    }

    method Touch(id: string, now: Time)
      modifies this`clients
      ensures clients == TouchRow(old(clients), id, now)
    {
      if id in clients {
        clients := clients[id := clients[id].(lastActivity := now)];
      }
    }

    method CreateCode(email: Option<string>, code: string, client: string, redirect: string, challenge: string,
                      challengeMethod: string, scope: seq<string>, principal: Principal, now: Time)
      returns (reply: Reply)
      modifies this
      ensures Result(Rows(), reply)
           == PostgresGrants.CreateCode(old(Rows()), email, code, client, redirect, challenge, challengeMethod, scope,
                                        principal, now)
    {
      if !Storable(principal) {
        return Failed;
      }
      if client !in clients || code in codes || challenge == "" || challengeMethod != "S256" {
        return Failed;
      }
      identities := UpsertIdentity(identities, principal, email);
      codes := codes[code := CodeRow(IdentityOf(principal), client, redirect, challenge, scope, now + AUTH_CODE_TTL)];
      Touch(client, now);
      reply := Done;
    }

    method InsertPair(family: string, row: FamilyRow, at: string, rt: string, now: Time)
      modifies this
      ensures Rows() == InsertTokenPair(old(Rows()), family, row, at, rt, now)
    {
      families := families[family := row];
      access := access[at := AccessRow(family, row.expiresAt)];
      refresh := refresh[rt := RefreshRow(family, row.expiresAt, None)];
      Touch(row.client, now);
    }

    method ExchangeCode(pkce: Pkce, code: string, client: string, redirect: string, verifier: string,
                        now: Time, family: string, at: string, rt: string) returns (reply: Reply)
      modifies this
      ensures Result(Rows(), reply)
           == PostgresGrants.ExchangeCode(pkce, old(Rows()), code, client, redirect, verifier, now, family, at, rt)
    {
      if code !in codes {
        return Rejected;
      }
      var row := codes[code];
      codes := Delete(codes, code);
      if !(row.expiresAt > now && row.client == client && row.redirect == redirect && pkce(verifier, row.challenge)) {
        return Rejected;
      }
      InsertPair(family, FamilyRow(row.identity, client, row.scope, now + TOKEN_IDLE_TTL, None), at, rt, now);
      reply := Issued(row.scope, at, rt, EXPIRES_IN);
    }

    method LookupToken(token: string, now: Time) returns (reply: Reply)
      ensures Result(Rows(), reply) == PostgresGrants.LookupToken(Rows(), token, now)
    {
      if token in access && access[token].expiresAt > now {
        var f := access[token].family;
        if f in families && families[f].identity in identities
           && families[f].expiresAt > now && families[f].revokedAt.None? {
          return Verified(Entry(families[f].client, families[f].scope, access[token].expiresAt, f,
                                PrincipalOf(families[f].identity, identities[families[f].identity])));
        }
      }
      reply := Rejected;
    }

    method RenewToken(token: string, now: Time) returns (reply: Reply)
      modifies this
      ensures Result(Rows(), reply) == PostgresGrants.RenewToken(old(Rows()), token, now)
    {
      if token !in access {
        return Rejected;
      }
      var family := access[token].family;
      if family !in families || families[family].identity !in identities {
        return Rejected;
      }
      var f := families[family];
      if f.revokedAt.Some? || f.expiresAt <= now || access[token].expiresAt <= now {
        return Rejected;
      }
      var expiry := now + TOKEN_IDLE_TTL;
      access := access[token := access[token].(expiresAt := expiry)];
      families := families[family := f.(expiresAt := expiry)];
      refresh := map k | k in refresh ::
        if refresh[k].family == family && refresh[k].consumedAt.None? && refresh[k].expiresAt > now
        then refresh[k].(expiresAt := expiry) else refresh[k];
      Touch(f.client, now);
      reply := Verified(Entry(f.client, f.scope, expiry, family, PrincipalOf(f.identity, identities[f.identity])));
    }

    method RotateRefresh(token: string, client: string, policy: Principal -> bool,
                         now: Time, at: string, rt: string) returns (reply: Reply)
      modifies this
      ensures Result(Rows(), reply) == PostgresGrants.RotateRefresh(old(Rows()), token, client, policy, now, at, rt)
    {
      if token !in refresh {
        return Rejected;
      }
      var family := refresh[token].family;
      if family !in families || families[family].identity !in identities {
        return Rejected;
      }
      var f, row := families[family], refresh[token];
      if f.client != client {
        return Rejected;
      }
      if row.consumedAt.Some? {
        if f.revokedAt.None? {
          families := families[family := f.(revokedAt := Some(now))];
        } else {
          families := families[family := f];
        }
        return Rejected;
      }
      if f.revokedAt.Some? || row.expiresAt <= now || f.expiresAt <= now {
        return Rejected;
      }
      if !policy(PrincipalOf(f.identity, identities[f.identity])) {
        return Rejected;
      }
      refresh := refresh[token := row.(consumedAt := Some(now))];
      InsertPair(family, f.(expiresAt := now + TOKEN_IDLE_TTL), at, rt, now);
      reply := Issued(f.scope, at, rt, EXPIRES_IN);
    }

    method DeleteFamiliesExcept(kept: set<string>)
      modifies this`families, this`access, this`refresh
      ensures Rows() == KeepFamilies(old(Rows()), kept)
    {
      families := map f | f in families && f in kept :: families[f];
      access := map a | a in access && access[a].family in kept :: access[a];
      refresh := map r | r in refresh && refresh[r].family in kept :: refresh[r];
    }

    method EvictExpired(now: Time)
      modifies this
      ensures Rows() == PostgresGrants.EvictExpired(old(Rows()), now)
    {
      hide DropIdleClients;
      codes := map c | c in codes && codes[c].expiresAt > now :: codes[c];
      access := map a | a in access && access[a].expiresAt > now :: access[a];
      DeleteFamiliesExcept(set f | f in families && families[f].expiresAt > now);
      DeleteIdleClients(now);
    }

    method DeleteIdleClients(now: Time)
      modifies this
      ensures Rows() == DropIdleClients(old(Rows()), now)
    {
      var idle := set id | id in clients && !clients[id].isStatic && clients[id].lastActivity < now - CLIENT_IDLE_TTL
        && (forall c :: c in codes ==> codes[c].client != id)
        && (forall f :: f in families && families[f].revokedAt.None? && families[f].expiresAt > now
              ==> families[f].client != id);
      assert idle == set id | id in Rows().clients && Idle(Rows(), id, now);
      clients := map id | id in clients && id !in idle :: clients[id];
      codes := map c | c in codes && codes[c].client !in idle :: codes[c];
      DeleteFamiliesExcept(set f | f in families && families[f].client !in idle);
    }

    // Registration evicts first; when it is refused the transaction rolls back.
    method RegisterClient(id: string, redirects: seq<string>, now: Time) returns (reply: Reply)
      modifies this
      ensures Result(Rows(), reply) == PostgresGrants.RegisterClient(old(Rows()), id, redirects, now)
    {
      var i, c, k, f, a, r := identities, clients, codes, families, access, refresh;
      EvictExpired(now);
      if |clients| >= MAX_CLIENTS {
        identities, clients, codes, families, access, refresh := i, c, k, f, a, r;
        return CapReached;
      }
      if id in clients || !ClientFits(id, redirects) {
        identities, clients, codes, families, access, refresh := i, c, k, f, a, r;
        return Failed;
      }
      clients := clients[id := ClientRow(redirects, false, false, now)];
      reply := Done;
    }

    method RegisterCimdClient(id: string, redirects: seq<string>, now: Time) returns (reply: Reply)
      modifies this
      ensures Result(Rows(), reply) == PostgresGrants.RegisterCimdClient(old(Rows()), id, redirects, now)
    {
      var i, c, k, f, a, r := identities, clients, codes, families, access, refresh;
      EvictExpired(now);
      if id !in clients {
        if |clients| >= MAX_CLIENTS {
          identities, clients, codes, families, access, refresh := i, c, k, f, a, r;
          return CapReached;
        }
      }
      if !ClientFits(id, redirects) {
        identities, clients, codes, families, access, refresh := i, c, k, f, a, r;
        return Failed;
      }
      if id !in clients {
        clients := clients[id := ClientRow(redirects, true, false, now)];
      } else {
        clients := clients[id := ClientRow(redirects, true, clients[id].isStatic, now)];
      }
      reply := Done;
    }
  }
}
