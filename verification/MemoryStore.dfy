// The in-memory OAuth store of pkg/oauth/store.go: five maps, each method one
// critical section under the store's mutex. Every method is proved to leave the
// maps, and return the answer, that the specification in Grants names.
module MemoryStores {
  import opened Grants

  // for k, v := range m { if dead(k, v) { delete(m, k) } }, in any iteration order.
  method DeleteWhere<V>(m: map<string, V>, dead: (string, V) -> bool) returns (r: map<string, V>)
    ensures r == map k | k in m && !dead(k, m[k]) :: m[k]
  {
    r := m;
    var pending := m.Keys;
    while pending != {}
      invariant pending <= m.Keys
      invariant forall k :: k in r <==> k in m && (k in pending || !dead(k, m[k]))
      invariant forall k :: k in r ==> r[k] == m[k]
      decreases |pending|
    {
      var k :| k in pending;
      if dead(k, m[k]) {
        r := Delete(r, k);
      }
      pending := pending - {k};
    }
  }

  // for _, v := range m { seen[field(v)] = true }
  method Collect<V>(m: map<string, V>, field: V -> string) returns (seen: set<string>)
    ensures forall x :: x in seen <==> exists k :: k in m && field(m[k]) == x
  {
    seen := {};
    var pending := m.Keys;
    while pending != {}
      invariant pending <= m.Keys
      invariant forall k :: k in m && k !in pending ==> field(m[k]) in seen
      invariant forall x :: x in seen ==> exists k :: k in m && field(m[k]) == x
      decreases |pending|
    {
      var k :| k in pending;
      seen := seen + {field(m[k])};
      pending := pending - {k};
    }
  }

  class MemoryStore {
    var clients: map<string, Client>
    var codes: map<string, AuthCode>
    var tokens: map<string, Entry>
    var refresh: map<string, Entry>
    var consumed: map<string, string>

    ghost function Contents(): Store
      reads this
    {
      Store(clients, codes, tokens, refresh, consumed)
    }

    constructor ()
      ensures Contents() == EMPTY
    {
      clients, codes, tokens, refresh, consumed := map[], map[], map[], map[], map[];
    }

    method TouchClient(id: string, now: Time)
      modifies this`clients
      ensures clients == Touch(old(clients), id, now)
    {
      if id in clients {
        clients := clients[id := clients[id].(lastActivity := Some(now))];
      }
    }

    method RegisterClient(id: string, redirects: seq<string>, now: Time) returns (reply: Reply)
      modifies this
      ensures Outcome(Contents(), reply) == Grants.RegisterClient(old(Contents()), id, redirects, now)
    {
      if |clients| >= MAX_CLIENTS {
        return CapReached;
      }
      clients := clients[id := Client(redirects, false, false, now, None)];
      reply := Done;
    }

    method RegisterCimdClient(id: string, redirects: seq<string>, now: Time) returns (reply: Reply)
      modifies this
      ensures Outcome(Contents(), reply) == Grants.RegisterCimdClient(old(Contents()), id, redirects, now)
    {
      if id !in clients && |clients| >= MAX_CLIENTS {
        return CapReached;
      }
      clients := clients[id := Client(redirects, true, false, now, None)];
      reply := Done;
    }

    method CreateCode(code: string, client: string, redirect: string, challenge: string,
                      scope: seq<string>, principal: Principal, now: Time) returns (reply: Reply)
      modifies this
      ensures Outcome(Contents(), reply)
           == Grants.CreateCode(old(Contents()), code, client, redirect, challenge, scope, principal, now)
    {
      codes := codes[code := AuthCode(client, redirect, challenge, scope, now + AUTH_CODE_TTL, principal)];
      TouchClient(client, now);
      reply := Done;
    }

    method CreateTokenPair(e: Entry, access: string, newRefresh: string, now: Time)
      modifies this
      ensures Contents() == MintPair(old(Contents()), e, access, newRefresh, now)
    {
      tokens := tokens[access := e.(expiresAt := now + TOKEN_IDLE_TTL)];
      refresh := refresh[newRefresh := e.(expiresAt := now + TOKEN_IDLE_TTL)];
      TouchClient(e.client, now);
    }

    method ExchangeCode(pkce: Pkce, code: string, client: string, redirect: string, verifier: string,
                        check: Time, mint: Time, family: string, access: string, newRefresh: string)
      returns (reply: Reply)
      modifies this
      ensures Outcome(Contents(), reply)
           == Grants.ExchangeCode(pkce, old(Contents()), code, client, redirect, verifier,
                                  check, mint, family, access, newRefresh)
    {
      if code !in codes {
        return Rejected;
      }
      var ac := codes[code];
      codes := Delete(codes, code);
      if check > ac.expiresAt || ac.client != client || ac.redirect != redirect || !pkce(verifier, ac.challenge) {
        return Rejected;
      }
      CreateTokenPair(Entry(client, ac.scope, mint, family, ac.principal), access, newRefresh, mint);
      reply := Issued(ac.scope, access, newRefresh, EXPIRES_IN);
    }

    method LookupToken(access: string, now: Time) returns (reply: Reply)
      modifies this
      ensures Outcome(Contents(), reply) == Grants.LookupToken(old(Contents()), access, now)
    {
      if access !in tokens {
        return Rejected;
      }
      if now > tokens[access].expiresAt {
        tokens := Delete(tokens, access);
        return Rejected;
      }
      reply := Verified(tokens[access]);
    }

    // The loop over s.refresh inside renewToken.
    method SlideFamily(family: string, now: Time)
      modifies this`refresh
      ensures refresh == SlideRefresh(old(refresh), family, now)
    {
      var expiresAt := now + TOKEN_IDLE_TTL;
      var pending := refresh.Keys;
      while pending != {}
        invariant pending <= refresh.Keys <= old(refresh).Keys
        invariant forall k :: k in pending ==> refresh[k] == old(refresh)[k]
        invariant forall k :: k in old(refresh) && k !in pending ==>
          (k in refresh <==> k in SlideRefresh(old(refresh), family, now))
        invariant forall k :: k in refresh && k !in pending ==> refresh[k] == SlideRefresh(old(refresh), family, now)[k]
        decreases |pending|
      {
        var k :| k in pending;
        pending := pending - {k};
        if refresh[k].family != family {
          continue;
        }
        if now > refresh[k].expiresAt {
          refresh := Delete(refresh, k);
          continue;
        }
        refresh := refresh[k := refresh[k].(expiresAt := expiresAt)];
      }
      assert refresh.Keys == SlideRefresh(old(refresh), family, now).Keys;
    }

    method RenewToken(access: string, now: Time) returns (reply: Reply)
      modifies this
      ensures Outcome(Contents(), reply) == Grants.RenewToken(old(Contents()), access, now)
    {
      if access !in tokens {
        return Rejected;
      }
      if now > tokens[access].expiresAt {
        tokens := Delete(tokens, access);
        return Rejected;
      }
      var te := tokens[access].(expiresAt := now + TOKEN_IDLE_TTL);
      tokens := tokens[access := te];
      SlideFamily(te.family, now);
      TouchClient(te.client, now);
      reply := Verified(te);
    }

    method RevokeFamily(family: string)
      modifies this
      ensures Contents() == Grants.RevokeFamily(old(Contents()), family)
    {
      tokens := DeleteWhere(tokens, (_, v: Entry) => v.family == family);
      assert tokens == WithoutFamily(old(tokens), family);
      refresh := DeleteWhere(refresh, (_, v: Entry) => v.family == family);
      assert refresh == WithoutFamily(old(refresh), family);
      consumed := DeleteWhere(consumed, (_, fid) => fid == family);
    }

    method RotateRefresh(token: string, client: string, policy: Principal -> bool,
                         check: Time, recheck: Time, mint: Time, access: string, newRefresh: string)
      returns (reply: Reply)
      modifies this
      ensures Outcome(Contents(), reply)
           == Grants.RotateRefresh(old(Contents()), token, client, policy, check, recheck, mint, access, newRefresh)
    {
      if token !in refresh {
        if token in consumed {
          RevokeFamily(consumed[token]);
        }
        return Rejected;
      }
      var re := refresh[token];
      if re.client != client {
        return Rejected;
      }
      if check > re.expiresAt {
        refresh := Delete(refresh, token);
        return Rejected;
      }
      if !policy(re.principal) {
        return Rejected;
      }
      refresh := Delete(refresh, token);
      if recheck > re.expiresAt {
        return Rejected;
      }
      consumed := consumed[token := re.family];
      CreateTokenPair(re, access, newRefresh, mint);
      reply := Issued(re.scope, access, newRefresh, EXPIRES_IN);
    }

    method SweepExpired(now: Time)
      modifies this`codes, this`tokens, this`refresh
      ensures codes == UnexpiredCodes(old(codes), now)
      ensures tokens == Unexpired(old(tokens), now)
      ensures refresh == Unexpired(old(refresh), now)
    {
      codes := DeleteWhere(codes, (_, v: AuthCode) => now > v.expiresAt);
      tokens := DeleteWhere(tokens, (_, v: Entry) => now > v.expiresAt);
      refresh := DeleteWhere(refresh, (_, v: Entry) => now > v.expiresAt);
    }

    // Replay records of families with no refresh token left.
    method SweepConsumed()
      modifies this`consumed
      ensures consumed == map k | k in old(consumed) && HasFamily(refresh, old(consumed)[k]) :: old(consumed)[k]
    {
      var liveFamily := Collect(refresh, (v: Entry) => v.family);
      assert forall f :: f in liveFamily <==> HasFamily(refresh, f);
      consumed := DeleteWhere(consumed, (_, fid) => fid !in liveFamily);
    }

    // clientsWithLiveGrants
    method LiveClients() returns (live: set<string>)
      ensures forall id :: id in live <==> HoldsGrant(Contents(), id)
    {
      var withCode := Collect(codes, (v: AuthCode) => v.client);
      var withToken := Collect(tokens, (v: Entry) => v.client);
      var withRefresh := Collect(refresh, (v: Entry) => v.client);
      live := withCode + withToken + withRefresh;
    }

    method Sweep(now: Time)
      modifies this`codes, this`tokens, this`refresh, this`consumed
      ensures Contents() == Swept(old(Contents()), now)
    {
      SweepExpired(now);
      SweepConsumed();
    }

    method Evict(now: Time) returns (reply: Reply)
      modifies this
      ensures Outcome(Contents(), reply) == Grants.Evict(old(Contents()), now)
    {
      hide Swept;
      Sweep(now);
      var live := LiveClients();
      clients := DeleteWhere(clients, (id, c: Client) =>
        !c.authorized && id !in live && Activity(c) < now - CLIENT_IDLE_TTL);
      assert clients == Grants.Evict(old(Contents()), now).store.clients;
      reply := Done;
    }
  }
}
