// The OAuth grant store as values: entries, the in-memory store's five maps, and
// what each locked operation of pkg/oauth/store.go does to them. Random strings
// and clock readings are arguments, in the order the code draws them.
module Grants {

  datatype Option<+T> = None | Some(value: T)

  type Time = int

  const SECOND: int := 1_000_000_000
  const HOUR: int := 3600 * SECOND
  const TOKEN_IDLE_TTL: int := 30 * 24 * HOUR
  const AUTH_CODE_TTL: int := 600 * SECOND
  const CLIENT_IDLE_TTL: int := 24 * HOUR
  const MAX_CLIENTS: nat := 50
  const EXPIRES_IN: nat := 30 * 24 * 3600

  // verifyPKCE(verifier, challenge), kept abstract.
  type Pkce = (string, string) -> bool

  datatype Principal = Principal(provider: string, subject: string, email: string, emailVerified: bool)

  datatype Client = Client(redirects: seq<string>, isPublic: bool, authorized: bool,
                           createdAt: Time, lastActivity: Option<Time>)

  datatype AuthCode = AuthCode(client: string, redirect: string, challenge: string, scope: seq<string>,
                               expiresAt: Time, principal: Principal)

  // Access-token and refresh-token entries have the same fields.
  datatype Entry = Entry(client: string, scope: seq<string>, expiresAt: Time, family: string, principal: Principal)

  datatype Store = Store(
    clients: map<string, Client>,
    codes: map<string, AuthCode>,
    tokens: map<string, Entry>,
    refresh: map<string, Entry>,
    consumed: map<string, string>)

  const EMPTY := Store(map[], map[], map[], map[], map[])

  datatype Reply =
    | Rejected
    | Failed      // an error return: the database refused the statement
    | CapReached
    | Done
    | Issued(scope: seq<string>, access: string, refresh: string, expiresIn: nat)
    | Verified(entry: Entry)

  datatype Outcome = Outcome(store: Store, reply: Reply)

  // delete(m, k)
  function Delete<V>(m: map<string, V>, k: string): (rest: map<string, V>)
    ensures rest == m - {k}
  {
    map x | x in m && x != k :: m[x]
  }

  // --- Clients ---

  function Touch(clients: map<string, Client>, id: string, now: Time): map<string, Client> {
    if id in clients then clients[id := clients[id].(lastActivity := Some(now))] else clients
  }

  function RegisterClient(s: Store, id: string, redirects: seq<string>, now: Time): Outcome {
    if |s.clients| >= MAX_CLIENTS then Outcome(s, CapReached)
    else Outcome(s.(clients := s.clients[id := Client(redirects, false, false, now, None)]), Done)
  }

  function RegisterCimdClient(s: Store, id: string, redirects: seq<string>, now: Time): Outcome {
    if id !in s.clients && |s.clients| >= MAX_CLIENTS then Outcome(s, CapReached)
    else Outcome(s.(clients := s.clients[id := Client(redirects, true, false, now, None)]), Done)
  }

  // --- Grants ---

  function CreateCode(s: Store, code: string, client: string, redirect: string, challenge: string,
                      scope: seq<string>, principal: Principal, now: Time): Outcome
  {
    var ac := AuthCode(client, redirect, challenge, scope, now + AUTH_CODE_TTL, principal);
    Outcome(s.(codes := s.codes[code := ac], clients := Touch(s.clients, client, now)), Done)
  }

  // createTokenPairLocked with the access TTL the server uses.
  function MintPair(s: Store, e: Entry, access: string, refresh: string, now: Time): Store {
    var minted := e.(expiresAt := now + TOKEN_IDLE_TTL);
    s.(tokens := s.tokens[access := minted],
       refresh := s.refresh[refresh := minted],
       clients := Touch(s.clients, e.client, now))
  }

  predicate CodeAccepts(pkce: Pkce, ac: AuthCode, client: string, redirect: string, verifier: string) {
    ac.client == client && ac.redirect == redirect && pkce(verifier, ac.challenge)
  }

  function ExchangeCode(pkce: Pkce, s: Store, code: string, client: string, redirect: string, verifier: string,
                        check: Time, mint: Time, family: string, access: string, refresh: string): Outcome
  {
    if code !in s.codes then Outcome(s, Rejected)
    else
      var ac := s.codes[code];
      var burned := s.(codes := Delete(s.codes, code));
      if check > ac.expiresAt || !CodeAccepts(pkce, ac, client, redirect, verifier) then Outcome(burned, Rejected)
      else
        var e := Entry(client, ac.scope, mint, family, ac.principal);
        Outcome(MintPair(burned, e, access, refresh, mint), Issued(ac.scope, access, refresh, EXPIRES_IN))
  }

  function LookupToken(s: Store, access: string, now: Time): Outcome {
    if access !in s.tokens then Outcome(s, Rejected)
    else if now > s.tokens[access].expiresAt then Outcome(s.(tokens := Delete(s.tokens, access)), Rejected)
    else Outcome(s, Verified(s.tokens[access]))
  }

  // The refresh map after a renewal of a token of this family: expired entries
  // of the family go, the others slide, other families are untouched.
  function SlideRefresh(refresh: map<string, Entry>, family: string, now: Time): map<string, Entry> {
    map k | k in refresh && !(refresh[k].family == family && now > refresh[k].expiresAt) ::
      if refresh[k].family == family then refresh[k].(expiresAt := now + TOKEN_IDLE_TTL) else refresh[k]
  }

  function RenewToken(s: Store, access: string, now: Time): Outcome {
    if access !in s.tokens then Outcome(s, Rejected)
    else if now > s.tokens[access].expiresAt then Outcome(s.(tokens := Delete(s.tokens, access)), Rejected)
    else
      var te := s.tokens[access].(expiresAt := now + TOKEN_IDLE_TTL);
      Outcome(s.(tokens := s.tokens[access := te],
                 refresh := SlideRefresh(s.refresh, te.family, now),
                 clients := Touch(s.clients, te.client, now)),
              Verified(te))
  }

  function WithoutFamily(m: map<string, Entry>, family: string): map<string, Entry> {
    map k | k in m && m[k].family != family :: m[k]
  }

  function RevokeFamily(s: Store, family: string): Store {
    s.(tokens := WithoutFamily(s.tokens, family),
       refresh := WithoutFamily(s.refresh, family),
       consumed := map k | k in s.consumed && s.consumed[k] != family :: s.consumed[k])
  }

  // Readings: the first expiry check, the check after the policy ran, the mint.
  function RotateRefresh(s: Store, token: string, client: string, policy: Principal -> bool,
                         check: Time, recheck: Time, mint: Time, access: string, refresh: string): Outcome
  {
    if token !in s.refresh then
      Outcome(if token in s.consumed then RevokeFamily(s, s.consumed[token]) else s, Rejected)
    else
      var re := s.refresh[token];
      var burned := s.(refresh := Delete(s.refresh, token));
      if re.client != client then Outcome(s, Rejected)
      else if check > re.expiresAt then Outcome(burned, Rejected)
      else if !policy(re.principal) then Outcome(s, Rejected)
      else if recheck > re.expiresAt then Outcome(burned, Rejected)
      else
        var spent := burned.(consumed := s.consumed[token := re.family]);
        Outcome(MintPair(spent, re, access, refresh, mint), Issued(re.scope, access, refresh, EXPIRES_IN))
  }

  // --- Eviction ---

  predicate HasFamily(m: map<string, Entry>, family: string) {
    exists k :: k in m && m[k].family == family
  }

  function Unexpired(m: map<string, Entry>, now: Time): map<string, Entry> {
    map k | k in m && m[k].expiresAt >= now :: m[k]
  }

  function UnexpiredCodes(m: map<string, AuthCode>, now: Time): map<string, AuthCode> {
    map k | k in m && m[k].expiresAt >= now :: m[k]
  }

  ghost predicate HoldsGrant(s: Store, client: string) {
    || (exists k :: k in s.codes && s.codes[k].client == client)
    || (exists k :: k in s.tokens && s.tokens[k].client == client)
    || (exists k :: k in s.refresh && s.refresh[k].client == client)
  }

  function Activity(c: Client): Time {
    match c.lastActivity case Some(t) => t case None => c.createdAt
  }

  // The grant maps after an eviction at now.
  ghost function Swept(s: Store, now: Time): Store {
    var refresh := Unexpired(s.refresh, now);
    s.(codes := UnexpiredCodes(s.codes, now),
       tokens := Unexpired(s.tokens, now),
       refresh := refresh,
       consumed := map k | k in s.consumed && HasFamily(refresh, s.consumed[k]) :: s.consumed[k])
  }

  ghost predicate Evictable(swept: Store, id: string, c: Client, now: Time) {
    !c.authorized && !HoldsGrant(swept, id) && Activity(c) < now - CLIENT_IDLE_TTL
  }

  ghost function Evict(s: Store, now: Time): Outcome {
    var swept := Swept(s, now);
    Outcome(swept.(clients := map id | id in s.clients && !Evictable(swept, id, s.clients[id], now) :: s.clients[id]),
            Done)
  }
}
