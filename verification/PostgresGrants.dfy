// The PostgreSQL OAuth store as values: the rows of the auth schema, and what each
// transaction of pkg/oauth/postgres_store.go does to them when it runs alone. Rows
// are keyed by the credential itself; its SHA-256 hash is taken to be injective.
module PostgresGrants {
  import opened Grants

  datatype Identity = Identity(provider: string, subject: string)
  datatype Profile = Profile(email: Option<string>, emailVerified: bool)
  datatype ClientRow = ClientRow(redirects: seq<string>, isPublic: bool, isStatic: bool, lastActivity: Time)
  datatype CodeRow = CodeRow(identity: Identity, client: string, redirect: string, challenge: string,
                             scope: seq<string>, expiresAt: Time)
  datatype FamilyRow = FamilyRow(identity: Identity, client: string, scope: seq<string>,
                                 expiresAt: Time, revokedAt: Option<Time>)
  datatype AccessRow = AccessRow(family: string, expiresAt: Time)
  datatype RefreshRow = RefreshRow(family: string, expiresAt: Time, consumedAt: Option<Time>)

  datatype Tables = Tables(
    identities: map<Identity, Profile>,
    clients: map<string, ClientRow>,
    codes: map<string, CodeRow>,
    families: map<string, FamilyRow>,
    access: map<string, AccessRow>,
    refresh: map<string, RefreshRow>)

  const NO_ROWS := Tables(map[], map[], map[], map[], map[], map[])

  datatype Result = Result(db: Tables, reply: Reply)

  function IdentityOf(p: Principal): Identity {
    Identity(p.provider, p.subject)
  }

  // The principal a join with auth.identity yields.
  function PrincipalOf(i: Identity, profile: Profile): Principal {
    Principal(i.provider, i.subject, match profile.email case Some(e) => e case None => "", profile.emailVerified)
  }

  // INSERT ... ON CONFLICT (provider, subject) DO UPDATE; email is already trimmed
  // and lower-cased, None when blank.
  function UpsertIdentity(m: map<Identity, Profile>, p: Principal, email: Option<string>): map<Identity, Profile> {
    var i := IdentityOf(p);
    var incoming := Profile(email, p.emailVerified && email.Some?);
    if i !in m then m[i := incoming]
    else if email.None? then m
    else m[i := incoming]
  }

  function TouchRow(clients: map<string, ClientRow>, id: string, now: Time): map<string, ClientRow> {
    if id in clients then clients[id := clients[id].(lastActivity := now)] else clients
  }

  // btrim(s) = ''
  predicate Blank(s: string) {
    forall i :: 0 <= i < |s| ==> s[i] == ' '
  }

  // The constraints of an identity row.
  predicate Storable(p: Principal) {
    !Blank(p.provider) && !Blank(p.subject)
  }

  // What a caller can see to: the client's row, the identity's and the code's constraints.
  predicate Grantable(db: Tables, client: string, challenge: string, principal: Principal) {
    client in db.clients && challenge != "" && Storable(principal)
  }

  // And the code's hash must be new, its method S256.
  predicate CodeFits(db: Tables, code: string, client: string, challenge: string, challengeMethod: string,
                     principal: Principal) {
    Grantable(db, client, challenge, principal) && code !in db.codes && challengeMethod == "S256"
  }

  function CreateCode(db: Tables, email: Option<string>, code: string, client: string, redirect: string,
                      challenge: string, challengeMethod: string, scope: seq<string>, principal: Principal,
                      now: Time): Result
  {
    if !CodeFits(db, code, client, challenge, challengeMethod, principal) then Result(db, Failed)
    else
      var row := CodeRow(IdentityOf(principal), client, redirect, challenge, scope, now + AUTH_CODE_TTL);
      Result(db.(identities := UpsertIdentity(db.identities, principal, email),
                 codes := db.codes[code := row],
                 clients := TouchRow(db.clients, client, now)), Done)
  }

  function InsertTokenPair(db: Tables, family: string, row: FamilyRow, access: string, refresh: string,
                           now: Time): Tables {
    db.(families := db.families[family := row],
        access := db.access[access := AccessRow(family, row.expiresAt)],
        refresh := db.refresh[refresh := RefreshRow(family, row.expiresAt, None)],
        clients := TouchRow(db.clients, row.client, now))
  }

  predicate CodeRowAccepts(pkce: Pkce, row: CodeRow, client: string, redirect: string, verifier: string, now: Time) {
    row.expiresAt > now && row.client == client && row.redirect == redirect && pkce(verifier, row.challenge)
  }

  function ExchangeCode(pkce: Pkce, db: Tables, code: string, client: string, redirect: string, verifier: string,
                        now: Time, family: string, access: string, refresh: string): Result
  {
    if code !in db.codes then Result(db, Rejected)
    else
      var row := db.codes[code];
      var burned := db.(codes := Delete(db.codes, code));
      if !CodeRowAccepts(pkce, row, client, redirect, verifier, now) then Result(burned, Rejected)
      else
        var f := FamilyRow(row.identity, client, row.scope, now + TOKEN_IDLE_TTL, None);
        Result(InsertTokenPair(burned, family, f, access, refresh, now), Issued(row.scope, access, refresh, EXPIRES_IN))
  }

  function EntryOf(db: Tables, family: string, expiresAt: Time): Entry
    requires family in db.families && db.families[family].identity in db.identities
  {
    var f := db.families[family];
    Entry(f.client, f.scope, expiresAt, family, PrincipalOf(f.identity, db.identities[f.identity]))
  }

  // The family row and its identity, as every family query joins them.
  predicate Joined(db: Tables, family: string) {
    family in db.families && db.families[family].identity in db.identities
  }

  predicate Usable(db: Tables, family: string, now: Time) {
    Joined(db, family) && db.families[family].revokedAt.None? && db.families[family].expiresAt > now
  }

  function LookupToken(db: Tables, token: string, now: Time): Result {
    if token in db.access && db.access[token].expiresAt > now && Usable(db, db.access[token].family, now)
    then Result(db, Verified(EntryOf(db, db.access[token].family, db.access[token].expiresAt)))
    else Result(db, Rejected)
  }

  // UPDATE refresh_token SET expires_at WHERE family_id AND consumed_at IS NULL AND expires_at > now
  function SlideRows(refresh: map<string, RefreshRow>, family: string, now: Time): map<string, RefreshRow> {
    map k | k in refresh ::
      if refresh[k].family == family && refresh[k].consumedAt.None? && refresh[k].expiresAt > now
      then refresh[k].(expiresAt := now + TOKEN_IDLE_TTL) else refresh[k]
  }

  function RenewToken(db: Tables, token: string, now: Time): Result {
    if token !in db.access || !Usable(db, db.access[token].family, now) || db.access[token].expiresAt <= now
    then Result(db, Rejected)
    else
      var family, expiry := db.access[token].family, now + TOKEN_IDLE_TTL;
      Result(db.(access := db.access[token := AccessRow(family, expiry)],
                 families := db.families[family := db.families[family].(expiresAt := expiry)],
                 refresh := SlideRows(db.refresh, family, now),
                 clients := TouchRow(db.clients, db.families[family].client, now)),
             Verified(EntryOf(db, family, expiry)))
  }

  // COALESCE(revoked_at, now)
  function Revoke(db: Tables, family: string, now: Time): Tables
    requires family in db.families
  {
    var f := db.families[family];
    db.(families := db.families[family := f.(revokedAt := if f.revokedAt.Some? then f.revokedAt else Some(now))])
  }

  function RotateRefresh(db: Tables, token: string, client: string, policy: Principal -> bool,
                         now: Time, access: string, refresh: string): Result
  {
    if token !in db.refresh || !Joined(db, db.refresh[token].family) then Result(db, Rejected)
    else
      var row := db.refresh[token];
      var f := db.families[row.family];
      if f.client != client then Result(db, Rejected)
      else if row.consumedAt.Some? then Result(Revoke(db, row.family, now), Rejected)
      else if f.revokedAt.Some? || row.expiresAt <= now || f.expiresAt <= now then Result(db, Rejected)
      else if !policy(PrincipalOf(f.identity, db.identities[f.identity])) then Result(db, Rejected)
      else
        var spent := db.(refresh := db.refresh[token := row.(consumedAt := Some(now))]);
        Result(InsertTokenPair(spent, row.family, f.(expiresAt := now + TOKEN_IDLE_TTL), access, refresh, now),
               Issued(f.scope, access, refresh, EXPIRES_IN))
  }

  // --- Eviction and registration ---

  // DELETE of families, cascading to their access and refresh rows.
  function KeepFamilies(db: Tables, kept: set<string>): Tables {
    db.(families := map f | f in db.families && f in kept :: db.families[f],
        access := map a | a in db.access && db.access[a].family in kept :: db.access[a],
        refresh := map r | r in db.refresh && db.refresh[r].family in kept :: db.refresh[r])
  }

  // The first three deletes.
  function SweepRows(db: Tables, now: Time): Tables {
    KeepFamilies(db.(codes := map c | c in db.codes && db.codes[c].expiresAt > now :: db.codes[c],
                     access := map a | a in db.access && db.access[a].expiresAt > now :: db.access[a]),
                 set f | f in db.families && db.families[f].expiresAt > now)
  }

  predicate Idle(db: Tables, id: string, now: Time) {
    id in db.clients && !db.clients[id].isStatic && db.clients[id].lastActivity < now - CLIENT_IDLE_TTL
    && (forall c :: c in db.codes ==> db.codes[c].client != id)
    && (forall f :: f in db.families && db.families[f].revokedAt.None? && db.families[f].expiresAt > now
          ==> db.families[f].client != id)
  }

  // The fourth delete, cascading to the client's codes and families.
  function DropIdleClients(db: Tables, now: Time): Tables {
    var gone := set id | id in db.clients && Idle(db, id, now);
    KeepFamilies(db.(clients := map id | id in db.clients && id !in gone :: db.clients[id],
                     codes := map c | c in db.codes && db.codes[c].client !in gone :: db.codes[c]),
                 set f | f in db.families && db.families[f].client !in gone)
  }

  function EvictExpired(db: Tables, now: Time): Tables {
    DropIdleClients(SweepRows(db, now), now)
  }

  // The constraints of a client row.
  predicate ClientFits(id: string, redirects: seq<string>) {
    !Blank(id) && redirects != []
  }

  // A refused registration rolls the eviction back with it.
  function RegisterClient(db: Tables, id: string, redirects: seq<string>, now: Time): Result {
    var swept := EvictExpired(db, now);
    if |swept.clients| >= MAX_CLIENTS then Result(db, CapReached)
    else if id in swept.clients || !ClientFits(id, redirects) then Result(db, Failed)
    else Result(swept.(clients := swept.clients[id := ClientRow(redirects, false, false, now)]), Done)
  }

  function RegisterCimdClient(db: Tables, id: string, redirects: seq<string>, now: Time): Result {
    var swept := EvictExpired(db, now);
    if id !in swept.clients && |swept.clients| >= MAX_CLIENTS then Result(db, CapReached)
    else if !ClientFits(id, redirects) then Result(db, Failed)
    else
      var isStatic := id in swept.clients && swept.clients[id].isStatic;
      Result(swept.(clients := swept.clients[id := ClientRow(redirects, true, isStatic, now)]), Done)
  }
}
