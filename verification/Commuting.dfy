// Transactions that hold different first locks, a code's or a family's, read and write
// different rows: they commute, except for the clients' last activity.
module Commuting {
  import opened Grants
  import opened Interleaving
  import opened Serializability
  import P = PostgresGrants

  // --- All tables but the clients ---

  function Core(db: P.Tables): P.Tables {
    db.(clients := map[])
  }

  lemma CoreIgnoresClients(pkce: Pkce, db: P.Tables, req: Request, now: Time)
    ensures Serial(pkce, Core(db), req, now).reply == Serial(pkce, db, req, now).reply
    ensures Serial(pkce, Core(db), req, now).db == Core(Serial(pkce, db, req, now).db)
  {
    hide P.RotateRefresh, P.RenewToken;
    match req
    case Rotate(_, _, _, _, _) => CoreIgnoresClientsRotating(pkce, db, req, now);
    case Renew(_) => CoreIgnoresClientsRenewing(pkce, db, req, now);
    case _ =>
  }

  lemma CoreIgnoresClientsRotating(pkce: Pkce, db: P.Tables, req: Request, now: Time)
    requires req.Rotate?
    ensures Serial(pkce, Core(db), req, now).reply == Serial(pkce, db, req, now).reply
    ensures Serial(pkce, Core(db), req, now).db == Core(Serial(pkce, db, req, now).db)
  {
  }

  lemma CoreIgnoresClientsRenewing(pkce: Pkce, db: P.Tables, req: Request, now: Time)
    requires req.Renew?
    ensures Serial(pkce, Core(db), req, now).reply == Serial(pkce, db, req, now).reply
    ensures Serial(pkce, Core(db), req, now).db == Core(Serial(pkce, db, req, now).db)
  {
    hide P.SlideRows;
  }

  lemma {:induction false} CoreOfRun(pkce: Pkce, db: P.Tables, log: seq<Commit>)
    ensures Core(RunSerially(pkce, db, log)) == RunSerially(pkce, Core(db), log)
    decreases |log|
  {
    if log != [] {
      var n := |log| - 1;
      CoreOfRun(pkce, db, log[..n]);
      CoreIgnoresClients(pkce, RunSerially(pkce, db, log[..n]), log[n].req, log[n].now);
    }
  }

  // --- Transactions on different codes and families commute ---

  predicate SameAccess(a: map<string, P.AccessRow>, b: map<string, P.AccessRow>, f: string) {
    && (forall k :: k in a && a[k].family == f ==> k in b && b[k] == a[k])
    && (forall k :: k in b && b[k].family == f ==> k in a && a[k] == b[k])
  }

  predicate SameRefresh(a: map<string, P.RefreshRow>, b: map<string, P.RefreshRow>, f: string) {
    && (forall k :: k in a && a[k].family == f ==> k in b && b[k] == a[k])
    && (forall k :: k in b && b[k].family == f ==> k in a && a[k] == b[k])
  }

  predicate SameCodes(a: map<string, P.CodeRow>, b: map<string, P.CodeRow>, codes: set<string>) {
    forall c :: c in codes ==> (c in a <==> c in b) && (c in a ==> a[c] == b[c])
  }

  predicate SameFamily(a: map<string, P.FamilyRow>, b: map<string, P.FamilyRow>, f: string) {
    (f in a <==> f in b) && (f in a ==> a[f] == b[f])
  }

  // Both have the same rows for these codes and this family.
  predicate SameAt(a: P.Tables, b: P.Tables, codes: set<string>, f: string) {
    && a.identities == b.identities && SameCodes(a.codes, b.codes, codes) && SameFamily(a.families, b.families, f)
    && SameAccess(a.access, b.access, f) && SameRefresh(a.refresh, b.refresh, f)
  }

  predicate Apart(a: Tx, b: Tx) {
    Spent(a.req) !! Spent(b.req) && Target(a) != Target(b) && Names(a.req) !! Names(b.req)
  }

  // What the transaction read under its first lock is there, and its new names are not.
  ghost predicate Grounded(db: P.Tables, tx: Tx) {
    AnchorRead(db, tx) && Unused(db, Names(tx.req))
  }

  lemma SerialConfined(pkce: Pkce, db: P.Tables, tx: Tx)
    requires Grounded(db, tx)
    ensures Confined(db, Serial(pkce, db, tx.req, tx.now).db, Spent(tx.req), Target(tx))
    ensures OnlyAdds(db, Serial(pkce, db, tx.req, tx.now).db, Names(tx.req))
  {
    match tx.req
    case Exchange(_, _, _, _, _, _, _) => ExchangeConfined(pkce, db, tx.req, tx.now);
    case Renew(token) => RenewConfined(pkce, db, token, tx.now);
    case Rotate(_, _, _, _, _) => RotateConfined(pkce, db, tx.req, tx.now);
    case Lookup(_) =>
  }

  lemma GroundedSurvives(a: P.Tables, b: P.Tables, tx: Tx, other: Tx)
    requires Confined(a, b, Spent(tx.req), Target(tx)) && OnlyAdds(a, b, Names(tx.req))
    requires Grounded(a, other) && Apart(tx, other)
    ensures Grounded(b, other)
  {
    AnchorSurvives(a, b, Spent(tx.req), Target(tx), other);
  }

  lemma ElsewhereIsSame(a: P.Tables, b: P.Tables, codes: set<string>, f: string, mine: set<string>, g: string)
    requires Confined(a, b, codes, f) && codes !! mine && f != g
    ensures SameAt(a, b, mine, g)
  {
  }

  lemma PairSame(a: P.Tables, b: P.Tables, codes: set<string>, f: string, row: P.FamilyRow, access: string,
                 refresh: string, now: Time)
    requires SameAt(a, b, codes, f)
    ensures SameAt(P.InsertTokenPair(a, f, row, access, refresh, now),
                   P.InsertTokenPair(b, f, row, access, refresh, now), codes, f)
  {
  }

  // The same rows give the same reply and the same new rows.
  ghost predicate Alike(pkce: Pkce, a: P.Tables, b: P.Tables, tx: Tx) {
    && Serial(pkce, a, tx.req, tx.now).reply == Serial(pkce, b, tx.req, tx.now).reply
    && SameAt(Serial(pkce, a, tx.req, tx.now).db, Serial(pkce, b, tx.req, tx.now).db, Spent(tx.req), Target(tx))
  }

  lemma BurnSame(a: P.Tables, b: P.Tables, code: string, f: string)
    requires SameAt(a, b, {code}, f)
    ensures SameAt(a.(codes := Delete(a.codes, code)), b.(codes := Delete(b.codes, code)), {code}, f)
  {
  }

  // A code row is either refused and burned, or burned and exchanged for this family and pair.
  lemma ExchangeUnfolds(pkce: Pkce, db: P.Tables, req: Request, now: Time)
    requires req.Exchange? && req.code in db.codes
    ensures var row, burned := db.codes[req.code], db.(codes := Delete(db.codes, req.code));
            var f := P.FamilyRow(row.identity, req.client, row.scope, now + TOKEN_IDLE_TTL, None);
            Serial(pkce, db, req, now)
              == if P.CodeRowAccepts(pkce, row, req.client, req.redirect, req.verifier, now)
                 then P.Result(P.InsertTokenPair(burned, req.family, f, req.access, req.refresh, now),
                               Issued(row.scope, req.access, req.refresh, EXPIRES_IN))
                 else P.Result(burned, Rejected)
  {
  }

  lemma BurnPairSame(a: P.Tables, b: P.Tables, req: Request, row: P.FamilyRow, now: Time)
    requires req.Exchange? && SameAt(a, b, {req.code}, req.family)
    ensures SameAt(P.InsertTokenPair(a.(codes := Delete(a.codes, req.code)), req.family, row, req.access, req.refresh,
                                     now),
                   P.InsertTokenPair(b.(codes := Delete(b.codes, req.code)), req.family, row, req.access, req.refresh,
                                     now),
                   {req.code}, req.family)
  {
    BurnSame(a, b, req.code, req.family);
    PairSame(a.(codes := Delete(a.codes, req.code)), b.(codes := Delete(b.codes, req.code)),
             {req.code}, req.family, row, req.access, req.refresh, now);
  }

  lemma ExchangesAlike(pkce: Pkce, a: P.Tables, b: P.Tables, req: Request, now: Time)
    requires req.Exchange? && SameAt(a, b, {req.code}, req.family) && req.code in a.codes && req.code in b.codes
    ensures Serial(pkce, a, req, now).reply == Serial(pkce, b, req, now).reply
    ensures SameAt(Serial(pkce, a, req, now).db, Serial(pkce, b, req, now).db, {req.code}, req.family)
  {
    var row := a.codes[req.code];
    ExchangeUnfolds(pkce, a, req, now);
    ExchangeUnfolds(pkce, b, req, now);
    BurnSame(a, b, req.code, req.family);
    BurnPairSame(a, b, req, P.FamilyRow(row.identity, req.client, row.scope, now + TOKEN_IDLE_TTL, None), now);
  }

  lemma ExchangeAlike(pkce: Pkce, a: P.Tables, b: P.Tables, tx: Tx)
    requires tx.req.Exchange? && AnchorRead(a, tx) && AnchorRead(b, tx) && SameAt(a, b, Spent(tx.req), Target(tx))
    ensures Alike(pkce, a, b, tx)
  {
    ExchangesAlike(pkce, a, b, tx.req, tx.now);
  }

  lemma SlideSame(a: map<string, P.RefreshRow>, b: map<string, P.RefreshRow>, f: string, now: Time)
    requires SameRefresh(a, b, f)
    ensures SameRefresh(P.SlideRows(a, f, now), P.SlideRows(b, f, now), f)
  {
  }

  lemma RenewUnfolds(pkce: Pkce, db: P.Tables, token: string, f: string, now: Time)
    requires token in db.access && db.access[token].family == f && P.Joined(db, f)
    ensures var out, expiry := Serial(pkce, db, Renew(token), now), now + TOKEN_IDLE_TTL;
            if !P.Usable(db, f, now) || db.access[token].expiresAt <= now then out == P.Result(db, Rejected)
            else out.reply == Verified(P.EntryOf(db, f, expiry))
                 && out.db == db.(access := db.access[token := P.AccessRow(f, expiry)],
                                  families := db.families[f := db.families[f].(expiresAt := expiry)],
                                  refresh := P.SlideRows(db.refresh, f, now),
                                  clients := P.TouchRow(db.clients, db.families[f].client, now))
  {
  }

  lemma RenewAlike(pkce: Pkce, a: P.Tables, b: P.Tables, tx: Tx)
    requires tx.req.Renew? && AnchorRead(a, tx) && AnchorRead(b, tx) && SameAt(a, b, Spent(tx.req), Target(tx))
    ensures Alike(pkce, a, b, tx)
  {
    RenewUnfolds(pkce, a, tx.req.token, tx.family, tx.now);
    RenewUnfolds(pkce, b, tx.req.token, tx.family, tx.now);
    SlideSame(a.refresh, b.refresh, tx.family, tx.now);
  }

  lemma ConsumeSame(a: map<string, P.RefreshRow>, b: map<string, P.RefreshRow>, f: string, token: string, now: Time)
    requires SameRefresh(a, b, f) && token in a && a[token].family == f
    ensures token in b && b[token] == a[token]
    ensures SameRefresh(a[token := a[token].(consumedAt := Some(now))], b[token := b[token].(consumedAt := Some(now))],
                        f)
  {
  }

  // A located refresh row is replayed, refused, or spent and followed by a new pair.
  lemma RotateUnfolds(pkce: Pkce, db: P.Tables, req: Request, f: string, now: Time)
    requires req.Rotate? && req.token in db.refresh && db.refresh[req.token].family == f && P.Joined(db, f)
    ensures var out, row, fam := Serial(pkce, db, req, now), db.refresh[req.token], db.families[f];
            var spent := db.(refresh := db.refresh[req.token := row.(consumedAt := Some(now))]);
            if fam.client != req.client then out == P.Result(db, Rejected)
            else if row.consumedAt.Some? then out == P.Result(P.Revoke(db, f, now), Rejected)
            else if fam.revokedAt.Some? || row.expiresAt <= now || fam.expiresAt <= now
                    || !req.policy(P.PrincipalOf(fam.identity, db.identities[fam.identity]))
            then out == P.Result(db, Rejected)
            else
              var renewed := fam.(expiresAt := now + TOKEN_IDLE_TTL);
              out == P.Result(P.InsertTokenPair(spent, f, renewed, req.access, req.refresh, now),
                              Issued(fam.scope, req.access, req.refresh, EXPIRES_IN))
  {
  }

  lemma RevokeSame(a: P.Tables, b: P.Tables, f: string, now: Time)
    requires SameAt(a, b, {}, f) && f in a.families && f in b.families
    ensures SameAt(P.Revoke(a, f, now), P.Revoke(b, f, now), {}, f)
  {
  }

  lemma SpentPairSame(a: P.Tables, b: P.Tables, req: Request, f: string, fam: P.FamilyRow, row: P.RefreshRow, now: Time)
    requires req.Rotate? && SameAt(a, b, {}, f)
    requires SameRefresh(a.refresh[req.token := row], b.refresh[req.token := row], f)
    ensures SameAt(P.InsertTokenPair(a.(refresh := a.refresh[req.token := row]), f, fam, req.access, req.refresh, now),
                   P.InsertTokenPair(b.(refresh := b.refresh[req.token := row]), f, fam, req.access, req.refresh, now),
                   {}, f)
  {
    PairSame(a.(refresh := a.refresh[req.token := row]), b.(refresh := b.refresh[req.token := row]), {}, f,
             fam, req.access, req.refresh, now);
  }

  lemma RotationsAlike(pkce: Pkce, a: P.Tables, b: P.Tables, req: Request, f: string, now: Time)
    requires req.Rotate? && SameAt(a, b, {}, f) && P.Joined(a, f) && P.Joined(b, f)
    requires req.token in a.refresh && a.refresh[req.token].family == f
    ensures Serial(pkce, a, req, now).reply == Serial(pkce, b, req, now).reply
    ensures SameAt(Serial(pkce, a, req, now).db, Serial(pkce, b, req, now).db, {}, f)
  {
    ConsumeSame(a.refresh, b.refresh, f, req.token, now);
    RotateUnfolds(pkce, a, req, f, now);
    RotateUnfolds(pkce, b, req, f, now);
    RevokeSame(a, b, f, now);
    SpentPairSame(a, b, req, f, a.families[f].(expiresAt := now + TOKEN_IDLE_TTL),
                  a.refresh[req.token].(consumedAt := Some(now)), now);
  }

  lemma RotateAlike(pkce: Pkce, a: P.Tables, b: P.Tables, tx: Tx)
    requires tx.req.Rotate? && AnchorRead(a, tx) && AnchorRead(b, tx) && SameAt(a, b, Spent(tx.req), Target(tx))
    ensures Alike(pkce, a, b, tx)
  {
    RotationsAlike(pkce, a, b, tx.req, tx.family, tx.now);
  }

  lemma SerialAlike(pkce: Pkce, a: P.Tables, b: P.Tables, tx: Tx)
    requires Grounded(a, tx) && Grounded(b, tx) && SameAt(a, b, Spent(tx.req), Target(tx))
    ensures Alike(pkce, a, b, tx)
  {
    match tx.req
    case Exchange(_, _, _, _, _, _, _) => ExchangeAlike(pkce, a, b, tx);
    case Renew(_) => RenewAlike(pkce, a, b, tx);
    case Rotate(_, _, _, _, _) => RotateAlike(pkce, a, b, tx);
    case Lookup(_) =>
  }

  // Four corners of a diamond: from o by x to a and then by y to ab, or by y to b and
  // then by x to ba; equal on what x and on what y writes.
  lemma CodesMeet(o: map<string, P.CodeRow>, a: map<string, P.CodeRow>, b: map<string, P.CodeRow>,
                  ab: map<string, P.CodeRow>, ba: map<string, P.CodeRow>, x: set<string>, y: set<string>)
    requires a.Keys <= o.Keys && b.Keys <= o.Keys && ab.Keys <= a.Keys && ba.Keys <= b.Keys
    requires forall c :: c in o && c !in x ==> c in a && a[c] == o[c]
    requires forall c :: c in o && c !in y ==> c in b && b[c] == o[c]
    requires forall c :: c in a && c !in y ==> c in ab && ab[c] == a[c]
    requires forall c :: c in b && c !in x ==> c in ba && ba[c] == b[c]
    requires SameCodes(a, ba, x) && SameCodes(b, ab, y) && x !! y
    ensures ab == ba
  {
  }

  lemma FamiliesMeet(o: map<string, P.FamilyRow>, a: map<string, P.FamilyRow>, b: map<string, P.FamilyRow>,
                     ab: map<string, P.FamilyRow>, ba: map<string, P.FamilyRow>, f: string, g: string)
    requires FamiliesElsewhere(o, a, f) && FamiliesElsewhere(o, b, g) && FamiliesElsewhere(a, ab, g)
      && FamiliesElsewhere(b, ba, f)
    requires SameFamily(a, ba, f) && SameFamily(b, ab, g) && f != g
    ensures ab == ba
  {
    assert forall k :: k in ab <==> k in ba;
  }

  lemma AccessMeet(o: map<string, P.AccessRow>, a: map<string, P.AccessRow>, b: map<string, P.AccessRow>,
                   ab: map<string, P.AccessRow>, ba: map<string, P.AccessRow>, f: string, g: string)
    requires AccessElsewhere(o, a, f) && AccessElsewhere(o, b, g) && AccessElsewhere(a, ab, g)
      && AccessElsewhere(b, ba, f)
    requires SameAccess(a, ba, f) && SameAccess(b, ab, g) && f != g
    ensures ab == ba
  {
    assert forall k :: k in ab ==> k in ba && ba[k] == ab[k];
    assert forall k :: k in ba ==> k in ab;
  }

  lemma RefreshMeet(o: map<string, P.RefreshRow>, a: map<string, P.RefreshRow>, b: map<string, P.RefreshRow>,
                    ab: map<string, P.RefreshRow>, ba: map<string, P.RefreshRow>, f: string, g: string)
    requires RefreshElsewhere(o, a, f) && RefreshElsewhere(o, b, g) && RefreshElsewhere(a, ab, g)
      && RefreshElsewhere(b, ba, f)
    requires SameRefresh(a, ba, f) && SameRefresh(b, ab, g) && f != g
    ensures ab == ba
  {
    assert forall k :: k in ab ==> k in ba && ba[k] == ab[k];
    assert forall k :: k in ba ==> k in ab;
  }

  lemma Meet(o: P.Tables, a: P.Tables, b: P.Tables, ab: P.Tables, ba: P.Tables, x: set<string>, f: string,
             y: set<string>, g: string)
    requires Confined(o, a, x, f) && Confined(o, b, y, g) && Confined(a, ab, y, g) && Confined(b, ba, x, f)
    requires SameAt(a, ba, x, f) && SameAt(b, ab, y, g) && x !! y && f != g
    ensures Core(ab) == Core(ba)
  {
    CodesMeet(o.codes, a.codes, b.codes, ab.codes, ba.codes, x, y);
    FamiliesMeet(o.families, a.families, b.families, ab.families, ba.families, f, g);
    AccessMeet(o.access, a.access, b.access, ab.access, ba.access, f, g);
    RefreshMeet(o.refresh, a.refresh, b.refresh, ab.refresh, ba.refresh, f, g);
  }

  // Running y in between changes neither x's reply nor the rows x writes.
  lemma Undisturbed(pkce: Pkce, db: P.Tables, x: Tx, y: Tx)
    requires Grounded(db, x) && Grounded(db, y) && Apart(x, y)
    ensures var after := Serial(pkce, db, y.req, y.now).db;
            Grounded(after, x) && Alike(pkce, db, after, x)
  {
    var after := Serial(pkce, db, y.req, y.now).db;
    SerialConfined(pkce, db, y);
    GroundedSurvives(db, after, y, x);
    ElsewhereIsSame(db, after, Spent(y.req), Target(y), Spent(x.req), Target(x));
    SerialAlike(pkce, db, after, x);
  }

  // Two transactions under different first locks commute.
  lemma {:induction false} ApartCommute(pkce: Pkce, db: P.Tables, x: Tx, y: Tx)
    requires Grounded(db, x) && Grounded(db, y) && Apart(x, y)
    ensures var a, b := Serial(pkce, db, x.req, x.now), Serial(pkce, db, y.req, y.now);
            && Serial(pkce, a.db, y.req, y.now).reply == b.reply
            && Serial(pkce, b.db, x.req, x.now).reply == a.reply
            && Core(Serial(pkce, a.db, y.req, y.now).db) == Core(Serial(pkce, b.db, x.req, x.now).db)
  {
    var a, b := Serial(pkce, db, x.req, x.now).db, Serial(pkce, db, y.req, y.now).db;
    Undisturbed(pkce, db, x, y);
    Undisturbed(pkce, db, y, x);
    SerialConfined(pkce, db, x);
    SerialConfined(pkce, db, y);
    SerialConfined(pkce, a, y);
    SerialConfined(pkce, b, x);
    Meet(db, a, b, Serial(pkce, a, y.req, y.now).db, Serial(pkce, b, x.req, x.now).db,
         Spent(x.req), Target(x), Spent(y.req), Target(y));
  }
}
