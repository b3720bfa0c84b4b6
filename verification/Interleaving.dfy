// Concurrent PostgreSQL transactions: exchanges, lookups, renewals and rotations
// whose statements interleave freely under row locks and READ COMMITTED reads. What a
// transaction read under its locks stays true until it ends, so its commit does to the
// rows of that moment exactly what the whole transaction would do alone.
module Interleaving {
  import opened Grants
  import P = PostgresGrants

  // --- Requests and their serial meaning ---

  datatype Request =
    | Exchange(code: string, client: string, redirect: string, verifier: string,
               family: string, access: string, refresh: string)
    | Lookup(token: string)
    | Renew(token: string)
    | Rotate(token: string, client: string, policy: Principal -> bool, access: string, refresh: string)

  function Serial(pkce: Pkce, db: P.Tables, req: Request, now: Time): P.Result {
    match req
    case Exchange(code, client, redirect, verifier, family, access, refresh) =>
      P.ExchangeCode(pkce, db, code, client, redirect, verifier, now, family, access, refresh)
    case Lookup(token) => P.LookupToken(db, token, now)
    case Renew(token) => P.RenewToken(db, token, now)
    case Rotate(token, client, policy, access, refresh) =>
      P.RotateRefresh(db, token, client, policy, now, access, refresh)
  }

  // --- Statements that write ---

  datatype Write =
    | DeleteCode(code: string)
    | InsertFamily(family: string, row: P.FamilyRow)
    | SetFamilyExpiry(family: string, expiry: Time)
    | RevokeFamily(family: string, at: Time)
    | InsertAccess(token: string, accessRow: P.AccessRow)
    | SetAccessExpiry(token: string, expiry: Time)
    | InsertRefresh(token: string, refreshRow: P.RefreshRow)
    | Consume(token: string, at: Time)
    | SetRefreshExpiry(tokens: set<string>, expiry: Time)
    | TouchClient(client: string, at: Time)

  function ApplyWrite(db: P.Tables, w: Write): P.Tables {
    match w
    case DeleteCode(code) => db.(codes := Delete(db.codes, code))
    case InsertFamily(f, row) => db.(families := db.families[f := row])
    case SetFamilyExpiry(f, expiry) =>
      if f in db.families then db.(families := db.families[f := db.families[f].(expiresAt := expiry)]) else db
    case RevokeFamily(f, at) => if f in db.families then P.Revoke(db, f, at) else db
    case InsertAccess(a, row) => db.(access := db.access[a := row])
    case SetAccessExpiry(a, expiry) =>
      if a in db.access then db.(access := db.access[a := db.access[a].(expiresAt := expiry)]) else db
    case InsertRefresh(r, row) => db.(refresh := db.refresh[r := row])
    case Consume(r, at) =>
      if r in db.refresh then db.(refresh := db.refresh[r := db.refresh[r].(consumedAt := Some(at))]) else db
    case SetRefreshExpiry(tokens, expiry) =>
      db.(refresh := map r | r in db.refresh :: if r in tokens then db.refresh[r].(expiresAt := expiry)
          else db.refresh[r])
    case TouchClient(c, at) => db.(clients := P.TouchRow(db.clients, c, at))
  }

  function ApplyWrites(db: P.Tables, ws: seq<Write>): P.Tables
    decreases |ws|
  {
    if ws == [] then db else ApplyWrite(ApplyWrites(db, ws[..|ws| - 1]), ws[|ws| - 1])
  }

  // --- Transactions ---

  datatype Phase =
    | Begun        // nothing read
    | Located      // the token's family is known, nothing locked
    | Anchored     // the code row, or the family row, is locked and read
    | TokenLocked  // the token row is locked and read
    | Written      // all writes issued but the client's
    | Ready        // about to commit
    | Finished

  datatype Lock = CodeLock(code: string) | FamilyLock(family: string)
                | AccessLock(token: string) | RefreshLock(token: string) | ClientLock(client: string)

  // What a transaction has read and written; writes stay invisible until it commits.
  datatype Tx = Tx(req: Request, phase: Phase, now: Time, family: string,
                   codeRow: Option<P.CodeRow>, familyRow: Option<P.FamilyRow>, principal: Principal,
                   accessRow: Option<P.AccessRow>, refreshRow: Option<P.RefreshRow>,
                   writes: seq<Write>, reply: Reply)

  function Start(req: Request): Tx {
    Tx(req, Begun, 0, "", None, None, Principal("", "", "", false), None, None, [], Rejected)
  }

  // Rows that an UPDATE of the family's live refresh tokens locks and changes.
  function LiveRows(db: P.Tables, f: string, now: Time): set<string> {
    set r | r in db.refresh && db.refresh[r].family == f && db.refresh[r].consumedAt.None?
      && db.refresh[r].expiresAt > now
  }

  predicate FamilyUsable(tx: Tx)
    requires tx.familyRow.Some?
  {
    tx.familyRow.value.revokedAt.None? && tx.familyRow.value.expiresAt > tx.now
  }

  function ClientOf(tx: Tx): string {
    if tx.req.Exchange? then tx.req.client else if tx.familyRow.Some? then tx.familyRow.value.client else ""
  }

  // The row locks the next statement takes; it waits until nobody else holds one.
  function Wants(db: P.Tables, tx: Tx): set<Lock> {
    match tx.phase
    case Begun => if tx.req.Exchange? && tx.req.code in db.codes then {CodeLock(tx.req.code)} else {}
    case Located => if P.Joined(db, tx.family) then {FamilyLock(tx.family)} else {}
    case Anchored =>
      (match tx.req
       case Renew(token) => if tx.familyRow.Some? && FamilyUsable(tx) && token in db.access then {AccessLock(token)}
         else {}
       case Rotate(token, client, _, _, _) =>
         if tx.familyRow.Some? && tx.familyRow.value.client == client && token in db.refresh then {RefreshLock(token)}
           else {}
       case _ => {})
    case TokenLocked =>
      if tx.req.Renew? then set r | r in LiveRows(db, tx.family, tx.now) :: RefreshLock(r) else {}
    case Written => if ClientOf(tx) in db.clients then {ClientLock(ClientOf(tx))} else {}
    case Ready => {}
    case Finished => {}
  }

  // Each statement yields the transaction's next state, or None when it ends there.
  function StepBegun(db: P.Tables, tx: Tx, now: Time): Option<Tx> {
    match tx.req
    case Exchange(code, _, _, _, family, _, _) =>
      if code !in db.codes then None
      else Some(tx.(phase := Anchored, now := now, family := family, codeRow := Some(db.codes[code])))
    case Lookup(_) => None
    case Renew(token) => if token !in db.access then None
      else Some(tx.(phase := Located, family := db.access[token].family))
    case Rotate(token, _, _, _, _) =>
      if token !in db.refresh then None else Some(tx.(phase := Located, family := db.refresh[token].family))
  }

  function StepLocated(db: P.Tables, tx: Tx, now: Time): Option<Tx> {
    if !P.Joined(db, tx.family) then None
    else
      var f := db.families[tx.family];
      Some(tx.(phase := Anchored, now := now, familyRow := Some(f),
               principal := P.PrincipalOf(f.identity, db.identities[f.identity])))
  }

  function PairWrites(tx: Tx, expiry: Time, access: string, refresh: string): seq<Write> {
    [InsertAccess(access, P.AccessRow(tx.family, expiry)),
     InsertRefresh(refresh, P.RefreshRow(tx.family, expiry, None))]
  }

  function StepAnchored(pkce: Pkce, db: P.Tables, tx: Tx): Option<Tx> {
    match tx.req
    case Exchange(code, client, redirect, verifier, family, access, refresh) =>
      if tx.codeRow.None? then None
      else if !P.CodeRowAccepts(pkce, tx.codeRow.value, client, redirect, verifier, tx.now)
      then Some(tx.(phase := Ready, writes := [DeleteCode(code)], reply := Rejected))
      else
        var row := tx.codeRow.value;
        var f := P.FamilyRow(row.identity, client, row.scope, tx.now + TOKEN_IDLE_TTL, None);
        Some(tx.(phase := Written, reply := Issued(row.scope, access, refresh, EXPIRES_IN),
                 writes := [DeleteCode(code), InsertFamily(family, f)] + PairWrites(tx, f.expiresAt, access, refresh)))
    case Renew(token) =>
      if tx.familyRow.None? || !FamilyUsable(tx) || token !in db.access || db.access[token].family != tx.family
         || db.access[token].expiresAt <= tx.now then None
      else Some(tx.(phase := TokenLocked, accessRow := Some(db.access[token])))
    case Rotate(token, client, _, _, _) =>
      if tx.familyRow.None? || tx.familyRow.value.client != client
         || token !in db.refresh || db.refresh[token].family != tx.family then None
      else Some(tx.(phase := TokenLocked, refreshRow := Some(db.refresh[token])))
    case _ => None
  }

  function StepTokenLocked(db: P.Tables, tx: Tx): Option<Tx> {
    if tx.familyRow.None? then None
    else
      var f, expiry := tx.familyRow.value, tx.now + TOKEN_IDLE_TTL;
      match tx.req
      case Renew(token) =>
        Some(tx.(phase := Written, reply := Verified(Entry(f.client, f.scope, expiry, tx.family, tx.principal)),
                 writes := [SetAccessExpiry(token, expiry), SetFamilyExpiry(tx.family, expiry),
                            SetRefreshExpiry(LiveRows(db, tx.family, tx.now), expiry)]))
      case Rotate(token, _, policy, access, refresh) =>
        if tx.refreshRow.None? then None
        else if tx.refreshRow.value.consumedAt.Some?
        then Some(tx.(phase := Ready, writes := [RevokeFamily(tx.family, tx.now)], reply := Rejected))
        else if !FamilyUsable(tx) || tx.refreshRow.value.expiresAt <= tx.now || !policy(tx.principal) then None
        else Some(tx.(phase := Written, reply := Issued(f.scope, access, refresh, EXPIRES_IN),
                      writes := [Consume(token, tx.now)] + PairWrites(tx, expiry, access, refresh)
                                + [SetFamilyExpiry(tx.family, expiry)]))
      case _ => None
  }

  function Statement(pkce: Pkce, db: P.Tables, tx: Tx, now: Time): Option<Tx> {
    match tx.phase
    case Begun => StepBegun(db, tx, now)
    case Located => StepLocated(db, tx, now)
    case Anchored => StepAnchored(pkce, db, tx)
    case TokenLocked => StepTokenLocked(db, tx)
    case Written => Some(tx.(phase := Ready, writes := tx.writes + [TouchClient(ClientOf(tx), tx.now)]))
    case _ => None
  }

  // --- The system ---

  datatype Commit = Commit(id: nat, req: Request, now: Time, reply: Reply)

  // Committed rows, transactions, the locks each of them holds, and the log of those
  // that ended, in the order they ended.
  datatype Sys = Sys(db: P.Tables, txs: seq<Tx>, held: seq<set<Lock>>, log: seq<Commit>)

  ghost predicate Blocked(sys: Sys, i: nat)
    requires i < |sys.txs| == |sys.held|
  {
    exists j :: 0 <= j < |sys.txs| && j != i && !(Wants(sys.db, sys.txs[i]) !! sys.held[j])
  }

  function Advance(sys: Sys, i: nat, tx: Tx): Sys
    requires i < |sys.txs| == |sys.held|
  {
    sys.(txs := sys.txs[i := tx], held := sys.held[i := sys.held[i] + Wants(sys.db, sys.txs[i])])
  }

  // The transaction ends and its locks go; it enters the log.
  function Finish(sys: Sys, i: nat, db: P.Tables, now: Time, reply: Reply): Sys
    requires i < |sys.txs| == |sys.held|
  {
    Sys(db, sys.txs[i := sys.txs[i].(phase := Finished)], sys.held[i := {}],
        sys.log + [Commit(i, sys.txs[i].req, now, reply)])
  }

  // One statement of transaction i. It waits while a lock it needs is held; a
  // missing row or a failed check ends it without a trace.
  ghost function Step(pkce: Pkce, sys: Sys, i: nat, now: Time): (next: Sys)
    requires i < |sys.txs| == |sys.held|
    ensures |next.txs| == |next.held| == |sys.txs|
  {
    var tx := sys.txs[i];
    if tx.phase.Finished? || Blocked(sys, i) then sys
    else if tx.phase.Ready? then Finish(sys, i, ApplyWrites(sys.db, tx.writes), tx.now, tx.reply)
    else
      match Statement(pkce, sys.db, tx, now)
      case Some(next) => Advance(sys, i, next)
      case None =>
        if tx.req.Lookup? then Finish(sys, i, sys.db, now, P.LookupToken(sys.db, tx.req.token, now).reply)
        else Finish(sys, i, sys.db, tx.now, Rejected)
  }

  // A schedule picks, again and again, a transaction and a clock reading.
  ghost function Execute(pkce: Pkce, sys: Sys, schedule: seq<(nat, Time)>): (end: Sys)
    requires |sys.txs| == |sys.held|
    requires forall k :: 0 <= k < |schedule| ==> schedule[k].0 < |sys.txs|
    ensures |end.txs| == |end.held| == |sys.txs|
    decreases |schedule|
  {
    if schedule == [] then sys
    else Execute(pkce, Step(pkce, sys, schedule[0].0, schedule[0].1), schedule[1..])
  }

  function Launch(db: P.Tables, reqs: seq<Request>): Sys {
    Sys(db, seq(|reqs|, i requires 0 <= i < |reqs| => Start(reqs[i])), seq(|reqs|, _ => {}), [])
  }

  // --- What a transaction knows while it holds its locks ---

  predicate TokenLocated(db: P.Tables, tx: Tx) {
    match tx.req
    case Renew(token) => token in db.access && db.access[token].family == tx.family
    case Rotate(token, _, _, _, _) => token in db.refresh && db.refresh[token].family == tx.family
    case _ => false
  }

  predicate AnchorRead(db: P.Tables, tx: Tx) {
    if tx.req.Exchange?
    then tx.req.code in db.codes && tx.codeRow == Some(db.codes[tx.req.code]) && tx.family == tx.req.family
    else
      && TokenLocated(db, tx) && P.Joined(db, tx.family) && tx.familyRow == Some(db.families[tx.family])
      && tx.principal == P.PrincipalOf(tx.familyRow.value.identity, db.identities[tx.familyRow.value.identity])
  }

  predicate TokenRead(db: P.Tables, tx: Tx) {
    && AnchorRead(db, tx)
    && match tx.req
       case Renew(token) =>
         tx.familyRow.Some? && FamilyUsable(tx) && tx.accessRow == Some(db.access[token])
           && tx.accessRow.value.expiresAt > tx.now
       case Rotate(token, client, _, _, _) =>
         tx.familyRow.Some? && tx.familyRow.value.client == client && tx.refreshRow == Some(db.refresh[token])
       case _ => false
  }

  // The writes and the reply are what the statements decide from the rows read.
  ghost predicate Planned(pkce: Pkce, db: P.Tables, tx: Tx) {
    var undecided := tx.(writes := [], reply := Rejected);
    if tx.req.Exchange?
    then AnchorRead(db, tx) && StepAnchored(pkce, db, undecided.(phase := Anchored)) == Some(tx)
    else TokenRead(db, tx) && StepTokenLocked(db, undecided.(phase := TokenLocked)) == Some(tx)
  }

  predicate Touched(tx: Tx) {
    tx.writes != [] && tx.writes[|tx.writes| - 1] == TouchClient(ClientOf(tx), tx.now)
  }

  function Untouch(tx: Tx): Tx
    requires Touched(tx)
  {
    tx.(phase := Written, writes := tx.writes[..|tx.writes| - 1])
  }

  ghost predicate Knows(pkce: Pkce, db: P.Tables, tx: Tx) {
    match tx.phase
    case Begun => tx == Start(tx.req)
    case Located => TokenLocated(db, tx) && tx.writes == [] && tx.reply == Rejected
    case Anchored => AnchorRead(db, tx) && tx.writes == [] && tx.reply == Rejected
    case TokenLocked => TokenRead(db, tx) && tx.writes == [] && tx.reply == Rejected
    case Written => Planned(pkce, db, tx)
    case Ready => Planned(pkce, db, tx) || (Touched(tx) && Planned(pkce, db, Untouch(tx)))
    case Finished => true
  }

  predicate HasAnchor(tx: Tx) {
    tx.phase.Anchored? || tx.phase.TokenLocked? || tx.phase.Written? || tx.phase.Ready?
  }

  function Anchor(tx: Tx): Lock {
    if tx.req.Exchange? then CodeLock(tx.req.code) else FamilyLock(tx.family)
  }

  // --- Writes touch clients, but add and remove none ---

  lemma WriteKeepsClients(db: P.Tables, w: Write)
    ensures ApplyWrite(db, w).clients.Keys == db.clients.Keys
  {
  }

  lemma {:induction false} WritesKeepClients(db: P.Tables, ws: seq<Write>)
    ensures ApplyWrites(db, ws).clients.Keys == db.clients.Keys
    decreases |ws|
  {
    hide ApplyWrite;
    if ws != [] {
      WritesKeepClients(db, ws[..|ws| - 1]);
      WriteKeepsClients(ApplyWrites(db, ws[..|ws| - 1]), ws[|ws| - 1]);
    }
  }

  // --- A finishing transaction behaves like a serial one ---

  lemma ApplyLast(db: P.Tables, ws: seq<Write>, w: Write)
    ensures ApplyWrites(db, ws + [w]) == ApplyWrite(ApplyWrites(db, ws), w)
  {
    assert (ws + [w])[..|ws|] == ws;
  }

  lemma ApplyFour(db: P.Tables, a: Write, b: Write, c: Write, d: Write)
    ensures ApplyWrites(db, [a, b, c, d]) == ApplyWrite(ApplyWrite(ApplyWrite(ApplyWrite(db, a), b), c), d)
  {
    assert [a, b, c, d] == [a, b, c] + [d] && [a, b, c] == [a, b] + [c] && [a, b] == [a] + [b] && [a] == [] + [a];
    ApplyLast(db, [], a);
    ApplyLast(db, [a], b);
    ApplyLast(db, [a, b], c);
    ApplyLast(db, [a, b, c], d);
  }

  lemma ApplyFive(db: P.Tables, a: Write, b: Write, c: Write, d: Write, e: Write)
    ensures ApplyWrites(db, [a, b, c, d, e])
      == ApplyWrite(ApplyWrite(ApplyWrite(ApplyWrite(ApplyWrite(db, a), b), c), d), e)
  {
    ApplyFour(db, a, b, c, d);
    assert [a, b, c, d, e] == [a, b, c, d] + [e];
    ApplyLast(db, [a, b, c, d], e);
  }

  lemma ApplyOne(db: P.Tables, a: Write)
    ensures ApplyWrites(db, [a]) == ApplyWrite(db, a)
  {
    assert [a][..0] == [];
  }

  lemma ExchangeWrites(db: P.Tables, code: string, family: string, row: P.FamilyRow, access: string, refresh: string,
                       now: Time)
    ensures ApplyWrites(db, [DeleteCode(code), InsertFamily(family, row),
                             InsertAccess(access, P.AccessRow(family, row.expiresAt)),
                             InsertRefresh(refresh, P.RefreshRow(family, row.expiresAt, None)),
                               TouchClient(row.client, now)])
         == P.InsertTokenPair(db.(codes := Delete(db.codes, code)), family, row, access, refresh, now)
  {
    ApplyFive(db, DeleteCode(code), InsertFamily(family, row), InsertAccess(access, P.AccessRow(family, row.expiresAt)),
              InsertRefresh(refresh, P.RefreshRow(family, row.expiresAt, None)), TouchClient(row.client, now));
  }

  lemma ConsumeRow(db: P.Tables, token: string, now: Time)
    requires token in db.refresh
    ensures ApplyWrite(db, Consume(token, now))
      == db.(refresh := db.refresh[token := db.refresh[token].(consumedAt := Some(now))])
  {
  }

  lemma PairInserted(db: P.Tables, access: string, refresh: string, a: P.AccessRow, r: P.RefreshRow)
    ensures ApplyWrite(ApplyWrite(db, InsertAccess(access, a)), InsertRefresh(refresh, r))
         == db.(access := db.access[access := a], refresh := db.refresh[refresh := r])
  {
  }

  lemma FamilyRenewed(db: P.Tables, family: string, expiry: Time, now: Time)
    requires family in db.families
    ensures ApplyWrite(ApplyWrite(db, SetFamilyExpiry(family, expiry)), TouchClient(db.families[family].client, now))
         == db.(families := db.families[family := db.families[family].(expiresAt := expiry)],
                clients := P.TouchRow(db.clients, db.families[family].client, now))
  {
  }

  lemma RotateWrites(db: P.Tables, token: string, family: string, access: string, refresh: string, now: Time,
                     expiry: Time)
    requires token in db.refresh && family in db.families
    ensures ApplyWrites(db, [Consume(token, now), InsertAccess(access, P.AccessRow(family, expiry)),
                             InsertRefresh(refresh, P.RefreshRow(family, expiry, None)),
                             SetFamilyExpiry(family, expiry), TouchClient(db.families[family].client, now)])
            == db.(refresh := db.refresh[token := db.refresh[token].(consumedAt := Some(now))]
                               [refresh := P.RefreshRow(family, expiry, None)],
                   access := db.access[access := P.AccessRow(family, expiry)],
                   families := db.families[family := db.families[family].(expiresAt := expiry)],
                   clients := P.TouchRow(db.clients, db.families[family].client, now))
  {
    var a, r := P.AccessRow(family, expiry), P.RefreshRow(family, expiry, None);
    var spent := db.(refresh := db.refresh[token := db.refresh[token].(consumedAt := Some(now))]);
    ApplyFive(db, Consume(token, now), InsertAccess(access, a), InsertRefresh(refresh, r),
              SetFamilyExpiry(family, expiry), TouchClient(db.families[family].client, now));
    ConsumeRow(db, token, now);
    PairInserted(spent, access, refresh, a, r);
    FamilyRenewed(spent.(access := spent.access[access := a], refresh := spent.refresh[refresh := r]), family, expiry,
                  now);
  }

  lemma SlideIsSet(db: P.Tables, d: P.Tables, f: string, now: Time)
    requires d.refresh == db.refresh
    ensures ApplyWrite(d, SetRefreshExpiry(LiveRows(db, f, now), now + TOKEN_IDLE_TTL))
         == d.(refresh := P.SlideRows(db.refresh, f, now))
  {
  }

  lemma RenewWrites(db: P.Tables, token: string, now: Time)
    requires token in db.access && P.Usable(db, db.access[token].family, now) && db.access[token].expiresAt > now
    ensures var f, expiry := db.access[token].family, now + TOKEN_IDLE_TTL;
            ApplyWrites(db, [SetAccessExpiry(token, expiry), SetFamilyExpiry(f, expiry),
                             SetRefreshExpiry(LiveRows(db, f, now), expiry), TouchClient(db.families[f].client, now)])
            == P.RenewToken(db, token, now).db
  {
    hide P.SlideRows, LiveRows, ApplyWrites;
    var f, expiry := db.access[token].family, now + TOKEN_IDLE_TTL;
    ApplyFour(db, SetAccessExpiry(token, expiry), SetFamilyExpiry(f, expiry),
              SetRefreshExpiry(LiveRows(db, f, now), expiry), TouchClient(db.families[f].client, now));
    var d1 := db.(access := db.access[token := P.AccessRow(f, expiry)]);
    assert ApplyWrite(db, SetAccessExpiry(token, expiry)) == d1;
    var d2 := d1.(families := db.families[f := db.families[f].(expiresAt := expiry)]);
    assert ApplyWrite(d1, SetFamilyExpiry(f, expiry)) == d2;
    var d3 := d2.(refresh := P.SlideRows(db.refresh, f, now));
    assert ApplyWrite(d2, SetRefreshExpiry(LiveRows(db, f, now), expiry)) == d3 by { SlideIsSet(db, d2, f, now); }
  }

  lemma ExchangeIsSerial(pkce: Pkce, db: P.Tables, tx: Tx, ws: seq<Write>)
    requires tx.req.Exchange? && Planned(pkce, db, tx)
    requires ws == if tx.phase.Written? then tx.writes + [TouchClient(ClientOf(tx), tx.now)] else tx.writes
    ensures Serial(pkce, db, tx.req, tx.now) == P.Result(ApplyWrites(db, ws), tx.reply)
  {
    var req, row := tx.req, tx.codeRow.value;
    if tx.phase.Written? {
      var f := P.FamilyRow(row.identity, req.client, row.scope, tx.now + TOKEN_IDLE_TTL, None);
      assert ws == [DeleteCode(req.code), InsertFamily(tx.family, f),
                    InsertAccess(req.access, P.AccessRow(tx.family, f.expiresAt)),
                    InsertRefresh(req.refresh, P.RefreshRow(tx.family, f.expiresAt, None)),
                      TouchClient(f.client, tx.now)];
      ExchangeWrites(db, req.code, tx.family, f, req.access, req.refresh, tx.now);
    } else {
      ApplyOne(db, DeleteCode(req.code));
    }
  }

  lemma RenewIsSerial(pkce: Pkce, db: P.Tables, tx: Tx, ws: seq<Write>)
    requires tx.req.Renew? && Planned(pkce, db, tx)
    requires ws == tx.writes + [TouchClient(ClientOf(tx), tx.now)]
    ensures Serial(pkce, db, tx.req, tx.now) == P.Result(ApplyWrites(db, ws), tx.reply)
  {
    var token, expiry := tx.req.token, tx.now + TOKEN_IDLE_TTL;
    assert ws == [SetAccessExpiry(token, expiry), SetFamilyExpiry(tx.family, expiry),
                  SetRefreshExpiry(LiveRows(db, tx.family, tx.now), expiry),
                    TouchClient(db.families[tx.family].client, tx.now)];
    RenewWrites(db, token, tx.now);
  }

  lemma RotateIsSerial(pkce: Pkce, db: P.Tables, tx: Tx, ws: seq<Write>)
    requires tx.req.Rotate? && Planned(pkce, db, tx)
    requires ws == if tx.phase.Written? then tx.writes + [TouchClient(ClientOf(tx), tx.now)] else tx.writes
    ensures Serial(pkce, db, tx.req, tx.now) == P.Result(ApplyWrites(db, ws), tx.reply)
  {
    var req, expiry := tx.req, tx.now + TOKEN_IDLE_TTL;
    hide ApplyWrites, P.TouchRow, LiveRows;
    if tx.phase.Written? {
      hide P.Revoke, ApplyWrite;
      assert ws == [Consume(req.token, tx.now), InsertAccess(req.access, P.AccessRow(tx.family, expiry)),
                    InsertRefresh(req.refresh, P.RefreshRow(tx.family, expiry, None)),
                    SetFamilyExpiry(tx.family, expiry), TouchClient(db.families[tx.family].client, tx.now)];
      RotateWrites(db, req.token, tx.family, req.access, req.refresh, tx.now, expiry);
    } else {
      ApplyOne(db, RevokeFamily(tx.family, tx.now));
    }
  }

  lemma {:induction false} CommitIsSerial(pkce: Pkce, db: P.Tables, tx: Tx)
    requires tx.phase.Ready? && Knows(pkce, db, tx)
    ensures Serial(pkce, db, tx.req, tx.now) == P.Result(ApplyWrites(db, tx.writes), tx.reply)
  {
    var p := if Planned(pkce, db, tx) then tx else Untouch(tx);
    assert p == tx || tx.writes == p.writes + [TouchClient(ClientOf(p), p.now)];
    match tx.req
    case Exchange(_, _, _, _, _, _, _) => ExchangeIsSerial(pkce, db, p, tx.writes);
    case Renew(_) => RenewIsSerial(pkce, db, p, tx.writes);
    case Rotate(_, _, _, _, _) => RotateIsSerial(pkce, db, p, tx.writes);
    case Lookup(_) =>
  }

  lemma {:induction false} EarlyEndIsSerial(pkce: Pkce, db: P.Tables, tx: Tx, now: Time)
    requires Knows(pkce, db, tx) && !tx.phase.Ready? && !tx.phase.Finished? && !tx.req.Lookup?
    requires Statement(pkce, db, tx, now).None?
    ensures Serial(pkce, db, tx.req, tx.now) == P.Result(db, Rejected)
  {
  }

  lemma AnchoredPlans(pkce: Pkce, db: P.Tables, tx: Tx)
    requires tx.phase.Anchored? && Knows(pkce, db, tx) && StepAnchored(pkce, db, tx).Some?
    ensures Knows(pkce, db, StepAnchored(pkce, db, tx).value)
  {
    var next := StepAnchored(pkce, db, tx).value;
    if tx.req.Exchange? { assert next.(phase := Anchored, writes := [], reply := Rejected) == tx; }
  }

  lemma TokenLockedPlans(pkce: Pkce, db: P.Tables, tx: Tx)
    requires tx.phase.TokenLocked? && Knows(pkce, db, tx) && StepTokenLocked(db, tx).Some?
    ensures Knows(pkce, db, StepTokenLocked(db, tx).value)
  {
    var next := StepTokenLocked(db, tx).value;
    assert next.(phase := TokenLocked, writes := [], reply := Rejected) == tx;
  }

  lemma StatementKeepsKnows(pkce: Pkce, db: P.Tables, tx: Tx, now: Time)
    requires Knows(pkce, db, tx)
    requires Statement(pkce, db, tx, now).Some?
    ensures Knows(pkce, db, Statement(pkce, db, tx, now).value)
  {
    match tx.phase
    case Anchored => AnchoredPlans(pkce, db, tx);
    case TokenLocked => TokenLockedPlans(pkce, db, tx);
    case Written => assert Untouch(Statement(pkce, db, tx, now).value) == tx;
    case _ =>
  }

  // --- A commit stays inside its own code and family ---

  predicate FamiliesElsewhere(a: map<string, P.FamilyRow>, b: map<string, P.FamilyRow>, f: string) {
    && (forall g :: g in a && g != f ==> g in b && b[g] == a[g])
    && (forall g :: g in b && g != f ==> g in a)
  }

  predicate AccessElsewhere(a: map<string, P.AccessRow>, b: map<string, P.AccessRow>, f: string) {
    && (forall k :: k in a ==> k in b && b[k].family == a[k].family && (a[k].family != f ==> b[k] == a[k]))
    && (forall k :: k in b && k !in a ==> b[k].family == f)
  }

  predicate RefreshElsewhere(a: map<string, P.RefreshRow>, b: map<string, P.RefreshRow>, f: string) {
    && (forall k :: k in a ==> k in b && b[k].family == a[k].family && (a[k].family != f ==> b[k] == a[k]))
    && (forall k :: k in b && k !in a ==> b[k].family == f)
  }

  // Nothing but the codes in `spent`, the family f and its token rows differs; no
  // token row moves to another family or disappears.
  ghost predicate Confined(a: P.Tables, b: P.Tables, spent: set<string>, f: string) {
    && b.identities == a.identities
    && (forall c :: c in b.codes ==> c in a.codes)
    && (forall c :: c in a.codes && c !in spent ==> c in b.codes && b.codes[c] == a.codes[c])
    && FamiliesElsewhere(a.families, b.families, f)
    && AccessElsewhere(a.access, b.access, f)
    && RefreshElsewhere(a.refresh, b.refresh, f)
  }

  // Names a request would put into the tables.
  datatype Name = FamilyName(s: string) | AccessName(s: string) | RefreshName(s: string)

  function Names(req: Request): set<Name> {
    match req
    case Exchange(_, _, _, _, family, access, refresh) => {FamilyName(family), AccessName(access), RefreshName(refresh)}
    case Rotate(_, _, _, access, refresh) => {AccessName(access), RefreshName(refresh)}
    case _ => {}
  }

  predicate InUse(db: P.Tables, n: Name) {
    match n
    case FamilyName(f) => f in db.families
    case AccessName(a) => a in db.access
    case RefreshName(r) => r in db.refresh
  }

  ghost predicate Unused(db: P.Tables, names: set<Name>) {
    forall n :: n in names ==> !InUse(db, n)
  }

  function Spent(req: Request): set<string> {
    if req.Exchange? then {req.code} else {}
  }

  ghost predicate OnlyAdds(a: P.Tables, b: P.Tables, names: set<Name>) {
    forall n :: InUse(b, n) ==> InUse(a, n) || n in names
  }

  lemma PairConfined(db: P.Tables, f: string, row: P.FamilyRow, access: string, refresh: string, now: Time)
    requires access !in db.access && refresh !in db.refresh
    ensures Confined(db, P.InsertTokenPair(db, f, row, access, refresh, now), {}, f)
    ensures OnlyAdds(db, P.InsertTokenPair(db, f, row, access, refresh, now),
                     {FamilyName(f), AccessName(access), RefreshName(refresh)})
  {
  }

  lemma ExchangeConfined(pkce: Pkce, db: P.Tables, req: Request, now: Time)
    requires req.Exchange? && Unused(db, Names(req))
    ensures Confined(db, Serial(pkce, db, req, now).db, {req.code}, req.family)
    ensures OnlyAdds(db, Serial(pkce, db, req, now).db, Names(req))
  {
    assert AccessName(req.access) in Names(req) && RefreshName(req.refresh) in Names(req);
    assert !InUse(db, AccessName(req.access)) && !InUse(db, RefreshName(req.refresh));
    var burned := db.(codes := Delete(db.codes, req.code));
    var out := Serial(pkce, db, req, now).db;
    if req.code in db.codes && out != burned {
      var row := db.codes[req.code];
      var f := P.FamilyRow(row.identity, req.client, row.scope, now + TOKEN_IDLE_TTL, None);
      PairConfined(burned, req.family, f, req.access, req.refresh, now);
      assert out == P.InsertTokenPair(burned, req.family, f, req.access, req.refresh, now);
    }
  }

  lemma RenewConfined(pkce: Pkce, db: P.Tables, token: string, now: Time)
    requires token in db.access
    ensures Confined(db, Serial(pkce, db, Renew(token), now).db, {}, db.access[token].family)
    ensures OnlyAdds(db, Serial(pkce, db, Renew(token), now).db, {})
  {
  }

  lemma ConsumeConfined(db: P.Tables, token: string, at: Time)
    requires token in db.refresh
    ensures Confined(db, db.(refresh := db.refresh[token := db.refresh[token].(consumedAt := Some(at))]), {},
                     db.refresh[token].family)
  {
  }

  lemma RevokeConfined(db: P.Tables, f: string, at: Time)
    requires f in db.families
    ensures Confined(db, P.Revoke(db, f, at), {}, f) && OnlyAdds(db, P.Revoke(db, f, at), {})
  {
  }

  lemma RotationConfined(db: P.Tables, token: string, row: P.FamilyRow, access: string, refresh: string, now: Time)
    requires token in db.refresh && access !in db.access && refresh !in db.refresh
    requires db.refresh[token].family in db.families
    ensures var spent := db.(refresh := db.refresh[token := db.refresh[token].(consumedAt := Some(now))]);
            var out := P.InsertTokenPair(spent, db.refresh[token].family, row, access, refresh, now);
            Confined(db, out, {}, db.refresh[token].family)
              && OnlyAdds(db, out, {AccessName(access), RefreshName(refresh)})
  {
    var f := db.refresh[token].family;
    var spent := db.(refresh := db.refresh[token := db.refresh[token].(consumedAt := Some(now))]);
    ConsumeConfined(db, token, now);
    PairConfined(spent, f, row, access, refresh, now);
    assert forall n :: InUse(spent, n) ==> InUse(db, n);
  }

  lemma RotateConfined(pkce: Pkce, db: P.Tables, req: Request, now: Time)
    requires req.Rotate? && req.token in db.refresh && Unused(db, Names(req))
    ensures Confined(db, Serial(pkce, db, req, now).db, {}, db.refresh[req.token].family)
    ensures OnlyAdds(db, Serial(pkce, db, req, now).db, Names(req))
  {
    assert AccessName(req.access) in Names(req) && RefreshName(req.refresh) in Names(req);
    assert !InUse(db, AccessName(req.access)) && !InUse(db, RefreshName(req.refresh));
    var f := db.refresh[req.token].family;
    if f in db.families {
      RevokeConfined(db, f, now);
      RotationConfined(db, req.token, db.families[f].(expiresAt := now + TOKEN_IDLE_TTL), req.access, req.refresh, now);
    }
  }

  // --- What others know survives a commit ---

  lemma LocatedSurvives(a: P.Tables, b: P.Tables, spent: set<string>, f: string, tx: Tx)
    requires Confined(a, b, spent, f) && TokenLocated(a, tx)
    ensures TokenLocated(b, tx)
  {
  }

  lemma AnchorSurvives(a: P.Tables, b: P.Tables, spent: set<string>, f: string, tx: Tx)
    requires Confined(a, b, spent, f) && AnchorRead(a, tx)
    requires if tx.req.Exchange? then tx.req.code !in spent else tx.family != f
    ensures AnchorRead(b, tx)
  {
    if !tx.req.Exchange? {
      LocatedSurvives(a, b, spent, f, tx);
    }
  }

  lemma TokenSurvives(a: P.Tables, b: P.Tables, spent: set<string>, f: string, tx: Tx)
    requires Confined(a, b, spent, f) && TokenRead(a, tx) && tx.family != f
    ensures TokenRead(b, tx) && LiveRows(a, tx.family, tx.now) == LiveRows(b, tx.family, tx.now)
  {
    AnchorSurvives(a, b, spent, f, tx);
  }

  lemma PlanSurvives(pkce: Pkce, a: P.Tables, b: P.Tables, spent: set<string>, f: string, tx: Tx)
    requires Confined(a, b, spent, f) && Planned(pkce, a, tx)
    requires if tx.req.Exchange? then tx.req.code !in spent else tx.family != f
    ensures Planned(pkce, b, tx)
  {
    if tx.req.Exchange? {
      AnchorSurvives(a, b, spent, f, tx);
    } else {
      TokenSurvives(a, b, spent, f, tx);
    }
  }

  lemma {:induction false} KnowledgeSurvives(pkce: Pkce, a: P.Tables, b: P.Tables, spent: set<string>, f: string,
                                             tx: Tx)
    requires Confined(a, b, spent, f) && Knows(pkce, a, tx)
    requires HasAnchor(tx) ==> if tx.req.Exchange? then tx.req.code !in spent else tx.family != f
    ensures Knows(pkce, b, tx)
  {
    match tx.phase
    case Located => LocatedSurvives(a, b, spent, f, tx);
    case Anchored => AnchorSurvives(a, b, spent, f, tx);
    case TokenLocked => TokenSurvives(a, b, spent, f, tx);
    case Written => PlanSurvives(pkce, a, b, spent, f, tx);
    case Ready => PlanSurvives(pkce, a, b, spent, f, if Planned(pkce, a, tx) then tx else Untouch(tx));
    case _ =>
  }
}
