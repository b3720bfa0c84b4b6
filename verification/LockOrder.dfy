// Replaying a concurrent run in the order in which its transactions took their first
// lock, the code's or the family's: replies and rows come out the same, except for the
// clients' last activity, which is written under the client row's lock, taken last.
module LockOrder {
  import opened Grants
  import opened Interleaving
  import opened Serializability
  import P = PostgresGrants
  import opened Commuting

  // --- The order of the first locks ---

  // Transactions in the order in which they took their code's or family's lock.
  ghost function Anchorings(pkce: Pkce, sys: Sys, schedule: seq<(nat, Time)>): seq<nat>
    requires |sys.txs| == |sys.held|
    requires forall k :: 0 <= k < |schedule| ==> schedule[k].0 < |sys.txs|
    decreases |schedule|
  {
    if schedule == [] then []
    else
      var i, next := schedule[0].0, Step(pkce, sys, schedule[0].0, schedule[0].1);
      (if !HasAnchor(sys.txs[i]) && HasAnchor(next.txs[i]) then [i] else []) + Anchorings(pkce, next, schedule[1..])
  }

  // The rows after the ended transactions of this order, one after the other.
  ghost function Replayed(pkce: Pkce, init: P.Tables, txs: seq<Tx>, order: seq<nat>): P.Tables
    requires forall p :: 0 <= p < |order| ==> order[p] < |txs|
    decreases |order|
  {
    if order == [] then Core(init)
    else
      var before, tx := Replayed(pkce, init, txs, order[..|order| - 1]), txs[order[|order| - 1]];
      if tx.phase.Finished? then Serial(pkce, before, tx.req, tx.now).db else before
  }

  ghost predicate InRange(txs: seq<Tx>, order: seq<nat>) {
    forall p :: 0 <= p < |order| ==> order[p] < |txs|
  }

  // What every transaction of the order read holds where it stands in the replay; one
  // that ended got the same reply there.
  ghost predicate Stands(pkce: Pkce, init: P.Tables, txs: seq<Tx>, order: seq<nat>, p: nat)
    requires InRange(txs, order) && p < |order|
  {
    var db, tx := Replayed(pkce, init, txs, order[..p]), txs[order[p]];
    AnchorRead(db, tx) && (tx.phase.Finished? ==> Serial(pkce, db, tx.req, tx.now).reply == tx.reply)
  }

  ghost predicate OrderOk(txs: seq<Tx>, order: seq<nat>) {
    && InRange(txs, order)
    && (forall p, q :: 0 <= p < q < |order| ==> order[p] != order[q])
    && (forall i :: 0 <= i < |txs| && HasAnchor(txs[i]) ==> i in order)
    && (forall p :: 0 <= p < |order| ==> HasAnchor(txs[order[p]]) || txs[order[p]].phase.Finished?)
  }

  // While a transaction is under way, those anchored after it keep to other rows.
  ghost predicate LaterAreApart(txs: seq<Tx>, order: seq<nat>)
    requires InRange(txs, order)
  {
    forall p, q {:trigger Apart(txs[order[p]], txs[order[q]])} ::
      0 <= p < q < |order| && !txs[order[p]].phase.Finished? ==> Apart(txs[order[p]], txs[order[q]])
  }

  ghost predicate NamesNew(init: P.Tables, txs: seq<Tx>) {
    && (forall i :: 0 <= i < |txs| ==> Unused(init, Names(txs[i].req)))
    && (forall i, j :: 0 <= i < |txs| && 0 <= j < |txs| && i != j ==> Names(txs[i].req) !! Names(txs[j].req))
  }

  ghost predicate AllStand(pkce: Pkce, init: P.Tables, txs: seq<Tx>, order: seq<nat>)
    requires InRange(txs, order)
  {
    forall p {:trigger Stands(pkce, init, txs, order, p)} :: 0 <= p < |order| ==> Stands(pkce, init, txs, order, p)
  }

  ghost predicate Shaped(init: P.Tables, txs: seq<Tx>, order: seq<nat>) {
    OrderOk(txs, order) && LaterAreApart(txs, order) && NamesNew(init, txs)
  }

  ghost predicate Tracks(pkce: Pkce, init: P.Tables, txs: seq<Tx>, db: P.Tables, order: seq<nat>) {
    && Shaped(init, txs, order) && AllStand(pkce, init, txs, order)
    && Replayed(pkce, init, txs, order) == Core(db)
  }

  // --- Names in a replay ---

  lemma SerialAddsNames(pkce: Pkce, db: P.Tables, req: Request, now: Time)
    ensures OnlyAdds(db, Serial(pkce, db, req, now).db, Names(req))
  {
  }

  // A request's names stay unused as long as it is not among the ended ones.
  lemma {:induction false} ReplayLeavesNames(pkce: Pkce, init: P.Tables, txs: seq<Tx>, order: seq<nat>, j: nat)
    requires InRange(txs, order) && NamesNew(init, txs) && j < |txs|
    requires j in order ==> !txs[j].phase.Finished?
    ensures Unused(Replayed(pkce, init, txs, order), Names(txs[j].req))
    decreases |order|
  {
    if order != [] {
      var n := |order| - 1;
      var before, tx := Replayed(pkce, init, txs, order[..n]), txs[order[n]];
      ReplayLeavesNames(pkce, init, txs, order[..n], j);
      if tx.phase.Finished? {
        SerialAddsNames(pkce, before, tx.req, tx.now);
        forall m | m in Names(txs[j].req)
          ensures !InUse(Serial(pkce, before, tx.req, tx.now).db, m)
        {
          assert !InUse(before, m) && m !in Names(tx.req);
        }
      }
    }
  }

  // --- Steps that end nothing ---

  // The replay looks only at the ended transactions.
  lemma {:induction false} ReplayOfEnded(pkce: Pkce, init: P.Tables, txs: seq<Tx>, txs': seq<Tx>, order: seq<nat>)
    requires InRange(txs, order) && |txs'| == |txs|
    requires forall p :: 0 <= p < |order| ==>
      txs'[order[p]] == txs[order[p]] || (!txs[order[p]].phase.Finished? && !txs'[order[p]].phase.Finished?)
    ensures Replayed(pkce, init, txs', order) == Replayed(pkce, init, txs, order)
    decreases |order|
  {
    if order != [] {
      ReplayOfEnded(pkce, init, txs, txs', order[..|order| - 1]);
    }
  }

  // One statement keeps what was read under the first lock.
  lemma StatementKeepsAnchor(pkce: Pkce, db: P.Tables, tx: Tx, now: Time)
    requires Statement(pkce, db, tx, now).Some? && HasAnchor(tx)
    ensures var next := Statement(pkce, db, tx, now).value;
            HasAnchor(next) && next == tx.(phase := next.phase, writes := next.writes, reply := next.reply,
                                           accessRow := next.accessRow, refreshRow := next.refreshRow)
  {
  }

  // tx' carries on with what tx read under its first lock.
  ghost predicate CarriesOn(tx: Tx, tx': Tx) {
    !tx.phase.Finished? && !tx'.phase.Finished?
    && tx' == tx.(phase := tx'.phase, writes := tx'.writes, reply := tx'.reply,
                  accessRow := tx'.accessRow, refreshRow := tx'.refreshRow)
  }

  lemma CarryOnStands(pkce: Pkce, init: P.Tables, txs: seq<Tx>, order: seq<nat>, i: nat, next: Tx)
    requires InRange(txs, order) && AllStand(pkce, init, txs, order) && i < |txs|
    requires i in order ==> CarriesOn(txs[i], next)
    ensures InRange(txs[i := next], order) && AllStand(pkce, init, txs[i := next], order)
    ensures Replayed(pkce, init, txs[i := next], order) == Replayed(pkce, init, txs, order)
  {
    var txs' := txs[i := next];
    forall p | 0 <= p < |order|
      ensures Stands(pkce, init, txs', order, p)
    {
      assert Stands(pkce, init, txs, order, p);
      ReplayOfEnded(pkce, init, txs, txs', order[..p]);
    }
    ReplayOfEnded(pkce, init, txs, txs', order);
  }

  lemma CarryOnShaped(init: P.Tables, txs: seq<Tx>, order: seq<nat>, i: nat, next: Tx)
    requires Shaped(init, txs, order) && i < |txs| && next.req == txs[i].req
    requires if HasAnchor(txs[i]) then HasAnchor(next) && CarriesOn(txs[i], next) else i !in order && !HasAnchor(next)
    ensures Shaped(init, txs[i := next], order)
  {
    var txs' := txs[i := next];
    forall p, q | 0 <= p < q < |order| && !txs'[order[p]].phase.Finished?
      ensures Apart(txs'[order[p]], txs'[order[q]]) {
      assert Apart(txs[order[p]], txs[order[q]]);
    }
  }

  lemma CarryOnTracks(pkce: Pkce, init: P.Tables, txs: seq<Tx>, db: P.Tables, order: seq<nat>, i: nat, next: Tx)
    requires Tracks(pkce, init, txs, db, order) && i < |txs| && next.req == txs[i].req
    requires if HasAnchor(txs[i]) then HasAnchor(next) && CarriesOn(txs[i], next) else i !in order && !HasAnchor(next)
    ensures Tracks(pkce, init, txs[i := next], db, order)
  {
    CarryOnStands(pkce, init, txs, order, i, next);
    CarryOnShaped(init, txs, order, i, next);
  }

  // --- Taking the first lock ---

  lemma AnchorStands(pkce: Pkce, init: P.Tables, txs: seq<Tx>, db: P.Tables, order: seq<nat>, i: nat, next: Tx)
    requires InRange(txs, order) && AllStand(pkce, init, txs, order) && i < |txs| && i !in order
    requires Replayed(pkce, init, txs, order) == Core(db) && AnchorRead(db, next) && !next.phase.Finished?
    ensures InRange(txs[i := next], order + [i]) && AllStand(pkce, init, txs[i := next], order + [i])
    ensures Replayed(pkce, init, txs[i := next], order + [i]) == Core(db)
  {
    var txs', order' := txs[i := next], order + [i];
    CarryOnStands(pkce, init, txs, order, i, next);
    forall p | 0 <= p <= |order|
      ensures Stands(pkce, init, txs', order', p)
    {
      assert order'[..p] == order[..p];
      if p < |order| { assert Stands(pkce, init, txs', order, p); } else { assert order[..p] == order; }
    }
    assert order'[..|order|] == order;
  }

  lemma AnchorShaped(init: P.Tables, txs: seq<Tx>, order: seq<nat>, i: nat, next: Tx)
    requires Shaped(init, txs, order) && i < |txs| && i !in order && next.req == txs[i].req && HasAnchor(next)
    requires forall j :: 0 <= j < |txs| && j != i && HasAnchor(txs[j]) ==> Apart(txs[j], next)
    ensures Shaped(init, txs[i := next], order + [i])
  {
    var txs', order' := txs[i := next], order + [i];
    forall p, q | 0 <= p < q <= |order| && !txs'[order'[p]].phase.Finished?
      ensures Apart(txs'[order'[p]], txs'[order'[q]]) {
      if q < |order| { assert Apart(txs[order[p]], txs[order[q]]); }
    }
  }

  lemma AnchorTracks(pkce: Pkce, init: P.Tables, txs: seq<Tx>, db: P.Tables, order: seq<nat>, i: nat, next: Tx)
    requires Tracks(pkce, init, txs, db, order) && i < |txs| && i !in order
    requires HasAnchor(next) && next.req == txs[i].req && AnchorRead(db, next)
    requires forall j :: 0 <= j < |txs| && j != i && HasAnchor(txs[j]) ==> Apart(txs[j], next)
    ensures Tracks(pkce, init, txs[i := next], db, order + [i])
  {
    AnchorStands(pkce, init, txs, db, order, i, next);
    AnchorShaped(init, txs, order, i, next);
  }

  // --- Ending ---

  lemma CoreSerial(pkce: Pkce, db: P.Tables, req: Request, now: Time)
    requires Core(db) == db
    ensures Core(Serial(pkce, db, req, now).db) == Serial(pkce, db, req, now).db
  {
    CoreIgnoresClients(pkce, db, req, now);
  }

  lemma {:induction false} CoreStays(pkce: Pkce, init: P.Tables, txs: seq<Tx>, order: seq<nat>)
    requires InRange(txs, order)
    ensures Core(Replayed(pkce, init, txs, order)) == Replayed(pkce, init, txs, order)
    decreases |order|
  {
    if order != [] {
      var n := |order| - 1;
      CoreStays(pkce, init, txs, order[..n]);
      CoreSerial(pkce, Replayed(pkce, init, txs, order[..n]), txs[order[n]].req, txs[order[n]].now);
    }
  }

  // x before y or after it, on rows without clients.
  lemma SwapOnCore(pkce: Pkce, db: P.Tables, x: Tx, y: Tx)
    requires Core(db) == db && Grounded(db, x) && Grounded(db, y) && Apart(x, y)
    ensures var a, b := Serial(pkce, db, x.req, x.now), Serial(pkce, db, y.req, y.now);
            && Grounded(b.db, x) && Grounded(a.db, y)
            && Serial(pkce, a.db, y.req, y.now).reply == b.reply
            && Serial(pkce, b.db, x.req, x.now).reply == a.reply
            && Serial(pkce, a.db, y.req, y.now).db == Serial(pkce, b.db, x.req, x.now).db
  {
    var a, b := Serial(pkce, db, x.req, x.now).db, Serial(pkce, db, y.req, y.now).db;
    ApartCommute(pkce, db, x, y);
    Undisturbed(pkce, db, x, y);
    Undisturbed(pkce, db, y, x);
    CoreSerial(pkce, db, x.req, x.now);
    CoreSerial(pkce, db, y.req, y.now);
    CoreSerial(pkce, a, y.req, y.now);
    CoreSerial(pkce, b, x.req, x.now);
  }

  // out is what x does right after rows where it gets this reply.
  ghost predicate Shifted(pkce: Pkce, before: P.Tables, out: P.Tables, x: Tx, reply: Reply) {
    Grounded(before, x) && Serial(pkce, before, x.req, x.now) == P.Result(out, reply)
  }

  lemma ShiftOver(pkce: Pkce, before: P.Tables, out: P.Tables, x: Tx, reply: Reply, y: Tx)
    requires Core(before) == before && Shifted(pkce, before, out, x, reply) && Grounded(before, y) && Apart(x, y)
    ensures var next := Serial(pkce, before, y.req, y.now);
            && Shifted(pkce, next.db, Serial(pkce, out, y.req, y.now).db, x, reply)
            && Grounded(out, y) && Serial(pkce, out, y.req, y.now).reply == next.reply
  {
    SwapOnCore(pkce, before, x, y);
  }

  lemma ReplayNext(pkce: Pkce, init: P.Tables, txs: seq<Tx>, order: seq<nat>, p: nat)
    requires InRange(txs, order) && p < |order|
    ensures var before, tx := Replayed(pkce, init, txs, order[..p]), txs[order[p]];
            Replayed(pkce, init, txs, order[..p + 1])
              == if tx.phase.Finished? then Serial(pkce, before, tx.req, tx.now).db else before
  {
    assert order[..p + 1][..p] == order[..p] && order[..p + 1][p] == order[p];
  }

  function Ended(txs: seq<Tx>, i: nat): (txs': seq<Tx>)
    requires i < |txs|
    ensures |txs'| == |txs|
  {
    txs[i := txs[i].(phase := Finished)]
  }

  // With transaction order[q] ended, the replay up to p is the old one followed by it.
  ghost predicate MovedBack(pkce: Pkce, init: P.Tables, txs: seq<Tx>, order: seq<nat>, q: nat, p: nat, reply: Reply)
    requires InRange(txs, order) && q < |order| && p <= |order|
  {
    Shifted(pkce, Replayed(pkce, init, txs, order[..p]), Replayed(pkce, init, Ended(txs, order[q]), order[..p]),
            txs[order[q]], reply)
  }

  lemma EndInPlace(pkce: Pkce, init: P.Tables, txs: seq<Tx>, order: seq<nat>, q: nat, reply: Reply)
    requires Shaped(init, txs, order) && AllStand(pkce, init, txs, order) && q < |order|
      && !txs[order[q]].phase.Finished?
    requires Serial(pkce, Replayed(pkce, init, txs, order[..q]), txs[order[q]].req, txs[order[q]].now).reply == reply
    ensures MovedBack(pkce, init, txs, order, q, q + 1, reply)
  {
    var i := order[q];
    ReplayNext(pkce, init, txs, order, q);
    ReplayNext(pkce, init, Ended(txs, i), order, q);
    ReplayLeavesNames(pkce, init, txs, order[..q], i);
    ReplayOfEnded(pkce, init, txs, Ended(txs, i), order[..q]);
    assert Stands(pkce, init, txs, order, q);
  }

  lemma EndPastOne(pkce: Pkce, init: P.Tables, txs: seq<Tx>, order: seq<nat>, q: nat, p: nat, reply: Reply)
    requires Shaped(init, txs, order) && AllStand(pkce, init, txs, order)
    requires q < p < |order| && !txs[order[q]].phase.Finished?
    requires MovedBack(pkce, init, txs, order, q, p, reply)
    ensures MovedBack(pkce, init, txs, order, q, p + 1, reply)
  {
    var i, j := order[q], order[p];
    ReplayNext(pkce, init, txs, order, p);
    ReplayNext(pkce, init, Ended(txs, i), order, p);
    if txs[j].phase.Finished? {
      CoreStays(pkce, init, txs, order[..p]);
      assert Stands(pkce, init, txs, order, p) && Apart(txs[i], txs[j]);
      ReplayLeavesNames(pkce, init, txs, order[..p], j);
      ShiftOver(pkce, Replayed(pkce, init, txs, order[..p]), Replayed(pkce, init, Ended(txs, i), order[..p]), txs[i],
                reply, txs[j]);
    }
  }

  lemma {:induction false} EndMovesBack(pkce: Pkce, init: P.Tables, txs: seq<Tx>, order: seq<nat>, q: nat, p: nat,
                                        reply: Reply)
    requires Shaped(init, txs, order) && AllStand(pkce, init, txs, order)
    requires q < p <= |order| && !txs[order[q]].phase.Finished?
    requires Serial(pkce, Replayed(pkce, init, txs, order[..q]), txs[order[q]].req, txs[order[q]].now).reply == reply
    ensures MovedBack(pkce, init, txs, order, q, p, reply)
    decreases p
  {
    hide Shaped, AllStand, MovedBack;
    if p == q + 1 {
      EndInPlace(pkce, init, txs, order, q, reply);
    } else {
      EndMovesBack(pkce, init, txs, order, q, p - 1, reply);
      EndPastOne(pkce, init, txs, order, q, p - 1, reply);
    }
  }

  lemma EndStands(pkce: Pkce, init: P.Tables, txs: seq<Tx>, order: seq<nat>, q: nat, p: nat)
    requires Shaped(init, txs, order) && AllStand(pkce, init, txs, order)
    requires q < |order| && p < |order| && !txs[order[q]].phase.Finished?
    requires Serial(pkce, Replayed(pkce, init, txs, order[..q]), txs[order[q]].req, txs[order[q]].now).reply
      == txs[order[q]].reply
    ensures Stands(pkce, init, Ended(txs, order[q]), order, p)
  {
    assert Stands(pkce, init, txs, order, p);
    hide AllStand, Stands, Serial, Ended, Replayed;
    if p <= q {
      EarlierStands(pkce, init, txs, order, q, p);
    } else {
      LaterStands(pkce, init, txs, order, q, p);
    }
  }

  lemma EarlierStands(pkce: Pkce, init: P.Tables, txs: seq<Tx>, order: seq<nat>, q: nat, p: nat)
    requires Shaped(init, txs, order) && p <= q < |order| && Stands(pkce, init, txs, order, p)
    requires Serial(pkce, Replayed(pkce, init, txs, order[..q]), txs[order[q]].req, txs[order[q]].now).reply
      == txs[order[q]].reply
    requires !txs[order[q]].phase.Finished?
    ensures Stands(pkce, init, Ended(txs, order[q]), order, p)
  {
    hide Serial, Replayed, NamesNew, LaterAreApart;
    ReplayOfEnded(pkce, init, txs, Ended(txs, order[q]), order[..p]);
  }

  lemma LaterStands(pkce: Pkce, init: P.Tables, txs: seq<Tx>, order: seq<nat>, q: nat, p: nat)
    requires Shaped(init, txs, order) && AllStand(pkce, init, txs, order)
    requires q < p < |order| && !txs[order[q]].phase.Finished? && Stands(pkce, init, txs, order, p)
    requires Serial(pkce, Replayed(pkce, init, txs, order[..q]), txs[order[q]].req, txs[order[q]].now).reply
      == txs[order[q]].reply
    ensures Stands(pkce, init, Ended(txs, order[q]), order, p)
  {
    var i := order[q];
    EndMovesBack(pkce, init, txs, order, q, p, txs[i].reply);
    CoreStays(pkce, init, txs, order[..p]);
    ReplayLeavesNames(pkce, init, txs, order[..p], order[p]);
    assert Apart(txs[i], txs[order[p]]);
    hide Apart, Replayed, Core, AllStand;
    ShiftOver(pkce, Replayed(pkce, init, txs, order[..p]), Replayed(pkce, init, Ended(txs, i), order[..p]), txs[i],
              txs[i].reply, txs[order[p]]);
  }

  lemma EndShaped(init: P.Tables, txs: seq<Tx>, order: seq<nat>, i: nat)
    requires Shaped(init, txs, order) && i < |txs| && i in order
    ensures Shaped(init, Ended(txs, i), order)
  {
    var txs' := Ended(txs, i);
    forall p, q | 0 <= p < q < |order| && !txs'[order[p]].phase.Finished?
      ensures Apart(txs'[order[p]], txs'[order[q]]) {
      assert Apart(txs[order[p]], txs[order[q]]);
    }
  }

  lemma EndTracks(pkce: Pkce, init: P.Tables, txs: seq<Tx>, db: P.Tables, order: seq<nat>, i: nat)
    requires Tracks(pkce, init, txs, db, order) && i < |txs| && HasAnchor(txs[i])
    requires Serial(pkce, db, txs[i].req, txs[i].now).reply == txs[i].reply
    ensures Tracks(pkce, init, Ended(txs, i), Serial(pkce, db, txs[i].req, txs[i].now).db, order)
  {
    var q :| 0 <= q < |order| && order[q] == i;
    var reply := Serial(pkce, Replayed(pkce, init, txs, order[..q]), txs[i].req, txs[i].now).reply;
    EndShaped(init, txs, order, i);
    EndMovesBack(pkce, init, txs, order, q, |order|, reply);
    assert order[..|order|] == order;
    CoreIgnoresClients(pkce, db, txs[i].req, txs[i].now);
    forall p | 0 <= p < |order|
      ensures Stands(pkce, init, Ended(txs, i), order, p)
    {
      EndStands(pkce, init, txs, order, q, p);
    }
  }

  // --- Steps of a run ---

  lemma AnchoredOthersAreApart(pkce: Pkce, init: P.Tables, sys: Sys, i: nat, j: nat)
    requires Serializability.Inv(pkce, init, sys) && i < |sys.txs| && j < |sys.txs| && i != j
    requires HasAnchor(sys.txs[i]) && HasAnchor(sys.txs[j])
    ensures Apart(sys.txs[j], sys.txs[i])
  {
    OthersAreElsewhere(pkce, init, sys, i, j);
    OthersAreElsewhere(pkce, init, sys, j, i);
    var a, b := sys.txs[i], sys.txs[j];
    if a.req.Exchange? && b.req.Exchange? {
      assert FamilyName(a.req.family) in Names(a.req) && FamilyName(b.req.family) in Names(b.req);
    }
  }

  lemma AdvanceTracks(pkce: Pkce, init: P.Tables, sys: Sys, i: nat, now: Time, order: seq<nat>)
    requires Serializability.Inv(pkce, init, sys) && Tracks(pkce, init, sys.txs, sys.db, order) && i < |sys.txs|
    requires !Blocked(sys, i) && !sys.txs[i].phase.Finished? && Statement(pkce, sys.db, sys.txs[i], now).Some?
    ensures var next := Statement(pkce, sys.db, sys.txs[i], now).value;
            Tracks(pkce, init, sys.txs[i := next], sys.db,
                   order + if !HasAnchor(sys.txs[i]) && HasAnchor(next) then [i] else [])
  {
    var tx, next := sys.txs[i], Statement(pkce, sys.db, sys.txs[i], now).value;
    StatementKeepsRequest(pkce, sys.db, tx, now);
    if !HasAnchor(tx) && HasAnchor(next) {
      var end := Advance(sys, i, next);
      AdvanceKeepsInv(pkce, init, sys, i, now);
      ReadyReadItsAnchor(pkce, sys.db, end.txs[i]);
      forall j | 0 <= j < |sys.txs| && j != i && HasAnchor(sys.txs[j])
        ensures Apart(sys.txs[j], next)
      {
        AnchoredOthersAreApart(pkce, init, end, i, j);
      }
      AnchorTracks(pkce, init, sys.txs, sys.db, order, i, next);
    } else {
      if HasAnchor(tx) { StatementKeepsAnchor(pkce, sys.db, tx, now); }
      CarryOnTracks(pkce, init, sys.txs, sys.db, order, i, next);
      assert order + [] == order;
    }
  }

  lemma CommitTracks(pkce: Pkce, init: P.Tables, sys: Sys, i: nat, order: seq<nat>)
    requires Serializability.Inv(pkce, init, sys) && Tracks(pkce, init, sys.txs, sys.db, order) && i < |sys.txs|
    requires sys.txs[i].phase.Ready?
    ensures Tracks(pkce, init, Ended(sys.txs, i), ApplyWrites(sys.db, sys.txs[i].writes), order)
  {
    CommitIsSerial(pkce, sys.db, sys.txs[i]);
    EndTracks(pkce, init, sys.txs, sys.db, order, i);
  }

  lemma EarlyEndTracks(pkce: Pkce, init: P.Tables, sys: Sys, i: nat, now: Time, order: seq<nat>)
    requires Serializability.Inv(pkce, init, sys) && Tracks(pkce, init, sys.txs, sys.db, order) && i < |sys.txs|
    requires !sys.txs[i].phase.Ready? && !sys.txs[i].phase.Finished? && Statement(pkce, sys.db, sys.txs[i], now).None?
    ensures Tracks(pkce, init, Ended(sys.txs, i), sys.db, order)
    ensures HasAnchor(sys.txs[i]) ==> sys.txs[i].reply == Rejected && !sys.txs[i].req.Lookup?
  {
    var tx := sys.txs[i];
    if HasAnchor(tx) {
      ReadyReadItsAnchor(pkce, sys.db, tx);
      EarlyEndIsSerial(pkce, sys.db, tx, now);
      EndTracks(pkce, init, sys.txs, sys.db, order, i);
    } else {
      CarryOnTracks(pkce, init, sys.txs, sys.db, order, i, tx.(phase := Finished));
    }
  }

  // --- Whole runs ---

  // A transaction that ends before its first lock writes nothing.
  predicate Quiet(c: Commit) {
    c.req.Lookup? || c.reply.Rejected?
  }

  ghost predicate LoggedAs(log: seq<Commit>, txs: seq<Tx>, order: seq<nat>) {
    forall k :: 0 <= k < |log| ==>
      log[k].id < |txs| && if log[k].id in order then log[k]
        == Commit(log[k].id, txs[log[k].id].req, txs[log[k].id].now, txs[log[k].id].reply)
                           else Quiet(log[k])
  }

  ghost predicate Follows(pkce: Pkce, init: P.Tables, sys: Sys, order: seq<nat>) {
    && Serializability.Inv(pkce, init, sys) && Tracks(pkce, init, sys.txs, sys.db, order)
    && LoggedAs(sys.log, sys.txs, order)
  }

  // What one step adds to the order.
  ghost function Takes(pkce: Pkce, sys: Sys, i: nat, now: Time): seq<nat>
    requires i < |sys.txs| == |sys.held|
  {
    if !HasAnchor(sys.txs[i]) && HasAnchor(Step(pkce, sys, i, now).txs[i]) then [i] else []
  }

  lemma AdvanceLogs(sys: Sys, i: nat, next: Tx, order: seq<nat>, order': seq<nat>)
    requires LogsEnded(sys) && LoggedAs(sys.log, sys.txs, order) && i < |sys.txs| && !sys.txs[i].phase.Finished?
    requires order' == order || order' == order + [i]
    ensures LoggedAs(sys.log, sys.txs[i := next], order')
  {
    forall k | 0 <= k < |sys.log|
      ensures sys.log[k].id != i && (sys.log[k].id in order' <==> sys.log[k].id in order)
    {
      assert sys.txs[sys.log[k].id].phase.Finished?;
    }
  }

  lemma EndLogs(sys: Sys, i: nat, order: seq<nat>, c: Commit)
    requires LogsEnded(sys) && LoggedAs(sys.log, sys.txs, order) && i < |sys.txs| && !sys.txs[i].phase.Finished?
      && c.id == i
    requires if i in order then c == Commit(i, sys.txs[i].req, sys.txs[i].now, sys.txs[i].reply) else Quiet(c)
    ensures LoggedAs(sys.log + [c], Ended(sys.txs, i), order)
  {
    forall k | 0 <= k < |sys.log|
      ensures sys.log[k].id != i
    {
      assert sys.txs[sys.log[k].id].phase.Finished?;
    }
  }

  lemma AdvanceFollows(pkce: Pkce, init: P.Tables, sys: Sys, i: nat, now: Time, order: seq<nat>)
    requires Follows(pkce, init, sys, order) && i < |sys.txs|
    requires !Blocked(sys, i) && !sys.txs[i].phase.Finished? && !sys.txs[i].phase.Ready?
    requires Statement(pkce, sys.db, sys.txs[i], now).Some?
    ensures Follows(pkce, init, Step(pkce, sys, i, now), order + Takes(pkce, sys, i, now))
  {
    hide Informed, NewNames, Tracks, LoggedAs, Statement;
    AdvanceTracks(pkce, init, sys, i, now, order);
    Serializability.StepKeepsInv(pkce, init, sys, i, now);
    assert order + [] == order;
    AdvanceLogs(sys, i, Statement(pkce, sys.db, sys.txs[i], now).value, order, order + Takes(pkce, sys, i, now));
  }

  lemma EndFollows(pkce: Pkce, init: P.Tables, sys: Sys, i: nat, now: Time, order: seq<nat>)
    requires Follows(pkce, init, sys, order) && i < |sys.txs| && !Blocked(sys, i) && !sys.txs[i].phase.Finished?
    requires sys.txs[i].phase.Ready? || Statement(pkce, sys.db, sys.txs[i], now).None?
    ensures Follows(pkce, init, Step(pkce, sys, i, now), order)
  {
    var tx, next := sys.txs[i], Step(pkce, sys, i, now);
    Serializability.StepKeepsInv(pkce, init, sys, i, now);
    if tx.phase.Ready? {
      CommitTracks(pkce, init, sys, i, order);
    } else {
      EarlyEndTracks(pkce, init, sys, i, now, order);
    }
    EndLogs(sys, i, order, next.log[|sys.log|]);
    assert next.log == sys.log + [next.log[|sys.log|]];
  }

  lemma StepFollows(pkce: Pkce, init: P.Tables, sys: Sys, i: nat, now: Time, order: seq<nat>)
    requires Follows(pkce, init, sys, order) && i < |sys.txs|
    ensures Follows(pkce, init, Step(pkce, sys, i, now), order + Takes(pkce, sys, i, now))
  {
    assert order + [] == order;
    if !sys.txs[i].phase.Finished? && !Blocked(sys, i) {
      if sys.txs[i].phase.Ready? || Statement(pkce, sys.db, sys.txs[i], now).None? {
        EndFollows(pkce, init, sys, i, now, order);
      } else {
        AdvanceFollows(pkce, init, sys, i, now, order);
      }
    }
  }

  lemma {:induction false} ExecuteFollows(pkce: Pkce, init: P.Tables, sys: Sys, schedule: seq<(nat, Time)>,
                                          order: seq<nat>)
    requires |sys.txs| == |sys.held| && Follows(pkce, init, sys, order)
    requires forall k :: 0 <= k < |schedule| ==> schedule[k].0 < |sys.txs|
    ensures Follows(pkce, init, Execute(pkce, sys, schedule), order + Anchorings(pkce, sys, schedule))
    decreases |schedule|
  {
    hide Follows;
    if schedule == [] {
      assert order + [] == order;
    } else {
      var i, now := schedule[0].0, schedule[0].1;
      var next, taken := Step(pkce, sys, i, now), Takes(pkce, sys, i, now);
      StepFollows(pkce, init, sys, i, now, order);
      ExecuteFollows(pkce, init, next, schedule[1..], order + taken);
      assert order + taken + Anchorings(pkce, next, schedule[1..]) == order + Anchorings(pkce, sys, schedule);
    }
  }

  lemma LaunchFollows(pkce: Pkce, db: P.Tables, reqs: seq<Request>)
    requires Launchable(db, reqs)
    ensures Follows(pkce, db, Launch(db, reqs), [])
  {
    LaunchHoldsInv(pkce, db, reqs);
  }

  // --- The log in lock order ---

  ghost function EntriesOf(log: seq<Commit>, id: nat): seq<Commit> {
    if log == [] then [] else (if log[0].id == id then [log[0]] else []) + EntriesOf(log[1..], id)
  }

  // The logged transactions that took a first lock, in the order in which they took it.
  ghost function InLockOrder(log: seq<Commit>, order: seq<nat>): seq<Commit>
    decreases |order|
  {
    if order == [] then [] else InLockOrder(log, order[..|order| - 1]) + EntriesOf(log, order[|order| - 1])
  }

  ghost predicate OncePerId(log: seq<Commit>) {
    forall k, m :: 0 <= k < m < |log| ==> log[k].id != log[m].id
  }

  lemma {:induction false} NoEntry(log: seq<Commit>, id: nat)
    requires forall k :: 0 <= k < |log| ==> log[k].id != id
    ensures EntriesOf(log, id) == []
    decreases |log|
  {
    if log != [] { NoEntry(log[1..], id); }
  }

  lemma {:induction false} OneEntry(log: seq<Commit>, k: nat)
    requires OncePerId(log) && k < |log|
    ensures EntriesOf(log, log[k].id) == [log[k]]
    decreases |log|
  {
    if k == 0 {
      NoEntry(log[1..], log[0].id);
    } else {
      OneEntry(log[1..], k - 1);
    }
  }

  lemma EntryOf(log: seq<Commit>, txs: seq<Tx>, order: seq<nat>, id: nat)
    requires OncePerId(log) && LoggedAs(log, txs, order) && id in order && id < |txs|
    ensures if exists k :: 0 <= k < |log| && log[k].id == id
            then EntriesOf(log, id) == [Commit(id, txs[id].req, txs[id].now, txs[id].reply)]
              else EntriesOf(log, id) == []
  {
    if k :| 0 <= k < |log| && log[k].id == id {
      OneEntry(log, k);
    } else {
      NoEntry(log, id);
    }
  }

  // The next of the order, added to both forms of the replay.
  lemma LockOrderGrows(pkce: Pkce, init: P.Tables, sys: Sys, order: seq<nat>, p: nat)
    requires InRange(sys.txs, order) && OncePerId(sys.log) && LoggedAs(sys.log, sys.txs, order) && p < |order|
    requires Stands(pkce, init, sys.txs, order, p)
    requires sys.txs[order[p]].phase.Finished? <==> exists k :: 0 <= k < |sys.log| && sys.log[k].id == order[p]
    requires RunSerially(pkce, Core(init), InLockOrder(sys.log, order[..p]))
      == Replayed(pkce, init, sys.txs, order[..p])
    requires RepliesAreSerial(pkce, Core(init), InLockOrder(sys.log, order[..p]))
    ensures RunSerially(pkce, Core(init), InLockOrder(sys.log, order[..p + 1]))
      == Replayed(pkce, init, sys.txs, order[..p + 1])
    ensures RepliesAreSerial(pkce, Core(init), InLockOrder(sys.log, order[..p + 1]))
  {
    var id, front := order[p], InLockOrder(sys.log, order[..p]);
    ReplayNext(pkce, init, sys.txs, order, p);
    assert order[..p + 1][..p] == order[..p];
    assert InLockOrder(sys.log, order[..p + 1]) == front + EntriesOf(sys.log, id);
    EntryOf(sys.log, sys.txs, order, id);
    hide LoggedAs, OncePerId, RepliesAreSerial;
    if sys.txs[id].phase.Finished? {
      LogGrows(pkce, Core(init), front, Commit(id, sys.txs[id].req, sys.txs[id].now, sys.txs[id].reply));
    } else {
      assert front + [] == front;
    }
  }

  lemma FinishedIsLogged(sys: Sys, i: nat)
    requires LogsEnded(sys) && i < |sys.txs|
    ensures OncePerId(sys.log)
    ensures sys.txs[i].phase.Finished? <==> exists k :: 0 <= k < |sys.log| && sys.log[k].id == i
  {
  }

  // Replaying the log in lock order is the replay the invariant speaks of.
  lemma {:induction false} LockOrderIsReplay(pkce: Pkce, init: P.Tables, sys: Sys, order: seq<nat>, p: nat)
    requires Follows(pkce, init, sys, order) && p <= |order|
    ensures RunSerially(pkce, Core(init), InLockOrder(sys.log, order[..p])) == Replayed(pkce, init, sys.txs, order[..p])
    ensures RepliesAreSerial(pkce, Core(init), InLockOrder(sys.log, order[..p]))
    decreases p
  {
    if p > 0 {
      FinishedIsLogged(sys, order[p - 1]);
      assert Stands(pkce, init, sys.txs, order, p - 1);
      assert InRange(sys.txs, order) && LoggedAs(sys.log, sys.txs, order);
      hide Follows, LoggedAs, OncePerId, Stands, RepliesAreSerial;
      LockOrderIsReplay(pkce, init, sys, order, p - 1);
      LockOrderGrows(pkce, init, sys, order, p - 1);
    }
  }

  lemma RepliesWithClients(pkce: Pkce, db: P.Tables, log: seq<Commit>)
    requires RepliesAreSerial(pkce, Core(db), log)
    ensures RepliesAreSerial(pkce, db, log)
  {
    forall k | 0 <= k < |log|
      ensures log[k].reply == Serial(pkce, RunSerially(pkce, db, log[..k]), log[k].req, log[k].now).reply
    {
      CoreOfRun(pkce, db, log[..k]);
      CoreIgnoresClients(pkce, RunSerially(pkce, db, log[..k]), log[k].req, log[k].now);
    }
  }

  lemma {:induction false} InLockOrderHolds(log: seq<Commit>, order: seq<nat>, c: Commit)
    requires OncePerId(log)
    ensures c in InLockOrder(log, order) <==> c in log && c.id in order
    decreases |order|
  {
    if order != [] {
      var n := |order| - 1;
      InLockOrderHolds(log, order[..n], c);
      assert order == order[..n] + [order[n]];
      if k :| 0 <= k < |log| && log[k].id == order[n] {
        OneEntry(log, k);
      } else {
        NoEntry(log, order[n]);
      }
    }
  }

  // Every run, replayed in the order in which its transactions took their first code or
  // family lock, gives the same replies and the same rows in every table but clients.
  // Transactions that ended without such a lock were refused or only looked up.
  lemma {:induction false} EveryRunIsSerialInLockOrder(pkce: Pkce, db: P.Tables, reqs: seq<Request>,
                                                       schedule: seq<(nat, Time)>)
    requires Launchable(db, reqs)
    requires forall k :: 0 <= k < |schedule| ==> schedule[k].0 < |reqs|
    ensures var end, order := Execute(pkce, Launch(db, reqs), schedule), Anchorings(pkce, Launch(db, reqs), schedule);
            var replay := InLockOrder(end.log, order);
            && RepliesAreSerial(pkce, db, replay)
            && Core(RunSerially(pkce, db, replay)) == Core(end.db)
            && (forall c :: c in replay <==> c in end.log && c.id in order)
            && (forall c :: c in end.log && c.id !in order ==> Quiet(c))
  {
    var start := Launch(db, reqs);
    var end, order := Execute(pkce, start, schedule), Anchorings(pkce, start, schedule);
    hide Follows, Launchable, RepliesAreSerial, Execute, Anchorings;
    LaunchFollows(pkce, db, reqs);
    ExecuteFollows(pkce, db, start, schedule, []);
    assert [] + order == order;
    FollowedLog(pkce, db, end, order);
  }

  lemma FollowedLog(pkce: Pkce, init: P.Tables, sys: Sys, order: seq<nat>)
    requires Follows(pkce, init, sys, order)
    ensures var replay := InLockOrder(sys.log, order);
            && RepliesAreSerial(pkce, init, replay)
            && Core(RunSerially(pkce, init, replay)) == Core(sys.db)
            && (forall c :: c in replay <==> c in sys.log && c.id in order)
            && (forall c :: c in sys.log && c.id !in order ==> Quiet(c))
  {
    LockOrderIsReplay(pkce, init, sys, order, |order|);
    assert order[..|order|] == order;
    assert OncePerId(sys.log) && Replayed(pkce, init, sys.txs, order) == Core(sys.db);
    assert forall c :: c in sys.log && c.id !in order ==> Quiet(c);
    hide Follows, OncePerId, RepliesAreSerial;
    RepliesWithClients(pkce, init, InLockOrder(sys.log, order));
    CoreOfRun(pkce, init, InLockOrder(sys.log, order));
    forall c
      ensures c in InLockOrder(sys.log, order) <==> c in sys.log && c.id in order
    {
      InLockOrderHolds(sys.log, order, c);
    }
  }
}
