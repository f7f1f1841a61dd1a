/** One pass of the engine over the pending orders at a new last price. */
module Engine {
  import opened Rounding
  import opened Sums
  import opened Rows
  import opened Positions
  import opened Funds
  import opened Books
  import opened Ledger
  import opened LedgerProofs
  import opened OrderLife
  import opened Sequential
  import opened Placement
  import opened SandboxService
  import opened Squareoff

  /** The last price is at least as good for the order as its limit. */
  predicate WithinLimit(o: Order, ltp: int) {
    match o.action
    case BUY => ltp <= o.price
    case SELL => ltp >= o.price
    case OtherAction(_) => false
  }

  /** A limit is never crossed against the order, every stop waits for its trigger, and an order whose
      conditions are met does fill. */
  lemma FillPriceIsFair(o: Order, ltp: int)
    requires o.action == BUY || o.action == SELL
    ensures FillPrice(o, ltp).Some? <==>
            && ltp > 0 && !o.pricetype.OtherType?
            && (o.pricetype == LIMIT || o.pricetype == SL ==> WithinLimit(o, ltp))
            && (o.pricetype == SL || o.pricetype == SLM ==>
               if o.action == BUY then ltp >= o.trigger else ltp <= o.trigger)
    ensures FillPrice(o, ltp).Some? ==>
            var price := FillPrice(o, ltp).value;
            && (price == ltp || price == o.price)
            && (o.pricetype == LIMIT || o.pricetype == SL ==> price == o.price)
            && (o.pricetype == MARKET || o.pricetype == SLM ==> price == ltp)
            && (o.action == BUY && o.pricetype != MARKET && o.pricetype != SLM ==> ltp <= price)
            && (o.action == SELL && o.pricetype != MARKET && o.pricetype != SLM ==> price <= ltp)
  {
  }

  predicate Fillable(o: Order, inst: Instrument, ltp: int) {
    o.key.inst == inst && Pending(o) && o.quantity > o.filled && FillPrice(o, ltp).Some?
  }

  /** What one tick should make of an order row. */
  function AfterTick(o: Order, inst: Instrument, ltp: int): Order {
    if Fillable(o, inst, ltp) then FilledOrder(o, o.quantity - o.filled, FillPrice(o, ltp).value) else o
  }

  function Trying(b: Books, initialised: bool, id: OrderId, ltp: int): World
    requires id in b.orders
  {
    World(b, initialised, [Attempt(id, b.orders[id], ltp)])
  }

  lemma TriedOrders(b: Books, initialised: bool, id: OrderId, ltp: int)
    requires id in b.orders
    ensures FillNow(Trying(b, initialised, id, ltp), 0).db.orders ==
            b.orders[id := AfterTick(b.orders[id], b.orders[id].key.inst, ltp)]
  {
    var w := Trying(b, initialised, id, ltp);
    var x := Do(w, TryFill(0));
    TryFillOrders(b, initialised, id, ltp);
    var y := Do(x, ApplyStep(0));
    OthersKeepOrders(x, ApplyStep(0));
    OthersKeepOrders(y, ReleaseStep(0));
  }

  lemma TryFillOrders(b: Books, initialised: bool, id: OrderId, ltp: int)
    requires id in b.orders
    ensures Do(Trying(b, initialised, id, ltp), TryFill(0)).db.orders ==
            b.orders[id := AfterTick(b.orders[id], b.orders[id].key.inst, ltp)]
  {
    var o := b.orders[id];
    assert b.orders[id := o] == b.orders;
  }

  /** A try keeps the ledger good and every user's equity, though it may leak. */
  lemma TryKeepsLedger(b: Books, initialised: bool, id: OrderId, ltp: int)
    requires GoodLedger(b) && id in b.orders
    ensures var c := FillNow(Trying(b, initialised, id, ltp), 0).db;
            GoodLedger(c) && forall u :: Equity(FundOf(c, u)) == Equity(FundOf(b, u))
  {
    var w := Trying(b, initialised, id, ltp);
    var x := Do(w, TryFill(0));
    var y := Do(x, ApplyStep(0));
    var z := Do(y, ReleaseStep(0));
    TryingInv(b, initialised, id, ltp);
    FillNowIsQuiet(w);
    forall u ensures Leak(Quiet(z.db, true), u) >= 0 && Equity(FundOf(z.db, u)) == Equity(FundOf(b, u)) {
      StepKeepsEquity(w, TryFill(0), u);
      StepKeepsEquity(x, ApplyStep(0), u);
      StepKeepsEquity(y, ReleaseStep(0), u);
      IdleLeak(z.db, initialised, u);
      assert z == World(z.db, initialised, [Idle]);
    }
    StepKeepsEquity(w, TryFill(0), 0);
    StepKeepsEquity(x, ApplyStep(0), 0);
    StepKeepsEquity(y, ReleaseStep(0), 0);
  }

  lemma TryingInv(b: Books, initialised: bool, id: OrderId, ltp: int)
    requires GoodLedger(b) && id in b.orders
    ensures Inv(Trying(b, initialised, id, ltp))
  {
    var w := Trying(b, initialised, id, ltp);
    forall u ensures Leak(w, u) >= 0 {
      OneTask(w.tasks[0], u);
      assert Leak(Quiet(b, true), u) >= 0;
    }
  }

  /** The database after the listed copies are tried in turn, each on what the ones before it left. */
  function TryAll(b: Books, initialised: bool, ids: seq<OrderId>, ltp: int): Books {
    if ids == [] then b
    else
      var c, id := TryAll(b, initialised, ids[..|ids| - 1], ltp), ids[|ids| - 1];
      if id in b.orders then TriedTx(c, initialised, id, b.orders[id], ltp) else c
  }

  /** After trying these orders: each is as the tick should make it, every other order is as it was, and the
      ledger is still good with every user's equity kept. */
  ghost predicate TickSoFar(b: Books, c: Books, initialised: bool, inst: Instrument, ltp: int, tried: seq<OrderId>) {
    && c == TryAll(b, initialised, tried, ltp)
    && c.orders.Keys == b.orders.Keys
    && (forall id :: id in b.orders ==>
          c.orders[id] == if id in tried then AfterTick(b.orders[id], inst, ltp) else b.orders[id])
    && (GoodLedger(b) ==> GoodLedger(c) && forall u :: Equity(FundOf(c, u)) == Equity(FundOf(b, u)))
  }

  /** The listed orders of the instrument, each once. */
  predicate Tried(b: Books, inst: Instrument, tried: seq<OrderId>) {
    && (forall i, j :: 0 <= i < j < |tried| ==> tried[i] != tried[j])
    && (forall id :: id in tried ==> id in b.orders && Pending(b.orders[id]) && b.orders[id].key.inst == inst)
  }

  lemma TryOneMore(b: Books, initialised: bool, tried: seq<OrderId>, id: OrderId, ltp: int)
    requires id in b.orders
    ensures TryAll(b, initialised, tried + [id], ltp) ==
            TriedTx(TryAll(b, initialised, tried, ltp), initialised, id, b.orders[id], ltp)
  {
    assert (tried + [id])[..|tried|] == tried;
  }

  lemma TriedOneMore(b: Books, inst: Instrument, tried: seq<OrderId>, id: OrderId)
    requires Tried(b, inst, tried) && id !in tried
    requires id in b.orders && Pending(b.orders[id]) && b.orders[id].key.inst == inst
    ensures Tried(b, inst, tried + [id])
    ensures forall x :: x in tried + [id] <==> x in tried || x == id
  {
  }

  /** One listed order, tried from its listed copy. */
  method TryListed(db: Sandbox, id: OrderId, copy: Order, inst: Instrument, ltp: int, ghost b: Books,
                   ghost tried: seq<OrderId>)
    returns (r: TryOutcome)
    requires id in b.orders && copy == b.orders[id] && Pending(copy) && copy.key.inst == inst
    requires id !in tried && Tried(b, inst, tried)
    requires TickSoFar(b, db.Snapshot(), db.initialised, inst, ltp, tried)
    modifies db`funds, db`positions, db`orders, db`trades
    ensures TickSoFar(b, db.Snapshot(), db.initialised, inst, ltp, tried + [id])
    ensures Tried(b, inst, tried + [id]) && forall x :: x in tried + [id] <==> x in tried || x == id
    ensures r == Broke ==> !db.initialised
  {
    ghost var c := db.Snapshot();
    TryOneMore(b, db.initialised, tried, id, ltp);
    TriedOneMore(b, inst, tried, id);
    TriedOrders(c, db.initialised, id, ltp);
    if GoodLedger(b) {
      TryKeepsLedger(c, db.initialised, id, ltp);
    }
    TriedIsFillNow(c, db.initialised, id, copy, ltp);
    r := db.TryFillOrder(id, copy, ltp);
  }

  /** A tick: every pending order on the instrument whose condition it meets is filled, once and in whole,
      and no other order changes; the whole database is what trying those orders in turn leaves. A fill that
      raises ends the pass where it stands. */
  method OnTick(db: Sandbox, inst: Instrument, ltp: int) returns (broke: bool, ghost tried: seq<OrderId>)
    modifies db`funds, db`positions, db`orders, db`trades
    ensures Tried(old(db.Snapshot()), inst, tried)
    ensures TickSoFar(old(db.Snapshot()), db.Snapshot(), db.initialised, inst, ltp, tried)
    ensures broke ==> !db.initialised
    ensures !broke ==> forall id :: id in old(db.orders) && Fillable(old(db.orders)[id], inst, ltp) ==> id in tried
  {
    ghost var b := db.Snapshot();
    tried := [];
    if ltp <= 0 {
      return false, [];
    }
    var listed := db.orders;
    var pending := Enumerate<OrderId>(set id | id in listed && Pending(listed[id]));
    forall j | 0 <= j < |pending| ensures pending[j] in listed && Pending(listed[pending[j]]) {
      assert pending[j] in pending;
    }
    for i := 0 to |pending|
      invariant forall j :: i <= j < |pending| ==> pending[j] !in tried
      invariant forall j :: 0 <= j < i && listed[pending[j]].key.inst == inst ==> pending[j] in tried
      invariant Tried(b, inst, tried) && TickSoFar(b, db.Snapshot(), db.initialised, inst, ltp, tried)
    {
      var id := pending[i];
      if listed[id].key.inst != inst { continue; }
      var r := TryListed(db, id, listed[id], inst, ltp, b, tried);
      tried := tried + [id];
      if r == Broke {
        return true, tried;
      }
    }
    broke := false;
    forall id | id in listed && Fillable(listed[id], inst, ltp) ensures id in tried {
      assert id in pending;
    }
  }
}
