/** Cancel everything, close everything, and reach a target position. */
module OrderServices {
  import opened Rounding
  import opened Sums
  import opened Rows
  import opened Positions
  import opened Funds
  import opened Books
  import opened Ledger
  import opened LedgerProofs
  import opened Sequential
  import opened Leaks
  import opened Validation
  import opened Reversal
  import opened SandboxService
  import opened Squareoff
  import opened OverdueRows

  // ----- cancel all -----

  function CancellableIds(b: Books, u: UserId): (ids: set<OrderId>)
    ensures ids <= b.orders.Keys
  {
    set id | id in b.orders && Cancellable(b, u, id)
  }

  lemma CancelNowEffect(b: Books, initialised: bool, u: UserId, id: OrderId)
    requires Cancellable(b, u, id)
    ensures var o := b.orders[id];
            CancelNow(Quiet(b, initialised), u, id).db ==
            ReleaseTx(b.(orders := b.orders[id := o.(status := CANCELLED)]), u, o.margin, 0)
  {
  }

  lemma CancelNowKeepsLedger(b: Books, initialised: bool, u: UserId, id: OrderId)
    ensures SameLedger(b, CancelNow(Quiet(b, initialised), u, id).db)
  {
    if GoodLedger(b) {
      var w := Quiet(b, initialised);
      var w1 := Do(w, Cancel(u, id));
      var v := Do(w1, ReleaseStep(0));
      QuietInv(b, initialised);
      forall x ensures Leak(Quiet(v.db, true), x) == Leak(Quiet(b, true), x) && Leak(Quiet(v.db, true), x) >= 0
                       && Equity(FundOf(v.db, x)) == Equity(FundOf(b, x)) {
        StepBoth(w, Cancel(u, id), x);
        StepKeepsEquity(w, Cancel(u, id), x);
        StepBoth(w1, ReleaseStep(0), x);
        StepKeepsEquity(w1, ReleaseStep(0), x);
        QuietTasks(v, x);
        IdleLeak(b, initialised, x);
        assert Leak(Quiet(b, true), x) >= 0;
      }
      StepBoth(w, Cancel(u, id), 0);
      StepBoth(w1, ReleaseStep(0), 0);
    }
  }

  lemma QuietTasks(v: World, u: UserId)
    requires v.tasks == [] || v.tasks == [Idle]
    ensures Leak(v, u) == Leak(Quiet(v.db, true), u)
  {
    if v.tasks != [] {
      IdleLeak(v.db, v.initialised, u);
      assert v == World(v.db, v.initialised, [Idle]);
    } else {
      IdleLeak(v.db, v.initialised, u);
      assert v == Quiet(v.db, v.initialised);
    }
  }

  ghost predicate CancelledSoFar(b: Books, c: Books, u: UserId, ids: set<OrderId>) {
    && c == b.(orders := c.orders, funds := c.funds)
    && c.orders.Keys == b.orders.Keys
    && (forall id :: id in b.orders ==>
          c.orders[id] ==
          if id in ids && Cancellable(b, u, id) then b.orders[id].(status := CANCELLED) else b.orders[id])
  }

  /** Cancel every pending order of a user: none stays pending, every other order is as it was, and the
      margin they held is back in cash. */
  method CancelAllOrders(db: Sandbox, u: UserId) returns (cancelled: seq<OrderId>)
    modifies db`orders, db`funds
    ensures forall id :: id in cancelled <==> id in old(CancellableIds(db.Snapshot(), u))
    ensures CancelledSoFar(old(db.Snapshot()), db.Snapshot(), u, old(CancellableIds(db.Snapshot(), u)))
    ensures SameLedger(old(db.Snapshot()), db.Snapshot())
    ensures GoodLedger(old(db.Snapshot())) ==>
              && PendingMargin(db.Snapshot(), u) == 0
              && FundOf(db.Snapshot(), u).used ==
                 FundOf(old(db.Snapshot()), u).used - PendingMargin(old(db.Snapshot()), u)
  {
    ghost var b := db.Snapshot();
    ghost var all := CancellableIds(b, u);
    var rows := Enumerate<OrderId>(CancellableIds(db.Snapshot(), u));
    assert forall j :: 0 <= j < |rows| ==> rows[j] in rows;
    cancelled := [];
    ghost var done: set<OrderId> := {};
    for i := 0 to |rows|
      invariant cancelled == rows[..i]
      invariant forall j :: 0 <= j < |rows| ==> (rows[j] in done <==> j < i)
      invariant done <= all
      invariant CancelledSoFar(b, db.Snapshot(), u, done)
      invariant SameLedger(b, db.Snapshot())
    {
      var ok := CancelNext(db, u, rows[i], b, done);
      if ok {
        cancelled := cancelled + [rows[i]];
      }
      done := done + {rows[i]};
    }
    assert rows[..|rows|] == rows;
    assert done == all;
    AllCancelled(b, db.Snapshot(), u);
  }

  /** One turn of the loop: the order is still there to cancel, whatever was cancelled before it. */
  method CancelNext(db: Sandbox, u: UserId, id: OrderId, ghost b: Books, ghost done: set<OrderId>) returns (ok: bool)
    requires CancelledSoFar(b, db.Snapshot(), u, done) && SameLedger(b, db.Snapshot())
    requires id in CancellableIds(b, u) && id !in done
    modifies db`orders, db`funds
    ensures ok && CancelledSoFar(b, db.Snapshot(), u, done + {id}) && SameLedger(b, db.Snapshot())
  {
    CancelOneMore(b, db.Snapshot(), db.initialised, u, done, id);
    ok := db.CancelOrderAndRelease(u, id);
  }

  lemma CancelOneMore(b: Books, c: Books, initialised: bool, u: UserId, done: set<OrderId>, id: OrderId)
    requires CancelledSoFar(b, c, u, done) && SameLedger(b, c)
    requires id in CancellableIds(b, u) && id !in done
    ensures Cancellable(c, u, id)
    ensures var d := CancelNow(Quiet(c, initialised), u, id).db;
            CancelledSoFar(b, d, u, done + {id}) && SameLedger(b, d)
  {
    assert c.orders[id] == b.orders[id];
    CancelNowEffect(c, initialised, u, id);
    CancelNowKeepsLedger(c, initialised, u, id);
  }

  lemma AllCancelled(b: Books, c: Books, u: UserId)
    requires CancelledSoFar(b, c, u, CancellableIds(b, u)) && SameLedger(b, c)
    ensures GoodLedger(b) ==> PendingMargin(c, u) == 0 && FundOf(c, u).used == FundOf(b, u).used - PendingMargin(b, u)
  {
    if GoodLedger(b) {
      forall id | id in c.orders ensures !Cancellable(c, u, id) {
        assert id in b.orders;
      }
      NonePending(c, u);
      assert Leak(Quiet(c, true), u) == Leak(Quiet(b, true), u);
    }
  }

  lemma NonePending(b: Books, u: UserId)
    requires forall id :: id in b.orders ==> !Cancellable(b, u, id)
    ensures PendingMargin(b, u) == 0
  {
    ZeroTotal(b.orders, PendingMarginOf(u));
  }

  lemma {:induction false} ZeroTotal(m: map<OrderId, Order>, f: (OrderId, Order) -> int)
    requires forall k :: k in m ==> f(k, m[k]) == 0
    ensures Total(m, f) == 0
    decreases |m|
  {
    if m != map[] {
      var k :| k in m;
      TotalRemove(m, f, k);
      ZeroTotal(m - {k}, f);
    }
  }

  // ----- target position -----

  /** A placement that fills moves the position by the whole order, unless the fill rolls back; one that does
      not fill moves nothing. */
  lemma PlacedNet(b: Books, initialised: bool, request: Order, reference: int, leverage: Leverage, id: OrderId,
    ltp: int)
    requires Placeable(Quiet(b, initialised), request, id)
    ensures var v := PlaceNow(Quiet(b, initialised), request, reference, leverage, id, ltp);
            && id in v.db.orders
            && PositionOf(v.db, request.key).net ==
               PositionOf(b, request.key).net +
               if v.db.orders[id].status != COMPLETE
                  || (!initialised && Raises(PositionOf(b, request.key), request.action, request.quantity))
               then 0 else Signed(request.action, request.quantity)
  {
    var w := Quiet(b, initialised);
    CreatedTask(w, request, reference, leverage, id, ltp);
    CreatedOrder(w, request, reference, leverage, id, ltp);
    FilledNet(CreatedWorld(w, request, reference, leverage, id, ltp), request, id);
  }

  lemma CreatedOrder(w: World, request: Order, reference: int, leverage: Leverage, id: OrderId, ltp: int)
    requires Placeable(w, request, id)
    ensures var v := CreatedWorld(w, request, reference, leverage, id, ltp);
            id in v.db.orders && v.db.orders[id].status != COMPLETE
  {
    var i := |w.tasks|;
    var w1 := Do(w, Place(request, reference, leverage));
    assert w1.tasks[i].Sized?;
    var w2 := Do(w1, BlockStep(i));
    assert w2.tasks[i].Blocked? || w2.tasks[i].Refused?;
  }

  lemma FilledNet(v: World, request: Order, id: OrderId)
    requires |v.tasks| == 1 && request.quantity > 0
    requires id in v.db.orders && v.db.orders[id].status != COMPLETE
    requires v.tasks[0] == Idle || (v.tasks[0].Attempt? && v.tasks[0].id == id && v.tasks[0].copy == v.db.orders[id]
                                    && v.db.orders[id] ==
                                       NewOrder(request, v.db.orders[id].margin, InitialStatus(request.pricetype)))
    ensures var c := FillNow(v, 0).db;
            && id in c.orders
            && PositionOf(c, request.key).net ==
               PositionOf(v.db, request.key).net +
               if c.orders[id].status != COMPLETE
                  || (!v.initialised && Raises(PositionOf(v.db, request.key), request.action, request.quantity))
               then 0 else Signed(request.action, request.quantity)
  {
    var x := Do(v, TryFill(0));
    assert x.db.positions == v.db.positions && x.initialised == v.initialised;
    if x.tasks[0].Filled? {
      TriedOrder(v, request, id);
      AppliedNet(x, request);
    } else {
      assert x.tasks[0] == Idle;
    }
  }

  lemma TriedOrder(v: World, request: Order, id: OrderId)
    requires |v.tasks| == 1 && v.tasks[0].Attempt? && v.tasks[0].id == id
    requires id in v.db.orders && v.tasks[0].copy == v.db.orders[id]
    requires v.db.orders[id] == NewOrder(request, v.db.orders[id].margin, InitialStatus(request.pricetype))
    requires Do(v, TryFill(0)).tasks[0].Filled?
    ensures var x := Do(v, TryFill(0));
            && id in x.db.orders && x.db.orders[id].status == COMPLETE
            && x.tasks[0].copy.key == request.key && x.tasks[0].copy.action == request.action
            && x.tasks[0].quantity == request.quantity
  {
  }

  lemma AppliedNet(x: World, request: Order)
    requires |x.tasks| == 1 && x.tasks[0].Filled? && request.quantity > 0
    requires x.tasks[0].copy.key == request.key && x.tasks[0].copy.action == request.action
             && x.tasks[0].quantity == request.quantity
    ensures var y := Do(Do(x, ApplyStep(0)), ReleaseStep(0));
            && y.db.orders == x.db.orders
            && PositionOf(y.db, request.key).net ==
               PositionOf(x.db, request.key).net +
               if !x.initialised && Raises(PositionOf(x.db, request.key), request.action, request.quantity)
               then 0 else Signed(request.action, request.quantity)
  {
    var t := x.tasks[0];
    var y := Do(x, ApplyStep(0));
    assert Do(y, ReleaseStep(0)).db.positions == y.db.positions;
    var tx := ApplyFillTx(x.db, x.initialised, request.key, request.action, request.quantity, t.price, t.copy.margin);
    if tx.Some? {
      assert y.db == tx.value.0;
      assert y.db.positions == x.db.positions[request.key := tx.value.1.pos];
    }
  }

  /** Bring a position to a signed target with one order: when that order completes, the position is at the
      target, except that the shipped fill cannot add to an open row. */
  method PlaceSmartOrder(db: Sandbox, env: Env, order: Order, target: int) returns (r: Option<PlaceOutcome>)
    requires db.Valid()
    modifies db
    ensures db.Valid()
    ensures r == None <==> old(PositionOf(db.Snapshot(), order.key).net) == target
    ensures r == None ==> db.Snapshot() == old(db.Snapshot())
    ensures r != None && old(db.nextId) in db.orders && db.orders[old(db.nextId)].status == COMPLETE
            && (db.initialised || !Raises(old(PositionOf(db.Snapshot(), order.key)),
               if target > old(PositionOf(db.Snapshot(), order.key).net) then BUY else SELL, 1))
            ==> PositionOf(db.Snapshot(), order.key).net == target
  {
    var current := if order.key in db.positions then db.positions[order.key].net else 0;
    var delta := target - current;
    if delta == 0 {
      return None;
    }
    var request := order.(action := if delta > 0 then BUY else SELL, quantity := Abs(delta));
    ghost var b, id := db.Snapshot(), db.nextId;
    SmartNet(b, db.initialised, env, request, id);
    var outcome, orderId := db.PlaceOrder(env, request);
    return Some(outcome);
  }

  lemma SmartNet(b: Books, initialised: bool, env: Env, request: Order, id: OrderId)
    requires (request.action == BUY || request.action == SELL) && request.quantity > 0 && id !in b.orders
    ensures var c := PlaceOrderSpec(b, initialised, env, request, id).db;
            id in c.orders && c.orders[id].status == COMPLETE
            && (initialised || !Raises(PositionOf(b, request.key), request.action, request.quantity))
            ==> PositionOf(c, request.key).net - PositionOf(b, request.key).net
                == Signed(request.action, request.quantity)
  {
    match Validate(b, env, request)
    case Fails(_) =>
    case Passes(info) =>
      var ltp := Ltp(env, request.key.inst);
      var market := request.pricetype == MARKET || request.pricetype == SLM;
      if !(market && ltp.None?) {
        var reference := if market then ltp.value else request.price;
        PlacedNet(b, initialised, request, reference,
          LeverageFor(env, request, InstrumentType(info, request.key.inst)), id, Get(ltp, 0));
      }
  }

  // ----- close all -----

  /** The listing first settles every expired contract, at its own price and outside the order path; what is
      still open is then flattened with reverse orders. */
  method CloseAllPositions(db: Sandbox, u: UserId, env: Env, expired: set<PosKey>)
    returns (closed: seq<OrderId>, ghost settled: Books)
    requires db.Valid()
    modifies db
    ensures db.Valid()
    ensures Settled(old(db.Snapshot()), settled, env, expired)
    ensures Flattened(settled, db.Snapshot(), u, env, closed) && SameLedger(settled, db.Snapshot())
    ensures forall k :: k in db.positions ==> !ExpiredContract(k, db.positions[k], expired)
    ensures forall k :: k in db.positions && k.user == u && Reversible(settled, env, k) ==> db.positions[k].net == 0
  {
    var _ := CloseExpired(db, env, expired);
    settled := db.Snapshot();
    closed := ReverseListed(db, u, env);
  }
}
