/** The life of an order over any run: pending, then closed once and for good; a trade only for a fill. */
module OrderLife {
  import opened Sums
  import opened Rows
  import opened Positions
  import opened Books
  import opened Ledger
  import opened LedgerProofs

  function CountOf(id: OrderId): Trade -> int { (t: Trade) => if t.orderId == id then 1 else 0 }

  function QuantityOf(id: OrderId): Trade -> int { (t: Trade) => if t.orderId == id then t.quantity else 0 }

  function TradeCount(b: Books, id: OrderId): int { SeqTotal(b.trades, CountOf(id)) }

  function TradedQuantity(b: Books, id: OrderId): int { SeqTotal(b.trades, QuantityOf(id)) }

  /** A complete order has one trade, for all of it; no other order has any. */
  predicate LifeOk(b: Books, id: OrderId) {
    if id in b.orders && b.orders[id].status == COMPLETE then
      && TradeCount(b, id) == 1
      && TradedQuantity(b, id) == b.orders[id].filled == b.orders[id].quantity
    else
      && TradeCount(b, id) == 0 && TradedQuantity(b, id) == 0
      && (id in b.orders ==> b.orders[id].filled == 0)
  }

  ghost predicate LifeInv(w: World) {
    forall id :: LifeOk(w.db, id)
  }

  /** An order that is no longer pending never changes again, in any column. */
  lemma {:induction false} SweepFreezes(b: Books, exchanges: set<Exchange>, ids: seq<OrderId>, id: OrderId)
    requires id in b.orders
    ensures var c := SweepTx(b, exchanges, ids).0;
            && id in c.orders && c.trades == b.trades
            && (!Pending(b.orders[id]) ==> c.orders[id] == b.orders[id])
            && (c.orders[id] == b.orders[id] ||
                (Sweepable(b.orders[id], exchanges) && c.orders[id] == b.orders[id].(status := CANCELLED, margin := 0)))
  {
    if ids != [] {
      SweepFreezes(b, exchanges, ids[..|ids| - 1], id);
    }
  }

  lemma {:induction false} SweepAddsNone(b: Books, exchanges: set<Exchange>, ids: seq<OrderId>)
    ensures var c := SweepTx(b, exchanges, ids).0;
            c.orders.Keys == b.orders.Keys && c.trades == b.trades
  {
    if ids != [] {
      SweepAddsNone(b, exchanges, ids[..|ids| - 1]);
    }
  }

  lemma {:induction false} CloseKeepsOrders(b: Books, closes: seq<(PosKey, int)>)
    ensures CloseTx(b, closes).0.orders == b.orders && CloseTx(b, closes).0.trades == b.trades
  {
    if closes != [] {
      CloseKeepsOrders(b, closes[..|closes| - 1]);
    }
  }

  lemma {:induction false} SettleKeepsOrders(b: Books, keys: seq<PosKey>)
    ensures SettleTx(b, keys).0.orders == b.orders && SettleTx(b, keys).0.trades == b.trades
  {
    if keys != [] {
      SettleKeepsOrders(b, keys[..|keys| - 1]);
    }
  }

  lemma ClosedStepFrozen(w: World, e: Event, id: OrderId)
    requires id in w.db.orders && !Pending(w.db.orders[id])
    ensures id in Do(w, e).db.orders && Do(w, e).db.orders[id] == w.db.orders[id]
  {
    match e
    case Sweep(exchanges, ids) => SweepFreezes(w.db, exchanges, ids, id);
    case Close(closes) => CloseKeepsOrders(w.db, closes);
    case Settle(keys) => SettleKeepsOrders(w.db, keys);
    case _ =>
  }

  /** Complete, cancelled and rejected are absorbing. */
  lemma {:induction false} ClosedIsForGood(w: World, es: seq<Event>, id: OrderId)
    requires id in w.db.orders && !Pending(w.db.orders[id])
    ensures id in Run(w, es).db.orders && Run(w, es).db.orders[id] == w.db.orders[id]
  {
    if es != [] {
      ClosedIsForGood(w, es[..|es| - 1], id);
      ClosedStepFrozen(Run(w, es[..|es| - 1]), es[|es| - 1], id);
    }
  }

  /** The step takes the order out of the pending bucket. */
  predicate Leaves(w: World, e: Event, id: OrderId) {
    && id in w.db.orders && Pending(w.db.orders[id])
    && !(id in Do(w, e).db.orders && Pending(Do(w, e).db.orders[id]))
  }

  function LeavesIn(w: World, es: seq<Event>, id: OrderId): nat {
    if es == [] then 0
    else LeavesIn(w, es[..|es| - 1], id) + if Leaves(Run(w, es[..|es| - 1]), es[|es| - 1], id) then 1 else 0
  }

  lemma LifeStepOne(w: World, e: Event, id: OrderId)
    requires LifeOk(w.db, id)
    ensures LifeOk(Do(w, e).db, id)
  {
    match e
    case Sweep(exchanges, ids) =>
      SweepAddsNone(w.db, exchanges, ids);
      if id in w.db.orders {
        SweepFreezes(w.db, exchanges, ids, id);
      }
    case Close(closes) => CloseKeepsOrders(w.db, closes);
    case Settle(keys) => SettleKeepsOrders(w.db, keys);
    case TryFill(i) => TryFillLife(w, i, id);
    case CreateStep(i, oid, ltp) => CreateLife(w, i, oid, ltp, id);
    case Cancel(u, oid) => CancelLife(w, u, oid, id);
    case Modify(u, oid, c) => ModifyLife(w, u, oid, c, id);
    case Reject(_, _) =>
    case _ => OthersKeepOrders(w, e);
  }

  /** The remaining events write neither table. */
  lemma OthersKeepOrders(w: World, e: Event)
    requires e.Place? || e.BlockStep? || e.Scan? || e.ApplyStep? || e.ReleaseStep? || e.BookStep? || e.TransferStep?
             || e.Mark?
    ensures Do(w, e).db.orders == w.db.orders && Do(w, e).db.trades == w.db.trades
  {
  }

  lemma CreateLife(w: World, i: nat, oid: OrderId, ltp: int, id: OrderId)
    requires LifeOk(w.db, id)
    ensures LifeOk(DoCreate(w, i, oid, ltp).db, id)
  {
  }

  lemma CancelLife(w: World, u: UserId, oid: OrderId, id: OrderId)
    requires LifeOk(w.db, id)
    ensures LifeOk(DoCancel(w, u, oid).db, id)
  {
  }

  lemma ModifyLife(w: World, u: UserId, oid: OrderId, c: Change, id: OrderId)
    requires LifeOk(w.db, id)
    ensures LifeOk(DoModify(w, u, oid, c).db, id)
  {
  }

  lemma TryFillLife(w: World, i: nat, id: OrderId)
    requires LifeOk(w.db, id)
    ensures LifeOk(Do(w, TryFill(i)).db, id)
  {
    if TaskAt(w, i).Attempt? {
      var Attempt(oid, copy, ltp) := w.tasks[i];
      var price := FillPrice(copy, ltp);
      if price.Some? {
        FillLife(w.db, copy.key.user, oid, price.value, id);
      }
    }
  }

  lemma FillLife(b: Books, u: UserId, oid: OrderId, price: int, id: OrderId)
    requires LifeOk(b, id)
    ensures FillTx(b, u, oid, price).Some? ==> LifeOk(FillTx(b, u, oid, price).value.0, id)
  {
    if FillTx(b, u, oid, price).Some? {
      var t := FillTx(b, u, oid, price).value.1;
      SeqTotalPush(b.trades, CountOf(id), t);
      SeqTotalPush(b.trades, QuantityOf(id), t);
    }
  }

  lemma {:induction false} RunLife(w: World, es: seq<Event>)
    requires LifeInv(w)
    ensures LifeInv(Run(w, es))
  {
    if es != [] {
      RunLife(w, es[..|es| - 1]);
      var v := Run(w, es[..|es| - 1]);
      var b := Do(v, es[|es| - 1]).db;
      forall id ensures LifeOk(b, id) { LifeStepOne(v, es[|es| - 1], id); }
    }
  }

  lemma {:induction false} LeavesAtMostOnce(w: World, es: seq<Event>, id: OrderId)
    ensures LeavesIn(w, es, id) <= 1
    ensures LeavesIn(w, es, id) == 1 ==> id in Run(w, es).db.orders && !Pending(Run(w, es).db.orders[id])
  {
    if es != [] {
      var v, e := Run(w, es[..|es| - 1]), es[|es| - 1];
      LeavesAtMostOnce(w, es[..|es| - 1], id);
      if LeavesIn(w, es[..|es| - 1], id) == 1 {
        ClosedStepFrozen(v, e, id);
      } else if Leaves(v, e, id) {
        OrdersStay(v, e, id);
      }
    }
  }

  lemma OrdersStay(w: World, e: Event, id: OrderId)
    requires id in w.db.orders
    ensures id in Do(w, e).db.orders
  {
    match e
    case Sweep(exchanges, ids) => SweepFreezes(w.db, exchanges, ids, id);
    case Close(closes) => CloseKeepsOrders(w.db, closes);
    case Settle(keys) => SettleKeepsOrders(w.db, keys);
    case _ =>
  }

  /** Over every run from an empty book: an order's margin leaves the pending bucket at most once. Once it
      has, the order is either complete, with one trade for its whole quantity, or cancelled, with none;
      whatever else runs afterwards, it stays so. */
  lemma OrderLifeOverRuns(capital: int, initialised: bool, es: seq<Event>, later: seq<Event>, id: OrderId)
    ensures var w := Start(capital, initialised);
            var v := Run(w, es);
            && LeavesIn(w, es, id) <= 1
            && LifeOk(v.db, id)
            && (id in v.db.orders && !Pending(v.db.orders[id]) ==>
                  && id in Run(v, later).db.orders
                  && Run(v, later).db.orders[id] == v.db.orders[id]
                  && TradeCount(Run(v, later).db, id) == TradeCount(v.db, id))
  {
    var w := Start(capital, initialised);
    var v := Run(w, es);
    LeavesAtMostOnce(w, es, id);
    RunLife(w, es);
    assert LifeOk(v.db, id);
    if id in v.db.orders && !Pending(v.db.orders[id]) {
      ClosedIsForGood(v, later, id);
      RunLife(v, later);
      assert LifeOk(Run(v, later).db, id);
    }
  }

  /** Two threads that both hold a pending copy of an order: one of them fills it, the other finds it closed. */
  lemma SecondAttemptFindsItClosed(w: World, i: nat, j: nat)
    requires i != j && TaskAt(w, i).Attempt? && TaskAt(w, j).Attempt? && TaskAt(w, i).id == TaskAt(w, j).id
    requires Do(w, TryFill(i)).tasks[i].Filled?
    ensures Do(Do(w, TryFill(i)), TryFill(j)).tasks[j] == Idle
    ensures Do(Do(w, TryFill(i)), TryFill(j)).db == Do(w, TryFill(i)).db
  {
    var v := Do(w, TryFill(i));
    assert v.tasks[j] == w.tasks[j];
    assert !Pending(v.db.orders[w.tasks[i].id]);
  }
}
