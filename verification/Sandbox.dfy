/** The sandbox services as they run: tables that each transaction updates in place. Every method states
    the database it leaves as a function of the one it found. */
module SandboxService {
  import opened Rounding
  import opened Sums
  import opened Rows
  import opened Positions
  import opened Funds
  import opened Books
  import opened Ledger
  import opened Sequential
  import opened Validation
  import opened Reversal
  import opened Placement

  datatype FillOutcome = Raised | Applied(realized: int, release: int)
  datatype TryOutcome = NotFilled | FilledNow | Broke
  datatype PlaceOutcome = Rejects | Accepts | Breaks

  class Sandbox {
    const capital: int
    const initialised: bool
    var funds: map<UserId, Fund>
    var positions: map<PosKey, Position>
    var orders: map<OrderId, Order>
    var trades: seq<Trade>
    var holdings: map<HoldKey, Holding>
    var nextId: OrderId

    /** Order ids are unique: the next one is beyond every one in use. */
    ghost predicate Valid()
      reads this
    {
      forall id :: id in orders ==> id < nextId
    }

    function Snapshot(): Books
      reads this
    {
      Books(capital, funds, positions, orders, trades, holdings)
    }

    constructor (capital: int, initialised: bool)
      ensures Valid() && Quiet(Snapshot(), this.initialised) == Start(capital, initialised)
    {
      this.capital := capital;
      this.initialised := initialised;
      funds, positions, orders, trades, holdings, nextId := map[], map[], map[], [], map[], 0;
    }

    // ----- fund_manager -----

    method EnsureFundRow(u: UserId) returns (row: Fund)
      modifies this`funds
      ensures funds == old(funds)[u := row] && row == old(FundOf(Snapshot(), u))
    {
      if u !in funds {
        funds := funds[u := Fund(capital, capital, 0, 0, 0)];
      }
      row := funds[u];
    }

    method BlockMargin(u: UserId, amount: int) returns (ok: bool)
      modifies this`funds
      ensures (Snapshot(), ok) == old(BlockTx(Snapshot(), u, amount))
    {
      if amount <= 0 { return true; }
      var row := EnsureFundRow(u);
      if row.available < TICKS_PER_PAISA * amount { return false; }
      row := row.(available := row.available - TICKS_PER_PAISA * amount);
      row := row.(used := row.used + amount);
      funds := funds[u := row];
      assert funds == old(funds)[u := row];
      return true;
    }

    method ReleaseMargin(u: UserId, amount: int, pnl: int)
      modifies this`funds
      ensures Snapshot() == old(ReleaseTx(Snapshot(), u, amount, pnl))
    {
      if amount <= 0 && pnl == 0 { return; }
      var row := EnsureFundRow(u);
      if amount > 0 {
        row := row.(used := Max(0, row.used - amount));
        row := row.(available := row.available + TICKS_PER_PAISA * amount);
      }
      if pnl != 0 {
        row := row.(available := row.available + pnl);
        row := row.(realized := row.realized + pnl);
        row := row.(today := row.today + pnl);
      }
      funds := funds[u := row];
    }

    method TransferMarginToHoldings(u: UserId, amount: int)
      modifies this`funds
      ensures Snapshot() == old(TransferTx(Snapshot(), u, amount))
    {
      if amount <= 0 { return; }
      var row := EnsureFundRow(u);
      funds := funds[u := row.(used := Max(0, row.used - amount))];
    }

    /** Catch-up's own fund update, which bypasses the day's bucket. */
    method BookEarlierPnl(u: UserId, pnl: int)
      modifies this`funds
      ensures Snapshot() == old(BookTx(Snapshot(), u, pnl))
    {
      if pnl == 0 { return; }
      var row := EnsureFundRow(u);
      row := row.(realized := row.realized + pnl);
      row := row.(available := row.available + pnl);
      funds := funds[u := row];
    }

    // ----- position_manager -----

    /** One fill. `remaining` has a value from the start only if it is initialised; the accumulate path
        reads it without assigning it, and then nothing of the transaction is kept. */
    method ApplyFill(k: PosKey, action: Action, quantity: int, price: int, orderMargin: int) returns (r: FillOutcome)
      requires quantity > 0
      modifies this`positions
      ensures match old(ApplyFillTx(Snapshot(), initialised, k, action, quantity, price, orderMargin))
              case None => r == Raised && Snapshot() == old(Snapshot())
              case Some((b, f)) => r == Applied(f.realized, f.release) && Snapshot() == b
    {
      var signed := if action == BUY then quantity else -quantity;
      var realizedDelta, marginToRelease := 0, 0;
      var remaining: Option<int> := if initialised then Some(0) else None;
      var pos := if k in positions then positions[k] else FLAT;
      var oldNet := pos.net;
      var newNet := oldNet + signed;
      if (oldNet >= 0 && signed > 0) || (oldNet <= 0 && signed < 0) {
        pos := AddToRow(pos, signed, price, orderMargin);
      } else {
        var left;
        pos, realizedDelta, marginToRelease, left := OffsetRow(pos, signed, price, orderMargin);
        remaining := Some(left);
      }
      pos := BookDay(pos, action, quantity, price);
      var opens := oldNet == 0 && newNet != 0;
      var closes := oldNet != 0 && newNet == 0;
      if !opens && !closes && remaining.None? {
        return Raised;
      }
      positions := positions[k := pos];
      return Applied(realizedDelta, marginToRelease);
    }

    /** The accumulate path. */
    method AddToRow(p: Position, signed: int, price: int, orderMargin: int) returns (pos: Position)
      ensures pos == Accumulate(p, signed, price, orderMargin).pos
    {
      var newNet := p.net + signed;
      var newTotalCost := p.average * Abs(p.net) + price * Abs(signed);
      var newAvg := 0;
      if newNet != 0 {
        newAvg := RoundDiv(newTotalCost, Abs(newNet));
      }
      pos := p.(net := newNet);
      pos := pos.(average := newAvg);
      pos := pos.(margin := p.margin + orderMargin);
    }

    /** The opposite-direction path: what is left over after the offset, with the P&L and the margin due. */
    method OffsetRow(p: Position, signed: int, price: int, orderMargin: int)
      returns (pos: Position, realizedDelta: int, marginToRelease: int, left: int)
      ensures FillResult(pos, realizedDelta, marginToRelease) == Offset(p, signed, price, orderMargin)
      ensures left == Max(0, Abs(signed) - Abs(p.net))
    {
      var newNet := p.net + signed;
      var offset := Min(Abs(p.net), Abs(signed));
      if p.net > 0 {
        realizedDelta := (price - p.average) * offset;
      } else {
        realizedDelta := (p.average - price) * offset;
      }
      left := Abs(signed) - offset;
      marginToRelease := 0;
      if Abs(p.net) > 0 && p.margin > 0 {
        marginToRelease := RoundDiv(p.margin * offset, Abs(p.net));
      }
      pos := p.(net := newNet);
      if newNet == 0 {
        marginToRelease := p.margin;
        pos := pos.(average := 0, margin := 0);
      } else if left > 0 {
        marginToRelease := p.margin;
        pos := pos.(average := price, margin := orderMargin);
      } else {
        pos := pos.(margin := Max(0, p.margin - marginToRelease));
      }
      pos := pos.(realized := pos.realized + realizedDelta);
      pos := pos.(today := pos.today + realizedDelta);
    }

    /** The intraday counters and the `pnl` column. */
    method BookDay(p: Position, action: Action, quantity: int, price: int) returns (pos: Position)
      ensures pos == Book(p, action, quantity, price)
    {
      pos := p;
      if action == BUY {
        pos := pos.(dayBuyQty := pos.dayBuyQty + quantity);
        pos := pos.(dayBuyValue := RoundDiv(TICKS_PER_PAISA * pos.dayBuyValue + price * quantity, TICKS_PER_PAISA));
      } else {
        pos := pos.(daySellQty := pos.daySellQty + quantity);
        pos := pos.(daySellValue := RoundDiv(TICKS_PER_PAISA * pos.daySellValue + price * quantity, TICKS_PER_PAISA));
      }
      pos := pos.(pnl := pos.realized + pos.unrealized);
    }

    method MarkPosition(k: PosKey, ltp: int)
      modifies this`positions
      ensures Snapshot() == old(MarkTx(Snapshot(), k, ltp))
    {
      if ltp <= 0 || k !in positions || positions[k].net == 0 {
        if k in positions { assert positions[k := positions[k]] == positions; }
        return;
      }
      var pos := positions[k].(ltp := ltp);
      if pos.net > 0 {
        pos := pos.(unrealized := (ltp - pos.average) * pos.net);
      } else {
        pos := pos.(unrealized := (pos.average - ltp) * Abs(pos.net));
      }
      positions := positions[k := pos.(pnl := pos.realized + pos.unrealized)];
    }

    // ----- order_manager -----

    method CreateOrder(request: Order, margin: int, status: Status) returns (id: OrderId)
      requires Valid()
      modifies this`orders, this`nextId
      ensures Valid() && id == old(nextId) && id !in old(orders)
      ensures Snapshot() == old(CreateTx(Snapshot(), nextId, NewOrder(request, margin, status)))
    {
      id := nextId;
      orders := orders[id := request.(filled := 0, average := 0, status := status, margin := margin)];
      nextId := nextId + 1;
    }

    method CancelOrder(u: UserId, id: OrderId) returns (cancelled: Option<Order>)
      modifies this`orders
      ensures match old(CancelTx(Snapshot(), u, id))
              case None => cancelled == None && Snapshot() == old(Snapshot())
              case Some(b) => Snapshot() == b && cancelled == Some(orders[id])
      ensures orders.Keys == old(orders.Keys)
    {
      if id !in orders || orders[id].key.user != u
        || (orders[id].status != OPEN && orders[id].status != TRIGGER_PENDING) {
        return None;
      }
      orders := orders[id := orders[id].(status := CANCELLED)];
      return Some(orders[id]);
    }

    method ModifyOrder(u: UserId, id: OrderId, c: Change) returns (updated: Option<Order>)
      modifies this`orders
      ensures match old(ModifyTx(Snapshot(), u, id, c))
              case None => updated == None && Snapshot() == old(Snapshot())
              case Some(b) => Snapshot() == b && updated == Some(orders[id])
      ensures updated.Some? <==> id in old(orders) && old(orders)[id].key.user == u
                                 && old(orders)[id].status in {OPEN, TRIGGER_PENDING}
      ensures updated.Some? ==>
                var o, q := old(orders)[id], updated.value;
                && q.quantity == (if c.quantity.Some? then c.quantity.value else o.quantity)
                && q.price == (if c.price.Some? then c.price.value else o.price)
                && q.trigger == (if c.trigger.Some? then c.trigger.value else o.trigger)
                && q.pricetype == (if c.pricetype.Some? then c.pricetype.value else o.pricetype)
                && q == o.(quantity := q.quantity, price := q.price, trigger := q.trigger, pricetype := q.pricetype)
    {
      if id !in orders || orders[id].key.user != u
        || (orders[id].status != OPEN && orders[id].status != TRIGGER_PENDING) {
        return None;
      }
      var row := orders[id];
      if c.quantity.Some? { row := row.(quantity := c.quantity.value); }
      if c.price.Some? { row := row.(price := c.price.value); }
      if c.trigger.Some? { row := row.(trigger := c.trigger.value); }
      if c.pricetype.Some? { row := row.(pricetype := c.pricetype.value); }
      orders := orders[id := row];
      return Some(row);
    }

    method FillOrder(u: UserId, id: OrderId, price: int) returns (trade: Option<Trade>)
      modifies this`orders, this`trades
      ensures match old(FillTx(Snapshot(), u, id, price))
              case None => trade == None && Snapshot() == old(Snapshot())
              case Some((b, t)) => Snapshot() == b && trade == Some(t)
      ensures orders.Keys == old(orders.Keys)
    {
      if id !in orders || orders[id].key.user != u
        || (orders[id].status != OPEN && orders[id].status != TRIGGER_PENDING) {
        return None;
      }
      var row := orders[id];
      var qty := row.quantity - row.filled;
      if qty <= 0 { return None; }
      var newTotal := row.filled + qty;
      var newAvg := if newTotal > 0 then RoundDiv(row.average * row.filled + price * qty, newTotal) else price;
      row := row.(filled := newTotal, average := newAvg);
      if row.filled >= row.quantity {
        row := row.(status := COMPLETE);
      }
      orders := orders[id := row];
      var t := Trade(id, row.key, row.action, qty, price);
      trades := trades + [t];
      return Some(t);
    }

    // ----- execution_engine -----

    /** Try a copy of an order at a price, with nothing in between. */
    method TryFillOrder(id: OrderId, copy: Order, ltp: int) returns (r: TryOutcome)
      modifies this`funds, this`positions, this`orders, this`trades
      ensures Snapshot() == old(TriedTx(Snapshot(), initialised, id, copy, ltp))
      ensures orders.Keys == old(orders.Keys)
      ensures r == NotFilled ==> Snapshot() == old(Snapshot())
      ensures r == Broke ==> !initialised && id in old(orders) && old(orders)[id].quantity > old(orders)[id].filled
                             && Raises(old(PositionOf(Snapshot(), copy.key)), copy.action,
                                       old(orders)[id].quantity - old(orders)[id].filled)
    {
      var price := FillPrice(copy, ltp);
      if price == None { return NotFilled; }
      var trade := FillOrder(copy.key.user, id, price.value);
      if trade == None { return NotFilled; }
      var outcome := ApplyFill(copy.key, copy.action, trade.value.quantity, price.value, copy.margin);
      match outcome {
        case Raised => return Broke;
        case Applied(realized, release) =>
          if release > 0 || realized != 0 {
            ReleaseMargin(copy.key.user, release, realized);
          }
          return FilledNow;
      }
    }

    // ----- sandbox_service -----

    method PlaceOrder(env: Env, request: Order) returns (r: PlaceOutcome, id: OrderId)
      requires Valid()
      modifies this
      ensures Valid() && id == old(nextId)
      ensures orders.Keys == old(orders.Keys) + {id}
      ensures Snapshot() == old(PlaceOrderSpec(Snapshot(), initialised, env, request, nextId)).db
      ensures PlacedAtItsPrice(old(Snapshot()), Snapshot(), env, request, id)
      ensures r == Rejects <==> orders[id].status == REJECTED
      ensures r == Breaks ==> !initialised
                              && Raises(old(PositionOf(Snapshot(), request.key)), request.action, request.quantity)
    {
      PlacementHolds(Snapshot(), initialised, env, request, nextId);
      var verdict := Validate(Snapshot(), env, request);
      if verdict.Fails? {
        id := CreateOrder(request, 0, REJECTED);
        return Rejects, id;
      }
      r, id := PlacePassed(env, request, verdict.info);
    }

    /** An order past its gates: a market or SL-M order is priced at the quote, or rejected without one. */
    method PlacePassed(env: Env, request: Order, info: SymbolInfo) returns (r: PlaceOutcome, id: OrderId)
      requires Valid() && Validate(Snapshot(), env, request) == Passes(info)
      modifies this
      ensures Valid() && id == old(nextId)
      ensures orders.Keys == old(orders.Keys) + {id}
      ensures Snapshot() == old(PlaceOrderSpec(Snapshot(), initialised, env, request, nextId)).db
      ensures r == Rejects <==> orders[id].status == REJECTED
      ensures r == Breaks ==> !initialised
                              && Raises(old(PositionOf(Snapshot(), request.key)), request.action, request.quantity)
    {
      var reference := request.price;
      var ltp := Ltp(env, request.key.inst);
      if request.pricetype == MARKET || request.pricetype == SLM {
        if ltp == None {
          id := CreateOrder(request, 0, REJECTED);
          return Rejects, id;
        }
        reference := ltp.value;
      }
      var leverage := LeverageFor(env, request, InstrumentType(info, request.key.inst));
      r, id := PlaceSized(request, reference, leverage, ltp);
    }

    /** What `place_order` does once the order has passed its gates and has a reference price. */
    method PlaceSized(request: Order, reference: int, leverage: Leverage, ltp: Option<int>)
      returns (r: PlaceOutcome, id: OrderId)
      requires Valid()
      modifies this
      ensures Valid() && id == old(nextId)
      ensures orders.Keys == old(orders.Keys) + {id}
      ensures Snapshot() ==
              old(PlaceNow(Quiet(Snapshot(), initialised), request, reference, leverage, nextId, Get(ltp, 0))).db
      ensures r == Rejects <==> orders[id].status == REJECTED
      ensures r == Breaks ==> !initialised
                              && Raises(old(PositionOf(Snapshot(), request.key)), request.action, request.quantity)
    {
      CreatedThen(Snapshot(), initialised, request, reference, leverage, nextId, Get(ltp, 0));
      var accepted;
      accepted, id := CreateSized(request, reference, leverage);
      if accepted && ltp.Some? && ltp.value > 0 {
        var row := orders[id];
        TriedIsFillNow(Snapshot(), initialised, id, row, ltp.value);
        StatusAfterTry(World(Snapshot(), initialised, [Attempt(id, row, ltp.value)]), id);
        var outcome := TryFillOrder(id, row, ltp.value);
        return if outcome == Broke then Breaks else Accepts, id;
      }
      NothingToTry(World(Snapshot(), initialised, [Idle]));
      return if accepted then Accepts else Rejects, id;
    }

    /** Size, block and record the order: the chain up to the immediate try. */
    method CreateSized(request: Order, reference: int, leverage: Leverage)
      returns (accepted: bool, id: OrderId)
      requires Valid()
      modifies this
      ensures Valid() && id == old(nextId)
      ensures orders.Keys == old(orders.Keys) + {id}
      ensures positions == old(positions)
      ensures accepted == (orders[id].status != REJECTED)
      ensures accepted ==> orders[id] == NewOrder(request, orders[id].margin, InitialStatus(request.pricetype))
      ensures (accepted, Snapshot()) == old(SizedTx(Snapshot(), request, reference, leverage, nextId))
    {
      var margin := SizeMargin(request, reference, leverage);
      accepted := BlockMargin(request.key.user, margin);
      if !accepted {
        id := CreateOrder(request, 0, REJECTED);
        return;
      }
      var status := if request.pricetype == SL || request.pricetype == SLM then TRIGGER_PENDING else OPEN;
      id := CreateOrder(request, margin, status);
    }

    /** Position-aware sizing: only what the existing position does not already cover. */
    method SizeMargin(request: Order, reference: int, leverage: Leverage) returns (margin: int)
      ensures margin == SizedMargin(Snapshot(), request.key, request.action, request.quantity, reference, leverage)
    {
      margin := RequiredMargin(reference, request.quantity, leverage);
      if request.key in positions && positions[request.key].net != 0 {
        var existing := positions[request.key].net;
        if (existing > 0 && request.action == SELL) || (existing < 0 && request.action == BUY) {
          if request.quantity <= Abs(existing) {
            margin := 0;
          } else {
            margin := RequiredMargin(reference, request.quantity - Abs(existing), leverage);
          }
        }
      }
    }

    method CancelOrderAndRelease(u: UserId, id: OrderId) returns (ok: bool)
      modifies this`orders, this`funds
      ensures ok == old(Cancellable(Snapshot(), u, id))
      ensures Snapshot() == old(CancelNow(Quiet(Snapshot(), initialised), u, id)).db
      ensures orders.Keys == old(orders.Keys)
    {
      var cancelled := CancelOrder(u, id);
      if cancelled == None { return false; }
      if cancelled.value.margin != 0 {
        ReleaseMargin(u, cancelled.value.margin, 0);
      }
      return true;
    }
  }
}
