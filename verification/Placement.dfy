/** What a placement does, priced and sized: the uninterrupted chain as transactions, and what it means for
    the fund, the row and the order in terms of the order's own price or the quoted one. */
module Placement {
  import opened Rounding
  import opened Rows
  import opened Positions
  import opened Funds
  import opened Books
  import opened Ledger
  import opened Sequential
  import opened Validation
  import opened Reversal

  /** The database once a fill is applied and what is due released. */
  function AppliedTx(x: Books, initialised: bool, k: PosKey, action: Action, quantity: int, price: int, m: int): Books {
    match ApplyFillTx(x, initialised, k, action, quantity, price, m)
    case None => x
    case Some((d, f)) => if f.release > 0 || f.realized != 0 then ReleaseTx(d, k.user, f.release, f.realized) else d
  }

  /** The database after a copy of an order is tried: filled, applied, and what is due released. */
  function TriedTx(b: Books, initialised: bool, id: OrderId, copy: Order, ltp: int): Books {
    match FillPrice(copy, ltp)
    case None => b
    case Some(price) =>
      match FillTx(b, copy.key.user, id, price)
      case None => b
      case Some((c, t)) => AppliedTx(c, initialised, copy.key, copy.action, t.quantity, price, copy.margin)
  }

  /** That is the ledger's uninterrupted fill. */
  lemma TriedIsFillNow(b: Books, initialised: bool, id: OrderId, copy: Order, ltp: int)
    ensures FillNow(World(b, initialised, [Attempt(id, copy, ltp)]), 0).db == TriedTx(b, initialised, id, copy, ltp)
  {
    var w := World(b, initialised, [Attempt(id, copy, ltp)]);
    var price := FillPrice(copy, ltp);
    if price.Some? && FillTx(b, copy.key.user, id, price.value).Some? {
      var (c, t) := FillTx(b, copy.key.user, id, price.value).value;
      assert Do(w, TryFill(0)) == World(c, initialised, [Filled(id, copy, t.quantity, price.value)]);
      FilledThen(c, initialised, id, copy, t.quantity, price.value);
    } else {
      assert Do(w, TryFill(0)) == World(b, initialised, [Idle]);
    }
  }

  lemma FilledThen(c: Books, initialised: bool, id: OrderId, copy: Order, quantity: int, price: int)
    ensures Do(Do(World(c, initialised, [Filled(id, copy, quantity, price)]), ApplyStep(0)), ReleaseStep(0)).db ==
            AppliedTx(c, initialised, copy.key, copy.action, quantity, price, copy.margin)
  {
  }

  /** The database once the margin is blocked, or refused, and the order row is written. */
  function SizedTx(b: Books, request: Order, reference: int, leverage: Leverage, id: OrderId): (bool, Books) {
    var margin := SizedMargin(b, request.key, request.action, request.quantity, reference, leverage);
    var (c, ok) := BlockTx(b, request.key.user, margin);
    (ok, CreateTx(c, id, if ok then NewOrder(request, margin, InitialStatus(request.pricetype))
                         else NewOrder(request, 0, REJECTED)))
  }

  /** The first three steps of a placement on a quiet database, and what is left to do. */
  lemma CreatedThen(b: Books, initialised: bool, request: Order, reference: int, leverage: Leverage, id: OrderId,
    ltp: int)
    requires id !in b.orders
    ensures var (ok, c) := SizedTx(b, request, reference, leverage, id);
            CreatedWorld(Quiet(b, initialised), request, reference, leverage, id, ltp) ==
            World(c, initialised, [if ok && ltp > 0 then Attempt(id, c.orders[id], ltp) else Idle])
  {
    BlockedThen(b, initialised, request, reference, leverage);
  }

  lemma BlockedThen(b: Books, initialised: bool, request: Order, reference: int, leverage: Leverage)
    ensures var margin := SizedMargin(b, request.key, request.action, request.quantity, reference, leverage);
            var (c, ok) := BlockTx(b, request.key.user, margin);
            Do(Do(Quiet(b, initialised), Place(request, reference, leverage)), BlockStep(0)) ==
            World(c, initialised, [if ok then Blocked(request, margin) else Ledger.Refused(request)])
  {
  }

  lemma NothingToTry(w: World)
    requires w.tasks == [Idle]
    ensures FillNow(w, 0) == w
  {
  }

  /** Trying an order never rejects it. */
  lemma StatusAfterTry(w: World, id: OrderId)
    requires |w.tasks| == 1 && id in w.db.orders && w.db.orders[id].status != REJECTED
    ensures var c := FillNow(w, 0).db; id in c.orders && c.orders[id].status != REJECTED
  {
    var v := Do(w, TryFill(0));
    TriedStatus(w, id);
    assert Do(v, ApplyStep(0)).db.orders == v.db.orders;
    assert Do(Do(v, ApplyStep(0)), ReleaseStep(0)).db.orders == v.db.orders;
  }

  lemma TriedStatus(w: World, id: OrderId)
    requires |w.tasks| == 1 && id in w.db.orders && w.db.orders[id].status != REJECTED
    ensures var c := Do(w, TryFill(0)).db; id in c.orders && c.orders[id].status != REJECTED
  {
  }

  // ----- what it comes to -----

  predicate AtMarket(o: Order) { o.pricetype == MARKET || o.pricetype == SLM }

  /** A market or SL-M order is worth the quoted price, any other its own. */
  function OrderPrice(env: Env, o: Order): int {
    if !AtMarket(o) then o.price else if Quoted(env, o.key.inst) then env.prices[o.key.inst] else 0
  }

  predicate Against(net: int, action: Action) {
    (net > 0 && action == SELL) || (net < 0 && action == BUY)
  }

  /** The part of an order that opens: beyond what it takes off the position it is placed against. */
  function Opening(net: int, action: Action, quantity: int): nat {
    if Against(net, action) then Max(0, quantity - Abs(net)) else Max(0, quantity)
  }

  /** m paise are price times quantity over leverage, to half a paisa; a leverage of zero or less is 1. */
  predicate IsWorth(m: int, price: int, quantity: int, leverage: Leverage) {
    if price <= 0 || quantity <= 0 then m == 0
    else if leverage.num <= 0 then -100 <= 2 * (price * quantity - 100 * m) <= 100
    else -(100 * leverage.num) <= 2 * (price * quantity * leverage.den - 100 * leverage.num * m) <= 100 * leverage.num
  }

  lemma RequiredIsWorth(price: int, quantity: int, leverage: Leverage)
    ensures IsWorth(RequiredMargin(price, quantity, leverage), price, quantity, leverage)
    ensures RequiredMargin(price, quantity, leverage) >= 0
  {
    RequiredMarginNonNegative(price, quantity, leverage);
    if price > 0 && quantity > 0 {
      RequiredMarginIsValue(price, quantity, leverage, quantity);
    }
  }

  /** What is sized is the opening part. */
  lemma SizedIsOpening(b: Books, k: PosKey, action: Action, quantity: int, reference: int, leverage: Leverage)
    ensures SizedMargin(b, k, action, quantity, reference, leverage) ==
            RequiredMargin(reference, Opening(PositionOf(b, k).net, action, quantity), leverage)
  {
  }

  function AfterBlock(f: Fund, m: int): Fund {
    f.(available := f.available - 100 * m, used := f.used + m)
  }

  /** The fund once a row is closed, or closed and reversed, at a price: the row's margin is back and its gain
      is booked. */
  function AfterRelease(f: Fund, p: Position, price: int): Fund {
    var gain := (price - p.average) * p.net;
    f.(used := if p.margin > 0 then Max(0, f.used - p.margin) else f.used,
       available := f.available + 100 * p.margin + gain,
       realized := f.realized + gain, today := f.today + gain)
  }

  /** What an accepted order, sized at m, has done to its fund and its row. */
  predicate Settles(f: Fund, g: Fund, p: Position, q: Position, o: Order, row: Order, m: int, price: int) {
    && row.margin == m && row.quantity == o.quantity
    && (row.status != COMPLETE ==>
          && row.status == (if o.pricetype == SL || o.pricetype == SLM then TRIGGER_PENDING else OPEN)
          && row.filled == 0 && g == AfterBlock(f, m) && q == p)
    && (row.status == COMPLETE ==> row.filled == o.quantity)
    && (row.status == COMPLETE && !Against(p.net, o.action) ==> g == AfterBlock(f, m))
    && (row.status == COMPLETE && p.net == 0 ==>
          q.net == Signed(o.action, o.quantity) && q.average == price && q.margin == p.margin + m)
    && (row.status == COMPLETE && Against(p.net, o.action) && o.quantity >= Abs(p.net) && p.margin >= 0 ==>
          && g == AfterRelease(AfterBlock(f, m), p, price)
          && q.net == p.net + Signed(o.action, o.quantity)
          && q.margin == if q.net == 0 then 0 else m)
  }

  /** A placement, from its books before to its books after. It is refused exactly when the gates or the
      missing quote refuse it or cash does not reach; otherwise it holds what its opening part is worth. */
  predicate PlacedAtItsPrice(b: Books, c: Books, env: Env, o: Order, id: OrderId) {
    && id in c.orders
    && var row, f, g := c.orders[id], FundOf(b, o.key.user), FundOf(c, o.key.user);
       if !Validate(b, env, o).Passes? || (AtMarket(o) && !Quoted(env, o.key.inst)) then
         row.status == REJECTED && row.margin == 0 && g == f && c.positions == b.positions
       else
         var p := PositionOf(b, o.key);
         var leverage := LeverageFor(env, o, InstrumentType(env.master[o.key.inst], o.key.inst));
         var part := Opening(p.net, o.action, o.quantity);
         var m := RequiredMargin(OrderPrice(env, o), part, leverage);
         && IsWorth(m, OrderPrice(env, o), part, leverage)
         && (row.status == REJECTED <==> m > 0 && f.available < 100 * m)
         && (row.status == REJECTED ==> row.margin == 0 && g == f && c.positions == b.positions)
         && (row.status != REJECTED ==>
               Settles(f, g, p, PositionOf(c, o.key), o, row, m, OrderPrice(env, o)))
         && (o.pricetype == MARKET && row.status != REJECTED ==> row.status == COMPLETE)
  }

  lemma SizedEffect(b: Books, o: Order, reference: int, leverage: Leverage, id: OrderId)
    ensures var m := RequiredMargin(reference, Opening(PositionOf(b, o.key).net, o.action, o.quantity), leverage);
            var (ok, c) := SizedTx(b, o, reference, leverage, id);
            && (ok <==> !(m > 0 && FundOf(b, o.key.user).available < 100 * m))
            && FundOf(c, o.key.user) == (if ok then AfterBlock(FundOf(b, o.key.user), m) else FundOf(b, o.key.user))
            && c.positions == b.positions && id in c.orders
            && c.orders[id] == if ok then NewOrder(o, m, InitialStatus(o.pricetype)) else NewOrder(o, 0, REJECTED)
  {
    var m := RequiredMargin(reference, Opening(PositionOf(b, o.key).net, o.action, o.quantity), leverage);
    SizedIsOpening(b, o.key, o.action, o.quantity, reference, leverage);
    RequiredIsWorth(reference, Opening(PositionOf(b, o.key).net, o.action, o.quantity), leverage);
  }

  /** A fill on a flat row opens it at the price; on a row it works against, it closes or reverses it. */
  lemma FillSettles(p: Position, o: Order, m: int, price: int)
    requires o.quantity > 0 && !o.action.OtherAction?
    ensures var r := Fill(p, o.action, o.quantity, price, m);
            && (!Against(p.net, o.action) ==> r.release == 0 && r.realized == 0)
            && (p.net == 0 ==> r.pos.net == Signed(o.action, o.quantity) && r.pos.average == price
                               && r.pos.margin == p.margin + m)
            && (Against(p.net, o.action) && o.quantity >= Abs(p.net) ==>
                  && r.release == p.margin && r.realized == (price - p.average) * p.net
                  && r.pos.net == p.net + Signed(o.action, o.quantity)
                  && r.pos.margin == if r.pos.net == 0 then 0 else m)
  {
    if p.net == 0 {
      RoundDivExact(price, o.quantity);
    } else if p.net < 0 {
      assert (p.average - price) * (-p.net) == (price - p.average) * p.net;
    }
  }

  lemma ReleaseSettles(f: Fund, p: Position, price: int)
    requires p.margin >= 0
    ensures var gain := (price - p.average) * p.net;
            (if p.margin > 0 || gain != 0 then Release(f, p.margin, gain) else f) == AfterRelease(f, p, price)
  {
  }

  /** The fill of the order just recorded: all of it, in one trade. */
  lemma FillsWhole(c: Books, o: Order, m: int, id: OrderId, price: int)
    requires o.quantity > 0 && id in c.orders && c.orders[id] == NewOrder(o, m, InitialStatus(o.pricetype))
    ensures FillTx(c, o.key.user, id, price).Some?
    ensures var (x, t) := FillTx(c, o.key.user, id, price).value;
            && t.quantity == o.quantity && x == c.(orders := x.orders, trades := x.trades) && id in x.orders
            && x.orders[id] == c.orders[id].(filled := o.quantity, average := x.orders[id].average, status := COMPLETE)
  {
  }

  lemma AppliedOpening(x: Books, initialised: bool, o: Order, m: int, price: int)
    requires o.quantity > 0 && !o.action.OtherAction? && !Against(PositionOf(x, o.key).net, o.action)
    ensures var d, p := AppliedTx(x, initialised, o.key, o.action, o.quantity, price, m), PositionOf(x, o.key);
            && d.orders == x.orders && FundOf(d, o.key.user) == FundOf(x, o.key.user)
            && (p.net == 0 ==>
                  var q := PositionOf(d, o.key);
                  q.net == Signed(o.action, o.quantity) && q.average == price && q.margin == p.margin + m)
  {
    FillSettles(PositionOf(x, o.key), o, m, price);
  }

  lemma AppliedAgainst(x: Books, initialised: bool, o: Order, m: int, price: int)
    requires o.quantity > 0 && !o.action.OtherAction? && Against(PositionOf(x, o.key).net, o.action)
    ensures var d, p := AppliedTx(x, initialised, o.key, o.action, o.quantity, price, m), PositionOf(x, o.key);
            && d.orders == x.orders
            && (o.quantity >= Abs(p.net) && p.margin >= 0 ==>
                  var q := PositionOf(d, o.key);
                  && FundOf(d, o.key.user) == AfterRelease(FundOf(x, o.key.user), p, price)
                  && q.net == p.net + Signed(o.action, o.quantity)
                  && q.margin == if q.net == 0 then 0 else m)
  {
    var p := PositionOf(x, o.key);
    FillSettles(p, o, m, price);
    if p.margin >= 0 {
      ReleaseSettles(FundOf(x, o.key.user), p, price);
    }
  }

  lemma PriceOfFill(o: Order, ltp: int)
    requires ltp > 0 && FillPrice(o, ltp).Some?
    ensures FillPrice(o, ltp).value == if AtMarket(o) then ltp else o.price
  {
  }

  /** Trying the order just recorded. */
  lemma TriedSettles(b: Books, c: Books, initialised: bool, o: Order, m: int, id: OrderId, ltp: int, price: int)
    requires o.quantity > 0 && !o.action.OtherAction?
    requires c.positions == b.positions && id in c.orders
    requires c.orders[id] == NewOrder(o, m, InitialStatus(o.pricetype))
    requires FundOf(c, o.key.user) == AfterBlock(FundOf(b, o.key.user), m)
    requires ltp > 0 && price == if AtMarket(o) then ltp else o.price
    ensures var d := TriedTx(c, initialised, id, c.orders[id], ltp);
            && id in d.orders
            && Settles(FundOf(b, o.key.user), FundOf(d, o.key.user), PositionOf(b, o.key), PositionOf(d, o.key), o,
                       d.orders[id], m, price)
            && (o.pricetype == MARKET ==> d.orders[id].status == COMPLETE)
  {
    var copy := c.orders[id];
    if FillPrice(copy, ltp).Some? {
      PriceOfFill(copy, ltp);
      FillsWhole(c, o, m, id, price);
      var (x, t) := FillTx(c, o.key.user, id, price).value;
      assert PositionOf(x, o.key) == PositionOf(b, o.key) && FundOf(x, o.key.user) == FundOf(c, o.key.user);
      if Against(PositionOf(b, o.key).net, o.action) {
        AppliedAgainst(x, initialised, o, m, price);
      } else {
        AppliedOpening(x, initialised, o, m, price);
      }
    }
  }

  /** The uninterrupted placement, whatever came out of it. */
  lemma PlacementHolds(b: Books, initialised: bool, env: Env, o: Order, id: OrderId)
    requires id !in b.orders
    ensures PlacedAtItsPrice(b, PlaceOrderSpec(b, initialised, env, o, id).db, env, o, id)
  {
    if Validate(b, env, o).Passes? && (AtMarket(o) ==> Quoted(env, o.key.inst)) {
      PricedPlacement(b, initialised, env, o, id);
    }
  }

  lemma PricedPlacement(b: Books, initialised: bool, env: Env, o: Order, id: OrderId)
    requires id !in b.orders
    requires Validate(b, env, o).Passes? && (AtMarket(o) ==> Quoted(env, o.key.inst))
    ensures PlacedAtItsPrice(b, PlaceOrderSpec(b, initialised, env, o, id).db, env, o, id)
  {
    var leverage := LeverageFor(env, o, InstrumentType(env.master[o.key.inst], o.key.inst));
    var price, ltp := OrderPrice(env, o), Get(Ltp(env, o.key.inst), 0);
    var part := Opening(PositionOf(b, o.key).net, o.action, o.quantity);
    PassesMeans(b, env, o);
    RequiredIsWorth(price, part, leverage);
    SizedEffect(b, o, price, leverage, id);
    CreatedThen(b, initialised, o, price, leverage, id, ltp);
    var (ok, c) := SizedTx(b, o, price, leverage, id);
    if ok && ltp > 0 {
      TriedIsFillNow(c, initialised, id, c.orders[id], ltp);
      TriedSettles(b, c, initialised, o, c.orders[id].margin, id, ltp, price);
    } else {
      NothingToTry(World(c, initialised, [Idle]));
    }
  }

  lemma PassesMeans(b: Books, env: Env, o: Order)
    requires Validate(b, env, o).Passes?
    ensures o.quantity > 0 && !o.action.OtherAction? && !o.pricetype.OtherType?
    ensures o.key.inst in env.master && Validate(b, env, o) == Passes(env.master[o.key.inst])
  {
  }
}
