/** The strategy page's P&L: bought and sold totals per instrument, a matched-quantity realized figure
    and the rest marked at the last price. It never looks at the sandbox's running average, yet the two
    totals agree up to the rounding of that average. Averages here are real numbers. */
module StrategyPnl {
  import opened Rounding
  import opened Rows
  import opened Positions
  import opened RowHistory

  datatype StrategyOrder = StrategyOrder(
    inst: Instrument,
    complete: bool,
    filledQty: Option<int>,
    qty: Option<int>,
    avgFillPrice: Option<int>,
    action: Action
  )

  datatype Aggregate = Aggregate(buyQty: int, buyValue: int, sellQty: int, sellValue: int)

  const EMPTY := Aggregate(0, 0, 0, 0)

  /** The first value that is present and non-zero, else zero. */
  function OrZero(x: Option<int>, y: Option<int>): (r: int) {
    if x.Some? && x.value != 0 then x.value else if y.Some? then y.value else 0
  }

  function FillQty(o: StrategyOrder): int { OrZero(o.filledQty, o.qty) }

  function FillPrice(o: StrategyOrder): int { OrZero(o.avgFillPrice, None) }

  predicate Usable(o: StrategyOrder) {
    o.complete && FillQty(o) > 0 && FillPrice(o) > 0
  }

  function AddOrder(a: Aggregate, o: StrategyOrder): Aggregate {
    var value := FillQty(o) * FillPrice(o);
    if o.action == BUY then a.(buyQty := a.buyQty + FillQty(o), buyValue := a.buyValue + value)
    else a.(sellQty := a.sellQty + FillQty(o), sellValue := a.sellValue + value)
  }

  /** The totals of one instrument's usable orders. */
  function AggregateOf(orders: seq<StrategyOrder>, inst: Instrument): Aggregate {
    if orders == [] then EMPTY
    else
      var a, o := AggregateOf(orders[..|orders| - 1], inst), orders[|orders| - 1];
      if Usable(o) && o.inst == inst then AddOrder(a, o) else a
  }

  /** One pass over the run's orders fills the dict: a row for every instrument with a usable order,
      holding that instrument's totals. */
  method AggregateOrders(orders: seq<StrategyOrder>) returns (aggs: map<Instrument, Aggregate>)
    ensures forall inst :: inst in aggs <==>
            exists i :: 0 <= i < |orders| && Usable(orders[i]) && orders[i].inst == inst
    ensures forall inst :: inst in aggs ==> aggs[inst] == AggregateOf(orders, inst)
  {
    aggs := map[];
    for i := 0 to |orders|
      invariant forall inst :: inst in aggs <==> exists j :: 0 <= j < i && Usable(orders[j]) && orders[j].inst == inst
      invariant forall inst :: AggregateOf(orders[..i], inst) == if inst in aggs then aggs[inst] else EMPTY
    {
      var o := orders[i];
      assert orders[..i + 1][..i] == orders[..i];
      if !o.complete { continue; }
      if FillQty(o) <= 0 || FillPrice(o) <= 0 { continue; }
      var a := if o.inst in aggs then aggs[o.inst] else EMPTY;
      aggs := aggs[o.inst := AddOrder(a, o)];
    }
    assert orders[..|orders|] == orders;
  }

  function Average(value: int, qty: int): real {
    if qty > 0 then value as real / qty as real else 0.0
  }

  /** Round trips: the smaller of the two sides, at the difference of the two averages. */
  function Realized(a: Aggregate): real {
    var matched := Min(a.buyQty, a.sellQty);
    if matched > 0 then (Average(a.sellValue, a.sellQty) - Average(a.buyValue, a.buyQty)) * matched as real else 0.0
  }

  /** The open remainder at the last price; nothing when flat or when no price is known. */
  function Unrealized(a: Aggregate, ltp: Option<int>): real {
    var net := a.buyQty - a.sellQty;
    if net == 0 || ltp == None || ltp == Some(0) then 0.0
    else if net > 0 then (ltp.value as real - Average(a.buyValue, a.buyQty)) * net as real
    else (Average(a.sellValue, a.sellQty) - ltp.value as real) * (-net) as real
  }

  predicate GoodAggregate(a: Aggregate) {
    && a.buyQty >= 0 && a.sellQty >= 0
    && (a.buyQty == 0 ==> a.buyValue == 0)
    && (a.sellQty == 0 ==> a.sellValue == 0)
  }

  /** Without a last price the open remainder counts for nothing, so a position that was only opened shows
      nothing at all. */
  lemma UnpricedTotal(a: Aggregate)
    ensures Unrealized(a, None) == 0.0 && Unrealized(a, Some(0)) == 0.0
    ensures a.buyQty <= 0 || a.sellQty <= 0 ==> Realized(a) + Unrealized(a, None) == 0.0
  {
  }

  /** How one order counts: by its filled quantity, or its whole quantity when none is recorded, and only with
      a fill price. */
  lemma {:induction false} OneOrderCounts(o: StrategyOrder)
    ensures var qty := if o.filledQty.Some? && o.filledQty.value != 0 then o.filledQty.value
                       else if o.qty.Some? then o.qty.value else 0;
            AggregateOf([o], o.inst) ==
            if !o.complete || qty <= 0 || o.avgFillPrice.None? || o.avgFillPrice.value <= 0 then Aggregate(0, 0, 0, 0)
            else if o.action == BUY then Aggregate(qty, qty * o.avgFillPrice.value, 0, 0)
            else Aggregate(0, 0, qty, qty * o.avgFillPrice.value)
  {
    assert [o][..0] == [];
    assert AggregateOf([], o.inst) == EMPTY;
  }

  lemma {:induction false} AggregatesAreGood(orders: seq<StrategyOrder>, inst: Instrument)
    ensures GoodAggregate(AggregateOf(orders, inst))
  {
    if orders != [] {
      AggregatesAreGood(orders[..|orders| - 1], inst);
    }
  }

  lemma AverageTimes(value: int, qty: int)
    requires qty >= 0 && (qty == 0 ==> value == 0)
    ensures Average(value, qty) * qty as real == value as real
  {
  }

  /** The averages cancel: realized plus unrealized is money in, less money out, plus the net at market. */
  lemma TotalIsCashPlusMarket(a: Aggregate, ltp: int)
    requires GoodAggregate(a) && ltp > 0
    ensures Realized(a) + Unrealized(a, Some(ltp)) ==
            (a.sellValue - a.buyValue + ltp * (a.buyQty - a.sellQty)) as real
  {
    var b, s, p := Average(a.buyValue, a.buyQty), Average(a.sellValue, a.sellQty), ltp as real;
    var bq, sq := a.buyQty as real, a.sellQty as real;
    AverageTimes(a.buyValue, a.buyQty);
    AverageTimes(a.sellValue, a.sellQty);
    var net := a.buyQty - a.sellQty;
    assert (ltp * net) as real == p * (bq - sq);
    if net > 0 {
      assert Realized(a) == (s - b) * sq;
      assert Unrealized(a, Some(ltp)) == (p - b) * (bq - sq);
      assert (s - b) * sq + (p - b) * (bq - sq) == s * sq - b * bq + p * (bq - sq);
    } else {
      assert Realized(a) == (s - b) * bq;
      assert Unrealized(a, Some(ltp)) == (s - p) * (sq - bq);
      assert (s - b) * bq + (s - p) * (sq - bq) == s * sq - b * bq + p * (bq - sq);
    }
  }

  // ----- the same fills on both books -----

  /** The strategy order that records a fill. */
  function AsOrder(inst: Instrument, e: FillEvent): StrategyOrder {
    StrategyOrder(inst, true, Some(e.quantity), Some(e.quantity), Some(e.price), e.action)
  }

  function AsOrders(inst: Instrument, fills: seq<FillEvent>): (os: seq<StrategyOrder>)
    ensures |os| == |fills|
  {
    if fills == [] then [] else AsOrders(inst, fills[..|fills| - 1]) + [AsOrder(inst, fills[|fills| - 1])]
  }

  predicate PositivePrices(fills: seq<FillEvent>) {
    forall i :: 0 <= i < |fills| ==> fills[i].price > 0
  }

  lemma OneMoreFill(a: Aggregate, inst: Instrument, e: FillEvent)
    requires e.quantity > 0 && e.price > 0
    ensures Usable(AsOrder(inst, e))
    ensures var b := AddOrder(a, AsOrder(inst, e));
            && b.buyValue - b.sellValue == a.buyValue - a.sellValue + Signed(e.action, e.quantity) * e.price
            && b.buyQty - b.sellQty == a.buyQty - a.sellQty + Signed(e.action, e.quantity)
  {
  }

  lemma {:induction false} SameFlows(inst: Instrument, fills: seq<FillEvent>)
    requires GoodFills(fills) && PositivePrices(fills)
    ensures var a := AggregateOf(AsOrders(inst, fills), inst);
            && a.buyValue - a.sellValue == SignedCost(fills)
            && a.buyQty - a.sellQty == SignedQuantity(fills)
  {
    if fills != [] {
      var e, rest := fills[|fills| - 1], fills[..|fills| - 1];
      SameFlows(inst, rest);
      OneMoreFill(AggregateOf(AsOrders(inst, rest), inst), inst, e);
      assert AsOrders(inst, fills)[..|fills| - 1] == AsOrders(inst, rest);
    }
  }

  /** The page's total for the same fills: it reads the order rows, which stay complete whether or not the
      position row took the fill. */
  function PageTotal(inst: Instrument, fills: seq<FillEvent>, ltp: int): real {
    var a := AggregateOf(AsOrders(inst, fills), inst);
    Realized(a) + Unrealized(a, Some(ltp))
  }

  /** What the orders and the row do not share, at the last price: the fills that rolled back, less the closes
      outside the order path. */
  function UnsharedValue(initialised: bool, events: seq<RowEvent>, ltp: int): int {
    ltp * UnsharedQuantity(initialised, FLAT, events) - UnsharedCost(initialised, FLAT, events)
  }

  lemma {:induction false} PageTotalIsCashPlusMarket(inst: Instrument, fills: seq<FillEvent>, ltp: int)
    requires GoodFills(fills) && PositivePrices(fills) && ltp > 0
    ensures PageTotal(inst, fills, ltp) == (ltp * SignedQuantity(fills) - SignedCost(fills)) as real
  {
    AggregatesAreGood(AsOrders(inst, fills), inst);
    TotalIsCashPlusMarket(AggregateOf(AsOrders(inst, fills), inst), ltp);
    SameFlows(inst, fills);
  }

  lemma {:induction false} CashSplits(initialised: bool, events: seq<RowEvent>, ltp: int)
    ensures ltp * SignedQuantity(OrderFills(events)) - SignedCost(OrderFills(events)) ==
            CashPlusMarket(initialised, events, ltp) + UnsharedValue(initialised, events, ltp)
  {
    RestIsUnshared(initialised, FLAT, events);
    Distribute(ltp, SignedQuantity(Flow(initialised, FLAT, events)), UnsharedQuantity(initialised, FLAT, events));
  }

  lemma Distribute(a: int, b: int, c: int)
    ensures a * (b + c) == a * b + a * c
  {
  }

  lemma AsReals(page: real, cash: int, keptCash: int, total: int, left: int, unshared: int, budget: int)
    requires page == cash as real && cash == keptCash + unshared && 2 * Abs(total - (keptCash + left)) <= budget
    ensures -(budget as real) <= 2.0 * (page - (total - left + unshared) as real) <= budget as real
    ensures total == keptCash + left ==> page - (total - left + unshared) as real == 0.0
  {
    assert page - (total - left + unshared) as real == (keptCash + left - total) as real;
  }

  /** Over any history of a row and for positive prices, the page's total is the row's total, less what a flat
      row has left over, plus what the two do not share: up to the rounding of the running average, and with
      no rounding at all in the code as it stands. */
  lemma {:induction false} BooksDifferByWhatIsUnshared(inst: Instrument, initialised: bool, events: seq<RowEvent>,
                                                       ltp: int)
    requires GoodEvents(events) && PositivePrices(OrderFills(events)) && ltp > 0
    ensures var flow := Flow(initialised, FLAT, events);
            var gap := PageTotal(inst, OrderFills(events), ltp)
                       - (RowTotal(initialised, events, ltp) - LeftOver(initialised, events)
                          + UnsharedValue(initialised, events, ltp)) as real;
            && -(RoundingBudget(FLAT, flow) as real) <= 2.0 * gap <= RoundingBudget(FLAT, flow) as real
            && (ExactAverages(FLAT, flow) || !initialised ==> gap == 0.0)
  {
    var fills := OrderFills(events);
    FlowIsGood(initialised, FLAT, events);
    PageTotalIsCashPlusMarket(inst, fills, ltp);
    RowTotalIsCashPlusMarket(initialised, events, ltp);
    CashSplits(initialised, events, ltp);
    AsReals(PageTotal(inst, fills, ltp), ltp * SignedQuantity(fills) - SignedCost(fills),
            CashPlusMarket(initialised, events, ltp), RowTotal(initialised, events, ltp),
            LeftOver(initialised, events), UnsharedValue(initialised, events, ltp),
            RoundingBudget(FLAT, Flow(initialised, FLAT, events)));
  }

  /** As documented, with every close an order, the two totals agree up to rounding, and exactly when it is
      exact, once what a flat row has left over is taken off. */
  lemma {:induction false} BooksAgree(inst: Instrument, events: seq<RowEvent>, ltp: int)
    requires GoodEvents(events) && PositivePrices(OrderFills(events)) && NoCloses(events) && ltp > 0
    ensures var gap := PageTotal(inst, OrderFills(events), ltp)
                       - (RowTotal(true, events, ltp) - LeftOver(true, events)) as real;
            var bound := RoundingBudget(FLAT, OrderFills(events)) as real;
            && -bound <= 2.0 * gap <= bound
            && (ExactAverages(FLAT, OrderFills(events)) ==> gap == 0.0)
  {
    BooksDifferByWhatIsUnshared(inst, true, events, ltp);
    DocumentedSharesAll(FLAT, events);
  }

  /** As the code stands, over any history, the two totals are equal exactly when what orders and row do not
      share is worth what a flat row has left over. */
  lemma {:induction false} ShippedBooksAgreeExactly(inst: Instrument, events: seq<RowEvent>, ltp: int)
    requires GoodEvents(events) && PositivePrices(OrderFills(events)) && ltp > 0
    ensures PageTotal(inst, OrderFills(events), ltp) == RowTotal(false, events, ltp) as real
            <==> UnsharedValue(false, events, ltp) == LeftOver(false, events)
  {
    BooksDifferByWhatIsUnshared(inst, false, events, ltp);
  }

  /** A fill that rolls back never reaches the row, whatever came before: its gain is the page's alone. */
  lemma {:induction false} RolledBackFillIsOnlyOnThePage(inst: Instrument, events: seq<RowEvent>, f: FillEvent,
                                                         ltp: int)
    requires GoodEvents(events) && PositivePrices(OrderFills(events)) && ltp > 0
    requires f.quantity > 0 && f.price > 0 && f.margin >= 0
    requires Raises(RowAfter(false, FLAT, events), f.action, f.quantity)
    ensures var more := events + [Filled(f)];
            && OrderFills(more) == OrderFills(events) + [f]
            && RowTotal(false, more, ltp) == RowTotal(false, events, ltp)
            && PageTotal(inst, OrderFills(more), ltp) - PageTotal(inst, OrderFills(events), ltp) ==
               (Signed(f.action, f.quantity) * (ltp - f.price)) as real
  {
    var more, fills := events + [Filled(f)], OrderFills(events);
    assert Front(more) == events && Last(more) == Filled(f);
    FlowIsGood(false, FLAT, events);
    PageTotalIsCashPlusMarket(inst, fills, ltp);
    PageTotalIsCashPlusMarket(inst, fills + [f], ltp);
    FlowsPush(fills, f);
    GainOf(ltp, SignedQuantity(fills), Signed(f.action, f.quantity), SignedCost(fills), f.price);
  }

  lemma GainOf(ltp: int, net: int, more: int, cost: int, price: int)
    ensures (ltp * (net + more) - (cost + more * price)) - (ltp * net - cost) == more * (ltp - price)
  {
  }

  function TwoBuys(q: int, a: int, b: int): seq<FillEvent> {
    [FillEvent(BUY, q, a, 0), FillEvent(BUY, q, b, 0)]
  }

  lemma FirstBuyIsOnBoth(inst: Instrument, q: int, a: int, ltp: int)
    requires q > 0 && a > 0 && ltp > 0
    ensures var f := FillEvent(BUY, q, a, 0);
            && OrderFills([Filled(f)]) == [f]
            && PageTotal(inst, [f], ltp) == RowTotal(false, [Filled(f)], ltp) as real
  {
    OneBuy(false, q, a);
    BooksDifferByWhatIsUnshared(inst, false, [Filled(FillEvent(BUY, q, a, 0))], ltp);
  }

  lemma SecondBuyRaises(q: int, a: int)
    requires q > 0
    ensures Raises(RowAfter(false, FLAT, [Filled(FillEvent(BUY, q, a, 0))]), BUY, q)
  {
    OneBuy(false, q, a);
  }

  /** Two buys in a row: the page is over by the whole gain of the second. */
  lemma SecondBuyIsOnlyOnThePage(inst: Instrument, q: int, a: int, b: int, ltp: int)
    requires q > 0 && a > 0 && b > 0 && ltp > 0
    ensures var fills := TwoBuys(q, a, b);
            var events := [Filled(fills[0])] + [Filled(fills[1])];
            && OrderFills(events) == fills
            && PageTotal(inst, fills, ltp) - RowTotal(false, events, ltp) as real == (q * (ltp - b)) as real
  {
    var f1, f2 := FillEvent(BUY, q, a, 0), FillEvent(BUY, q, b, 0);
    FirstBuyIsOnBoth(inst, q, a, ltp);
    SecondBuyRaises(q, a);
    RolledBackFillIsOnlyOnThePage(inst, [Filled(f1)], f2, ltp);
    assert [f1] + [f2] == TwoBuys(q, a, b);
  }

  /** From two ticks of gain on, that is beyond the rounding the documented fill would allow. */
  lemma SecondBuyIsBeyondRounding(q: int, a: int, b: int, ltp: int)
    requires q > 0
    ensures 2 * (q * (ltp - b)) > RoundingBudget(FLAT, TwoBuys(q, a, b)) <==> ltp >= b + 2
  {
    BudgetOfTwoBuys(q, a, b);
    if ltp >= b + 2 {
      MulMono(q, 2, ltp - b);
    } else {
      MulMono(q, ltp - b, 1);
    }
  }

  /** A first buy, which commits in either case. */
  lemma OneBuy(initialised: bool, q: int, a: int)
    requires q > 0
    ensures var events := [Filled(FillEvent(BUY, q, a, 0))];
            var p := RowAfter(initialised, FLAT, events);
            && p.net == q && p.average == a && p.realized == 0 && p.unrealized == 0
            && OrderFills(events) == [FillEvent(BUY, q, a, 0)]
            && Flow(initialised, FLAT, events) == [FillEvent(BUY, q, a, 0)]
            && UnsharedQuantity(initialised, FLAT, events) == 0 && UnsharedCost(initialised, FLAT, events) == 0
            && LastMark(initialised, FLAT, events) == 0
  {
    var f := FillEvent(BUY, q, a, 0);
    assert Front([Filled(f)]) == [];
    assert RowAfter(initialised, FLAT, []) == FLAT;
    OpenAt(q, a);
  }

  lemma BudgetOfTwoBuys(q: int, a: int, b: int)
    requires q > 0
    ensures RoundingBudget(FLAT, TwoBuys(q, a, b)) == 3 * q
  {
    var f1, f2 := FillEvent(BUY, q, a, 0), FillEvent(BUY, q, b, 0);
    assert [f1, f2][..1] == [f1] && [f1][..0] == [];
    assert Replay(FLAT, []) == FLAT;
    OpenedRow(q, a);
    assert RoundingBudget(FLAT, [f1]) == q;
  }

  /** Buy, mark, sell it all: nothing rolls back, yet the flat row shows the mark on top of the gain, and no
      later pass takes it off. The two books agree only if the mark was at cost. */
  lemma MarkedRoundTripKeepsItsMark(inst: Instrument, initialised: bool, q: int, a: int, m: int, b: int, ltp: int)
    requires q > 0 && a > 0 && m > 0 && b > 0 && ltp > 0
    ensures var buy, sell := FillEvent(BUY, q, a, 0), FillEvent(SELL, q, b, 0);
            var events := [Filled(buy), Marked(m), Filled(sell)];
            var row := RowAfter(initialised, FLAT, events);
            && OrderFills(events) == [buy, sell] && UnsharedValue(initialised, events, ltp) == 0
            && row.net == 0 && row.realized == (b - a) * q && row.unrealized == (m - a) * q
            && MarkToMarket(row, ltp) == row
            && PageTotal(inst, [buy, sell], ltp) == ((b - a) * q) as real
            && (PageTotal(inst, [buy, sell], ltp) == RowTotal(initialised, events, ltp) as real <==> m == a)
  {
    var buy, sell := FillEvent(BUY, q, a, 0), FillEvent(SELL, q, b, 0);
    MarkedRoundTripRow(initialised, q, a, m, b);
    FlowsOfTrip(q, a, b);
    PageTotalIsCashPlusMarket(inst, [buy, sell], ltp);
    ZeroGain(m - a, q);
  }

  lemma ZeroGain(d: int, q: int)
    requires q > 0
    ensures d * q == 0 <==> d == 0
  {
  }

  lemma FlowsOfTrip(q: int, a: int, b: int)
    ensures var fills := [FillEvent(BUY, q, a, 0), FillEvent(SELL, q, b, 0)];
            SignedQuantity(fills) == 0 && SignedCost(fills) == -((b - a) * q)
  {
    var buy, sell := FillEvent(BUY, q, a, 0), FillEvent(SELL, q, b, 0);
    OneFlow(buy);
    FlowsPush([buy], sell);
    assert [buy] + [sell] == [buy, sell];
  }

  lemma MarkedRoundTripRow(initialised: bool, q: int, a: int, m: int, b: int)
    requires q > 0 && m > 0
    ensures var buy, sell := FillEvent(BUY, q, a, 0), FillEvent(SELL, q, b, 0);
            var events := [Filled(buy), Marked(m), Filled(sell)];
            var row := RowAfter(initialised, FLAT, events);
            && OrderFills(events) == [buy, sell]
            && UnsharedQuantity(initialised, FLAT, events) == 0 && UnsharedCost(initialised, FLAT, events) == 0
            && row.net == 0 && row.realized == (b - a) * q && row.unrealized == (m - a) * q
  {
    var buy, sell := FillEvent(BUY, q, a, 0), FillEvent(SELL, q, b, 0);
    var one, two, three := [Filled(buy)], [Filled(buy), Marked(m)], [Filled(buy), Marked(m), Filled(sell)];
    OneBuy(initialised, q, a);
    assert Front(two) == one && Front(three) == two;
    var p := RowAfter(initialised, FLAT, one);
    MarkIsWorth(p, m);
    MarkCore(p, m);
    assert RowAfter(initialised, FLAT, two) == MarkToMarket(p, m);
    assert OrderFills(two) == [buy];
    CloseAt(MarkToMarket(p, m), q, a, b);
    FillKeepsUnrealized(initialised, MarkToMarket(p, m), sell);
  }

  /** When the page's position is flat and nothing net is unshared, the realized figures alone are the totals,
      whatever marks came between. */
  lemma {:induction false} FlatBooksAgree(inst: Instrument, initialised: bool, events: seq<RowEvent>)
    requires GoodEvents(events) && PositivePrices(OrderFills(events))
    requires SignedQuantity(OrderFills(events)) == 0 && UnsharedQuantity(initialised, FLAT, events) == 0
    ensures var flow := Flow(initialised, FLAT, events);
            var gap := Realized(AggregateOf(AsOrders(inst, OrderFills(events)), inst))
                       - (RowAfter(initialised, FLAT, events).realized
                          - UnsharedCost(initialised, FLAT, events)) as real;
            && -(RoundingBudget(FLAT, flow) as real) <= 2.0 * gap <= RoundingBudget(FLAT, flow) as real
            && (ExactAverages(FLAT, flow) || !initialised ==> gap == 0.0)
  {
    FlowIsGood(initialised, FLAT, events);
    BooksDifferByWhatIsUnshared(inst, initialised, events, 1);
    FlatPage(inst, OrderFills(events));
    FlatRow(initialised, events);
  }

  lemma {:induction false} FlatPage(inst: Instrument, fills: seq<FillEvent>)
    requires GoodFills(fills) && PositivePrices(fills) && SignedQuantity(fills) == 0
    ensures PageTotal(inst, fills, 1) == Realized(AggregateOf(AsOrders(inst, fills), inst))
  {
    SameFlows(inst, fills);
  }

  lemma {:induction false} FlatRow(initialised: bool, events: seq<RowEvent>)
    requires GoodEvents(events)
    requires SignedQuantity(OrderFills(events)) == 0 && UnsharedQuantity(initialised, FLAT, events) == 0
    ensures RowTotal(initialised, events, 1) - LeftOver(initialised, events) ==
            RowAfter(initialised, FLAT, events).realized
    ensures UnsharedValue(initialised, events, 1) == -UnsharedCost(initialised, FLAT, events)
  {
    RestIsUnshared(initialised, FLAT, events);
    HistoryPnlIdentity(initialised, FLAT, events);
    UnrealizedIsLastMark(initialised, FLAT, events);
  }

  /** Open, close at a gain or loss, open again. */
  function Reopened(q: int, a: int, b: int, c: int): seq<FillEvent> {
    [FillEvent(BUY, q, a, 0), FillEvent(SELL, q, b, 0), FillEvent(BUY, q, c, 0)]
  }

  /** Only the totals agree. After a round trip and a second opening, the sandbox has realized the round
      trip; the page averages both openings, and reports the same only when they cost the same. */
  lemma SplitsDiffer(inst: Instrument, q: int, a: int, b: int, c: int)
    requires q > 0 && a > 0 && b > 0 && c > 0
    ensures var sandbox := Replay(FLAT, Reopened(q, a, b, c)).realized;
            var page := Realized(AggregateOf(AsOrders(inst, Reopened(q, a, b, c)), inst));
            && sandbox == (b - a) * q
            && 2.0 * page == ((2 * b - a - c) * q) as real
            && (page == sandbox as real <==> a == c)
  {
    ReopenedRow(q, a, b, c);
    ReopenedAggregate(inst, q, a, b, c);
    ReopenedAverages(q, a, b, c);
    SameSplit(q, a, b, c);
  }

  lemma SameSplit(q: int, a: int, b: int, c: int)
    requires q > 0
    ensures (2 * b - a - c) * q == 2 * ((b - a) * q) <==> a == c
  {
    assert (2 * b - a - c) * q - 2 * ((b - a) * q) == (a - c) * q;
  }

  lemma ReopenedAggregate(inst: Instrument, q: int, a: int, b: int, c: int)
    requires q > 0 && a > 0 && b > 0 && c > 0
    ensures AggregateOf(AsOrders(inst, Reopened(q, a, b, c)), inst) == Aggregate(q + q, q * a + q * c, q, q * b)
  {
    var f1, f2, f3 := FillEvent(BUY, q, a, 0), FillEvent(SELL, q, b, 0), FillEvent(BUY, q, c, 0);
    assert [] + [f1] == [f1] && [f1] + [f2] == [f1, f2] && [f1, f2] + [f3] == Reopened(q, a, b, c);
    AsOrdersPush(inst, [], f1);
    AsOrdersPush(inst, [f1], f2);
    AsOrdersPush(inst, [f1, f2], f3);
    AggregatePush([], AsOrder(inst, f1));
    AggregatePush(AsOrders(inst, [f1]), AsOrder(inst, f2));
    AggregatePush(AsOrders(inst, [f1, f2]), AsOrder(inst, f3));
  }

  lemma ReopenedAverages(q: int, a: int, b: int, c: int)
    requires q > 0
    ensures 2.0 * Realized(Aggregate(q + q, q * a + q * c, q, q * b)) == ((2 * b - a - c) * q) as real
  {
    var x := Aggregate(q + q, q * a + q * c, q, q * b);
    AverageTimes(x.sellValue, q);
    AverageTimes(x.buyValue, q + q);
    var s, t, r := Average(x.sellValue, q), Average(x.buyValue, q + q), q as real;
    assert Realized(x) == (s - t) * r;
    assert t * (q + q) as real == 2.0 * (t * r);
    assert 2.0 * ((s - t) * r) == 2.0 * (s * r) - 2.0 * (t * r);
    assert (2 * b - a - c) * q == 2 * (q * b) - (q * a + q * c);
  }

  lemma ReopenedRow(q: int, a: int, b: int, c: int)
    requires q > 0
    ensures Replay(FLAT, Reopened(q, a, b, c)).realized == (b - a) * q
  {
    var f3 := FillEvent(BUY, q, c, 0);
    var closed := [FillEvent(BUY, q, a, 0), FillEvent(SELL, q, b, 0)];
    ClosedRow(q, a, b);
    ReplayPush(FLAT, closed, f3);
    KeepsRealized(Replay(FLAT, closed), q, c);
    assert closed + [f3] == Reopened(q, a, b, c);
  }

  lemma ClosedRow(q: int, a: int, b: int)
    requires q > 0
    ensures var p := Replay(FLAT, [FillEvent(BUY, q, a, 0), FillEvent(SELL, q, b, 0)]);
            p.net == 0 && p.realized == (b - a) * q
  {
    var f1, f2 := FillEvent(BUY, q, a, 0), FillEvent(SELL, q, b, 0);
    OpenedRow(q, a);
    ReplayPush(FLAT, [f1], f2);
    CloseAt(Replay(FLAT, [f1]), q, a, b);
    assert [f1] + [f2] == [f1, f2];
  }

  lemma OpenedRow(q: int, a: int)
    requires q > 0
    ensures var p := Replay(FLAT, [FillEvent(BUY, q, a, 0)]);
            p.net == q && p.average == a && p.realized == 0
  {
    ReplayPush(FLAT, [], FillEvent(BUY, q, a, 0));
    OpenAt(q, a);
    assert [] + [FillEvent(BUY, q, a, 0)] == [FillEvent(BUY, q, a, 0)];
  }

  lemma {:induction false} AggregatePush(orders: seq<StrategyOrder>, o: StrategyOrder)
    requires Usable(o)
    ensures AggregateOf(orders + [o], o.inst) == AddOrder(AggregateOf(orders, o.inst), o)
  {
    assert (orders + [o])[..|orders|] == orders;
  }

  lemma {:induction false} AsOrdersPush(inst: Instrument, fills: seq<FillEvent>, e: FillEvent)
    ensures AsOrders(inst, fills + [e]) == AsOrders(inst, fills) + [AsOrder(inst, e)]
  {
    assert (fills + [e])[..|fills|] == fills;
  }

  /** Selling all of a long row books the difference on the whole quantity. */
  lemma CloseAt(p: Position, quantity: int, average: int, price: int)
    requires p.net == quantity > 0 && p.average == average && p.realized == 0
    ensures var q := Fill(p, SELL, quantity, price, 0).pos;
            q.net == 0 && q.realized == (price - average) * quantity
  {
  }

  lemma KeepsRealized(p: Position, quantity: int, price: int)
    requires p.net == 0 && quantity > 0
    ensures Fill(p, BUY, quantity, price, 0).pos.realized == p.realized
  {
  }

  /** A first fill takes the price as its average. */
  lemma OpenAt(quantity: int, price: int)
    requires quantity > 0
    ensures var q := Fill(FLAT, BUY, quantity, price, 0).pos;
            q.net == quantity && q.average == price && q.realized == 0
  {
    RoundDivExact(price, quantity);
  }
}
