/** All that happens to one position row between two settlements: fills, each through its transaction, marks
    to market, and closes outside the order path. Marks touch neither quantity nor average nor realized P&L,
    and nothing but a mark or such a close touches the unrealized figure; a full close by a fill keeps it. */
module RowHistory {
  import opened Rounding
  import opened Rows
  import opened Positions

  datatype RowEvent = Filled(fill: FillEvent) | Marked(ltp: int) | Closed(price: int)

  function Step(initialised: bool, p: Position, e: RowEvent): Position {
    match e
    case Filled(f) =>
      (match FillTransaction(initialised, p, f.action, f.quantity, f.price, f.margin)
       case None => p
       case Some(r) => r.pos)
    case Marked(ltp) => MarkToMarket(p, ltp)
    case Closed(price) => if p.net != 0 then CloseRow(p, price) else p
  }

  function RowAfter(initialised: bool, p: Position, events: seq<RowEvent>): Position {
    if events == [] then p else Step(initialised, RowAfter(initialised, p, Front(events)), Last(events))
  }

  function Front(events: seq<RowEvent>): seq<RowEvent>
    requires events != []
  {
    events[..|events| - 1]
  }

  function Last(events: seq<RowEvent>): RowEvent
    requires events != []
  {
    events[|events| - 1]
  }

  /** The fills of the orders, whether or not the row took them. */
  function OrderFills(events: seq<RowEvent>): seq<FillEvent> {
    if events == [] then []
    else OrderFills(Front(events)) + if Last(events).Filled? then [Last(events).fill] else []
  }

  /** The fill that a close outside the order path amounts to. */
  function CloseFill(net: int, price: int): FillEvent {
    FillEvent(if net > 0 then SELL else BUY, Abs(net), price, 0)
  }

  predicate Lost(initialised: bool, p: Position, e: RowEvent) {
    e.Filled? && !initialised && Raises(p, e.fill.action, e.fill.quantity)
  }

  /** What of an event changes the row's quantity. */
  function FlowOf(initialised: bool, p: Position, e: RowEvent): seq<FillEvent> {
    match e
    case Filled(f) => if Lost(initialised, p, e) then [] else [f]
    case Marked(_) => []
    case Closed(price) => if p.net != 0 then [CloseFill(p.net, price)] else []
  }

  function Flow(initialised: bool, p: Position, events: seq<RowEvent>): seq<FillEvent> {
    if events == [] then []
    else
      Flow(initialised, p, Front(events)) +
      FlowOf(initialised, RowAfter(initialised, p, Front(events)), Last(events))
  }

  // ----- quantity, average and realized P&L -----

  predicate Core(p: Position, q: Position) {
    p.net == q.net && p.average == q.average && p.realized == q.realized
  }

  lemma FillCore(p: Position, q: Position, e: FillEvent)
    requires Core(p, q)
    ensures Core(Apply(p, e).pos, Apply(q, e).pos)
  {
  }

  lemma MarkCore(p: Position, ltp: int)
    ensures Core(MarkToMarket(p, ltp), p)
  {
  }

  lemma CloseCore(p: Position, q: Position, price: int)
    requires Core(p, q) && p.net != 0
    ensures Core(CloseRow(p, price), Apply(q, CloseFill(p.net, price)).pos)
  {
  }

  lemma {:induction false} FlowStep(initialised: bool, p: Position, events: seq<RowEvent>)
    requires events != []
    ensures var before, flow := RowAfter(initialised, p, Front(events)), Flow(initialised, p, Front(events));
            Flow(initialised, p, events) == flow + FlowOf(initialised, before, Last(events))
    ensures RowAfter(initialised, p, events) == Step(initialised, RowAfter(initialised, p, Front(events)), Last(events))
  {
  }

  lemma StepCore(initialised: bool, before: Position, replayed: Position, e: RowEvent)
    requires Core(before, replayed)
    ensures var flow := FlowOf(initialised, before, e);
            && |flow| <= 1
            && Core(Step(initialised, before, e), if flow == [] then replayed else Apply(replayed, flow[0]).pos)
  {
    match e
    case Filled(f) => FillCore(before, replayed, f);
    case Marked(ltp) => MarkCore(before, ltp);
    case Closed(price) =>
      if before.net != 0 {
        CloseCore(before, replayed, price);
      }
  }

  /** In quantity, average and realized P&L the row is the replay of its flow: marks leave no trace there. */
  lemma {:induction false} RowIsItsFlow(initialised: bool, p: Position, events: seq<RowEvent>)
    ensures Core(RowAfter(initialised, p, events), Replay(p, Flow(initialised, p, events)))
  {
    if events != [] {
      var rest := Front(events);
      var before, flow := RowAfter(initialised, p, rest), Flow(initialised, p, rest);
      RowIsItsFlow(initialised, p, rest);
      FlowStep(initialised, p, events);
      StepCore(initialised, before, Replay(p, flow), Last(events));
      var more := FlowOf(initialised, before, Last(events));
      if more == [] {
        assert flow + more == flow;
      } else {
        assert more == [more[0]];
        ReplayPush(p, flow, more[0]);
      }
    }
  }

  predicate GoodEvents(events: seq<RowEvent>) {
    forall i :: 0 <= i < |events| && events[i].Filled? ==> events[i].fill.quantity > 0 && events[i].fill.margin >= 0
  }

  lemma {:induction false} FlowIsGood(initialised: bool, p: Position, events: seq<RowEvent>)
    requires GoodEvents(events)
    ensures GoodFills(Flow(initialised, p, events)) && GoodFills(OrderFills(events))
  {
    if events != [] {
      FlowIsGood(initialised, p, Front(events));
    }
  }

  /** The P&L identity over a row's whole history, marks and closes included: within the rounding of the
      averages, and exactly when they are exact. */
  lemma {:induction false} HistoryPnlIdentity(initialised: bool, p: Position, events: seq<RowEvent>)
    requires GoodEvents(events)
    ensures var q, flow := RowAfter(initialised, p, events), Flow(initialised, p, events);
            && 2 * Abs(Gap(p, q, SignedCost(flow))) <= RoundingBudget(p, flow)
            && (ExactAverages(p, flow) || !initialised ==> Gap(p, q, SignedCost(flow)) == 0)
            && q.net == p.net + SignedQuantity(flow)
  {
    RowIsItsFlow(initialised, p, events);
    FlowIsGood(initialised, p, events);
    PnlIdentity(p, Flow(initialised, p, events));
    if !initialised {
      ShippedAveragesExact(p, events);
    }
  }

  /** As the code stands every average is exact: a row that is open is never added to. */
  lemma {:induction false} ShippedAveragesExact(p: Position, events: seq<RowEvent>)
    requires GoodEvents(events)
    ensures ExactAverages(p, Flow(false, p, events))
  {
    if events != [] {
      var rest := Front(events);
      var before, flow := RowAfter(false, p, rest), Flow(false, p, rest);
      ShippedAveragesExact(p, rest);
      FlowStep(false, p, events);
      RowIsItsFlow(false, p, rest);
      var more := FlowOf(false, before, Last(events));
      if more == [] {
        assert flow + more == flow;
      } else {
        assert more == [more[0]];
        FlowOpensOrReduces(before, Last(events));
        OpeningIsExact(Replay(p, flow), more[0]);
        ExactPush(p, flow, more[0]);
      }
    }
  }

  lemma FlowOpensOrReduces(p: Position, e: RowEvent)
    requires e.Filled? ==> e.fill.quantity > 0
    ensures forall f :: f in FlowOf(false, p, e) ==> f.quantity > 0 && !Raises(p, f.action, f.quantity)
  {
  }

  // ----- what the orders and the row do not share -----

  /** Quantity and cash of the fills that rolled back, which only the orders know, less those of the closes
      outside the order path, which only the row knows. */
  function UnsharedQuantity(initialised: bool, p: Position, events: seq<RowEvent>): int {
    if events == [] then 0
    else
      var before, e := RowAfter(initialised, p, Front(events)), Last(events);
      UnsharedQuantity(initialised, p, Front(events)) +
      if Lost(initialised, before, e) then Signed(e.fill.action, e.fill.quantity)
      else if e.Closed? then before.net else 0
  }

  function UnsharedCost(initialised: bool, p: Position, events: seq<RowEvent>): int {
    if events == [] then 0
    else
      var before, e := RowAfter(initialised, p, Front(events)), Last(events);
      UnsharedCost(initialised, p, Front(events)) +
      if Lost(initialised, before, e) then Signed(e.fill.action, e.fill.quantity) * e.fill.price
      else if e.Closed? then before.net * e.price else 0
  }

  lemma CloseFlows(net: int, price: int)
    requires net != 0
    ensures var f := CloseFill(net, price);
            Signed(f.action, f.quantity) == -net && Signed(f.action, f.quantity) * f.price == -(net * price)
  {
  }

  lemma OneFlow(f: FillEvent)
    ensures SignedQuantity([f]) == Signed(f.action, f.quantity)
    ensures SignedCost([f]) == Signed(f.action, f.quantity) * f.price
  {
    FlowsPush([], f);
    assert [] + [f] == [f];
  }

  lemma {:induction false} FlowsConcat(a: seq<FillEvent>, b: seq<FillEvent>)
    requires |b| <= 1
    ensures SignedQuantity(a + b) == SignedQuantity(a) + SignedQuantity(b)
    ensures SignedCost(a + b) == SignedCost(a) + SignedCost(b)
  {
    if b == [] {
      assert a + b == a;
    } else {
      assert b == [b[0]];
      FlowsPush(a, b[0]);
      OneFlow(b[0]);
    }
  }

  lemma OneUnshared(initialised: bool, before: Position, e: RowEvent)
    ensures var orders := if e.Filled? then [e.fill] else [];
            var flow := FlowOf(initialised, before, e);
            && |flow| <= 1
            && SignedQuantity(orders) == SignedQuantity(flow) +
               (if Lost(initialised, before, e) then Signed(e.fill.action, e.fill.quantity)
                else if e.Closed? then before.net else 0)
            && SignedCost(orders) == SignedCost(flow) +
               (if Lost(initialised, before, e) then Signed(e.fill.action, e.fill.quantity) * e.fill.price
                else if e.Closed? then before.net * e.price else 0)
  {
    if e.Filled? {
      OneFlow(e.fill);
    } else if e.Closed? && before.net != 0 {
      CloseFlows(before.net, e.price);
      OneFlow(CloseFill(before.net, e.price));
    }
  }

  /** The orders' quantity and cash are the row's and what the two do not share. */
  lemma {:induction false} RestIsUnshared(initialised: bool, p: Position, events: seq<RowEvent>)
    ensures var orders, flow := OrderFills(events), Flow(initialised, p, events);
            && SignedQuantity(orders) == SignedQuantity(flow) + UnsharedQuantity(initialised, p, events)
            && SignedCost(orders) == SignedCost(flow) + UnsharedCost(initialised, p, events)
  {
    if events != [] {
      var rest, e := Front(events), Last(events);
      var before := RowAfter(initialised, p, rest);
      RestIsUnshared(initialised, p, rest);
      OneUnshared(initialised, before, e);
      FlowsConcat(OrderFills(rest), if e.Filled? then [e.fill] else []);
      FlowsConcat(Flow(initialised, p, rest), FlowOf(initialised, before, e));
    }
  }

  predicate NoCloses(events: seq<RowEvent>) {
    forall i :: 0 <= i < |events| ==> !events[i].Closed?
  }

  /** As documented, and with every row closed through its orders, nothing is unshared. */
  lemma {:induction false} DocumentedSharesAll(p: Position, events: seq<RowEvent>)
    requires NoCloses(events)
    ensures UnsharedQuantity(true, p, events) == 0 && UnsharedCost(true, p, events) == 0
    ensures Flow(true, p, events) == OrderFills(events)
  {
    if events != [] {
      DocumentedSharesAll(p, Front(events));
    }
  }

  // ----- the unrealized figure -----

  /** The worth of the last mark that found the row open, unless a close outside the order path cleared it. */
  function LastMark(initialised: bool, p: Position, events: seq<RowEvent>): int {
    if events == [] then p.unrealized
    else
      var q := Replay(p, Flow(initialised, p, Front(events)));
      match Last(events)
      case Filled(_) => LastMark(initialised, p, Front(events))
      case Marked(ltp) =>
        if ltp > 0 && q.net != 0 then (ltp - q.average) * q.net else LastMark(initialised, p, Front(events))
      case Closed(_) => if q.net != 0 then 0 else LastMark(initialised, p, Front(events))
  }

  lemma MarkIsWorth(p: Position, ltp: int)
    ensures ltp > 0 && p.net != 0 ==> MarkToMarket(p, ltp).unrealized == (ltp - p.average) * p.net
    ensures ltp <= 0 || p.net == 0 ==> MarkToMarket(p, ltp) == p
  {
    if p.net < 0 {
      assert (p.average - ltp) * (-p.net) == (ltp - p.average) * p.net;
    }
  }

  lemma FillKeepsUnrealized(initialised: bool, p: Position, f: FillEvent)
    ensures Step(initialised, p, Filled(f)).unrealized == p.unrealized
  {
  }

  /** The row's unrealized figure is that last mark, however many fills came after it. */
  lemma {:induction false} UnrealizedIsLastMark(initialised: bool, p: Position, events: seq<RowEvent>)
    ensures RowAfter(initialised, p, events).unrealized == LastMark(initialised, p, events)
  {
    if events != [] {
      var before := RowAfter(initialised, p, Front(events));
      UnrealizedIsLastMark(initialised, p, Front(events));
      RowIsItsFlow(initialised, p, Front(events));
      match Last(events)
      case Filled(f) => FillKeepsUnrealized(initialised, before, f);
      case Marked(ltp) => MarkIsWorth(before, ltp);
      case Closed(price) =>
    }
  }

  /** The `pnl` column, which the daily snapshot sums, is always the realized and the unrealized. */
  lemma {:induction false} ShownIsTotal(initialised: bool, p: Position, events: seq<RowEvent>)
    requires p.pnl == p.realized + p.unrealized
    ensures var q := RowAfter(initialised, p, events); q.pnl == q.realized + q.unrealized
  {
    if events != [] {
      ShownIsTotal(initialised, p, Front(events));
      StepShows(initialised, RowAfter(initialised, p, Front(events)), Last(events));
    }
  }

  lemma StepShows(initialised: bool, p: Position, e: RowEvent)
    requires p.pnl == p.realized + p.unrealized
    ensures var q := Step(initialised, p, e); q.pnl == q.realized + q.unrealized
  {
  }

  // ----- the row's total -----

  /** Realized and unrealized after a last pass of marking at ltp. */
  function RowTotal(initialised: bool, events: seq<RowEvent>, ltp: int): int {
    var q := MarkToMarket(RowAfter(initialised, FLAT, events), ltp);
    q.realized + q.unrealized
  }

  /** What a flat row still shows as unrealized: the pass skips it. */
  function LeftOver(initialised: bool, events: seq<RowEvent>): int {
    if SignedQuantity(Flow(initialised, FLAT, events)) == 0 then LastMark(initialised, FLAT, events) else 0
  }

  /** The row's cash flow with what it holds at the last price. */
  function CashPlusMarket(initialised: bool, events: seq<RowEvent>, ltp: int): int {
    var flow := Flow(initialised, FLAT, events);
    ltp * SignedQuantity(flow) - SignedCost(flow)
  }

  lemma TotalAfterMark(q: Position, ltp: int)
    requires ltp > 0
    ensures var m := MarkToMarket(q, ltp);
            m.realized + m.unrealized ==
            q.realized + ltp * q.net - q.net * q.average + if q.net == 0 then q.unrealized else 0
  {
    MarkIsWorth(q, ltp);
    assert (ltp - q.average) * q.net == ltp * q.net - q.net * q.average;
  }

  lemma GapFromFlat(q: Position, cost: int)
    ensures Gap(FLAT, q, cost) == q.realized + cost - q.net * q.average
  {
  }

  lemma {:induction false} HistoryNet(initialised: bool, events: seq<RowEvent>)
    requires GoodEvents(events)
    ensures RowAfter(initialised, FLAT, events).net == SignedQuantity(Flow(initialised, FLAT, events))
  {
    HistoryPnlIdentity(initialised, FLAT, events);
  }

  lemma {:induction false} TotalIsGap(initialised: bool, events: seq<RowEvent>, ltp: int)
    requires GoodEvents(events) && ltp > 0
    ensures RowTotal(initialised, events, ltp)
            - (CashPlusMarket(initialised, events, ltp) + LeftOver(initialised, events)) ==
            Gap(FLAT, RowAfter(initialised, FLAT, events), SignedCost(Flow(initialised, FLAT, events)))
  {
    var q := RowAfter(initialised, FLAT, events);
    HistoryNet(initialised, events);
    UnrealizedIsLastMark(initialised, FLAT, events);
    TotalAfterMark(q, ltp);
    GapFromFlat(q, SignedCost(Flow(initialised, FLAT, events)));
  }

  /** Over any history the row's total is cash plus market and what a flat row has left over, up to the
      rounding of the running average, and with no rounding in the code as it stands. */
  lemma {:induction false} RowTotalIsCashPlusMarket(initialised: bool, events: seq<RowEvent>, ltp: int)
    requires GoodEvents(events) && ltp > 0
    ensures var flow := Flow(initialised, FLAT, events);
            var gap := RowTotal(initialised, events, ltp)
                       - (CashPlusMarket(initialised, events, ltp) + LeftOver(initialised, events));
            && 2 * Abs(gap) <= RoundingBudget(FLAT, flow)
            && (ExactAverages(FLAT, flow) || !initialised ==> gap == 0)
  {
    TotalIsGap(initialised, events, ltp);
    HistoryPnlIdentity(initialised, FLAT, events);
  }

  /** With exact averages, so always as the code stands, the row's total is cash plus market exactly when the
      row is open or no unrealized figure was left by the last mark before the close. */
  lemma {:induction false} TotalIsCashExactly(initialised: bool, events: seq<RowEvent>, ltp: int)
    requires GoodEvents(events) && ltp > 0
    requires ExactAverages(FLAT, Flow(initialised, FLAT, events)) || !initialised
    ensures RowTotal(initialised, events, ltp) == CashPlusMarket(initialised, events, ltp) <==>
            RowAfter(initialised, FLAT, events).net != 0 || LastMark(initialised, FLAT, events) == 0
  {
    RowTotalIsCashPlusMarket(initialised, events, ltp);
    HistoryPnlIdentity(initialised, FLAT, events);
  }
}
