/** One fill against one position row: accumulate, reduce, close or reverse. */
module Positions {
  import opened Rounding
  import opened Rows

  datatype FillResult = FillResult(pos: Position, realized: int, release: int)

  /** A fresh row, or a fill on the side the row is already on. */
  predicate Accumulates(net: int, signed: int) {
    (net >= 0 && signed > 0) || (net <= 0 && signed < 0)
  }

  /** What the committed transaction leaves in the row, the P&L it books and the margin it frees. */
  function Fill(p: Position, action: Action, quantity: int, price: int, orderMargin: int): FillResult {
    var signed := Signed(action, quantity);
    var f := if Accumulates(p.net, signed) then Accumulate(p, signed, price, orderMargin)
             else Offset(p, signed, price, orderMargin);
    f.(pos := Book(f.pos, action, quantity, price))
  }

  /** The new average spreads the whole cost over the new quantity; the order's margin joins the row's. */
  function Accumulate(p: Position, signed: int, price: int, orderMargin: int): FillResult {
    var net := p.net + signed;
    var cost := p.average * Abs(p.net) + price * Abs(signed);
    var average := if net != 0 then RoundDiv(cost, Abs(net)) else 0;
    FillResult(p.(net := net, average := average, margin := p.margin + orderMargin), 0, 0)
  }

  /** Book the gain on what is offset and free its share of the margin; a close or a reversal frees it all,
      and what a reversal leaves is a new row at the fill price on the order's margin. */
  function Offset(p: Position, signed: int, price: int, orderMargin: int): FillResult {
    var net := p.net + signed;
    var offset := Min(Abs(p.net), Abs(signed));
    var realized := if p.net > 0 then (price - p.average) * offset else (p.average - price) * offset;
    var share := if Abs(p.net) > 0 && p.margin > 0 then RoundDiv(p.margin * offset, Abs(p.net)) else 0;
    var (average, margin, release) :=
      if net == 0 then (0, 0, p.margin)
      else if Abs(signed) > offset then (price, orderMargin, p.margin)
      else (p.average, Max(0, p.margin - share), share);
    FillResult(p.(net := net, average := average, margin := margin,
                  realized := p.realized + realized, today := p.today + realized), realized, release)
  }

  /** The intraday counters and the `pnl` column, refreshed by every fill. */
  function Book(p: Position, action: Action, quantity: int, price: int): Position {
    var q :=
      if action == BUY then
        p.(dayBuyQty := p.dayBuyQty + quantity,
           dayBuyValue := RoundDiv(TICKS_PER_PAISA * p.dayBuyValue + price * quantity, TICKS_PER_PAISA))
      else
        p.(daySellQty := p.daySellQty + quantity,
           daySellValue := RoundDiv(TICKS_PER_PAISA * p.daySellValue + price * quantity, TICKS_PER_PAISA));
    q.(pnl := q.realized + q.unrealized)
  }

  /** The fill transaction reads `remaining` after the row is written, and only the opposite-side path
      assigns it. A fill that adds to an open row therefore raises, and its transaction rolls back. */
  predicate Raises(p: Position, action: Action, quantity: int) {
    Accumulates(p.net, Signed(action, quantity)) && p.net != 0
  }

  /** The fill transaction. `initialised` says whether `remaining` starts at 0, which is what the module's
      own description needs; with `initialised == false` this is the transaction as it is written. */
  function FillTransaction(initialised: bool, p: Position, action: Action, quantity: int, price: int,
                           orderMargin: int): Option<FillResult>
  {
    if !initialised && Raises(p, action, quantity) then None
    else Some(Fill(p, action, quantity, price, orderMargin))
  }

  /** The order margin a fill puts on the row: nothing when it only reduces or closes. */
  function Placed(p: Position, action: Action, quantity: int, orderMargin: int): int {
    var signed := Signed(action, quantity);
    if Accumulates(p.net, signed) || Abs(signed) > Abs(p.net) then orderMargin else 0
  }

  function MarkToMarket(p: Position, ltp: int): Position {
    if ltp <= 0 || p.net == 0 then p
    else
      var u := if p.net > 0 then (ltp - p.average) * p.net else (p.average - ltp) * Abs(p.net);
      p.(ltp := ltp, unrealized := u, pnl := p.realized + u)
  }

  /** Closing a row outside the order path: stale intraday rows and expired contracts. The day's
      realized bucket is left alone. */
  function CloseRow(p: Position, price: int): Position {
    var realized := p.realized + CloseGain(p, price);
    p.(net := 0, average := 0, margin := 0, unrealized := 0, realized := realized, pnl := realized)
  }

  function CloseGain(p: Position, price: int): int {
    if p.net > 0 then (price - p.average) * p.net else (p.average - price) * Abs(p.net)
  }

  // ----- one fill -----

  /** Every fill moves margin without making or losing a paisa: what was on the row and what the order
      puts there equals what stays and what is released. Nothing goes negative, and a flat row is empty. */
  lemma FillMargin(p: Position, action: Action, quantity: int, price: int, orderMargin: int)
    requires GoodPosition(p) && orderMargin >= 0 && quantity > 0
    ensures var f := Fill(p, action, quantity, price, orderMargin);
            && GoodPosition(f.pos)
            && f.release >= 0
            && p.margin + Placed(p, action, quantity, orderMargin) == f.pos.margin + f.release
            && f.pos.net == p.net + Signed(action, quantity)
            && f.pos.realized == p.realized + f.realized
            && f.pos.today == p.today + f.realized
  {
    var signed := Signed(action, quantity);
    if !Accumulates(p.net, signed) {
      RoundShare(p.margin, Min(Abs(p.net), Abs(signed)), Abs(p.net));
    }
  }

  /** A reduce frees the rounded pro-rata share; a close or a reversal frees all of it. */
  lemma FillRelease(p: Position, action: Action, quantity: int, price: int, orderMargin: int)
    requires GoodPosition(p) && orderMargin >= 0 && quantity > 0
    requires p.net != 0 && (p.net > 0 <==> action != BUY)
    ensures var f := Fill(p, action, quantity, price, orderMargin);
            && (quantity >= Abs(p.net) ==> f.release == p.margin)
            && (quantity < Abs(p.net) ==>
                  && f.pos.average == p.average
                  && -Abs(p.net) <= 2 * (p.margin * quantity - Abs(p.net) * f.release) <= Abs(p.net))
            && (quantity > Abs(p.net) ==> f.pos.average == price && f.pos.margin == orderMargin)
  {
  }

  /** Realized P&L plus net cash paid, less the change in the cost basis held, between two states of a row. */
  function Gap(p: Position, q: Position, cost: int): int {
    (q.realized - p.realized) + cost - (q.net * q.average - p.net * p.average)
  }

  /** What a fill's realized P&L, cash flow and cost basis leave unexplained. */
  function Unexplained(p: Position, action: Action, quantity: int, price: int): int {
    Gap(p, Fill(p, action, quantity, price, 0).pos, Signed(action, quantity) * price)
  }

  /** Only the rounding of a new average price can leave anything: at most half a tick per unit held. */
  lemma FillUnexplained(p: Position, action: Action, quantity: int, price: int)
    requires quantity > 0
    ensures var signed := Signed(action, quantity);
            var u := Unexplained(p, action, quantity, price);
            if Accumulates(p.net, signed) then
              var held := Abs(p.net + signed);
              && 2 * Abs(u) <= held
              && ((p.average * Abs(p.net) + price * Abs(signed)) % held == 0 ==> u == 0)
            else u == 0
  {
    var signed := Signed(action, quantity);
    var q := Fill(p, action, quantity, price, 0).pos;
    if Accumulates(p.net, signed) {
      assert q.realized == p.realized && q.net == p.net + signed;
      AverageGap(p.net, p.average, signed, price);
    } else {
      OffsetGap(p.net, p.average, signed, price);
    }
  }

  /** The arithmetic of an accumulating fill: the new cost basis misses the money spent by the rounding. */
  lemma AverageGap(net: int, average: int, signed: int, price: int)
    requires Accumulates(net, signed)
    ensures var held, cost := Abs(net + signed), average * Abs(net) + price * Abs(signed);
            var u := signed * price - ((net + signed) * RoundDiv(cost, held) - net * average);
            2 * Abs(u) <= held && (cost % held == 0 ==> u == 0)
  {
    var held, cost := Abs(net + signed), average * Abs(net) + price * Abs(signed);
    var rounded := RoundDiv(cost, held);
    RoundResidue(cost, held);
    Negations(net, signed, average, price, rounded);
  }

  lemma RoundResidue(cost: int, held: int)
    requires held > 0
    ensures 2 * Abs(cost - held * RoundDiv(cost, held)) <= held
    ensures cost % held == 0 ==> cost - held * RoundDiv(cost, held) == 0
  {
    if cost % held == 0 {
      RoundDivExact(cost / held, held);
      assert cost == (cost / held) * held;
    }
  }

  lemma Negations(net: int, signed: int, average: int, price: int, rounded: int)
    requires Accumulates(net, signed)
    ensures signed > 0 ==> net * average == average * Abs(net) && signed * price == price * Abs(signed)
    ensures signed < 0 ==> net * average == -(average * Abs(net)) && signed * price == -(price * Abs(signed))
    ensures signed > 0 ==> (net + signed) * rounded == Abs(net + signed) * rounded
    ensures signed < 0 ==> (net + signed) * rounded == -(Abs(net + signed) * rounded)
  {
  }

  /** The arithmetic of an opposite fill: the gain books exactly the basis that leaves. */
  lemma OffsetGap(net: int, average: int, signed: int, price: int)
    requires !Accumulates(net, signed) && signed != 0
    ensures var offset := Min(Abs(net), Abs(signed));
            var gain := if net > 0 then (price - average) * offset else (average - price) * offset;
            var after := if net + signed == 0 then 0 else if Abs(signed) > offset then price else average;
            gain + signed * price - ((net + signed) * after - net * average) == 0
  {
    var offset := Min(Abs(net), Abs(signed));
    assert (price - average) * offset == price * offset - average * offset;
    assert (average - price) * offset == average * offset - price * offset;
    if Abs(signed) > offset {
      assert (net + signed) * price == net * price + signed * price;
      assert net > 0 ==> offset == net;
      assert net < 0 ==> price * offset == -(net * price) && average * offset == -(net * average);
    } else {
      assert (net + signed) * average == net * average + signed * average;
      assert signed > 0 ==> offset == signed;
      assert signed < 0 ==> price * offset == -(signed * price) && average * offset == -(signed * average);
    }
  }

  // ----- a row's whole history -----

  datatype FillEvent = FillEvent(action: Action, quantity: int, price: int, margin: int)

  predicate GoodFills(fills: seq<FillEvent>) {
    forall i :: 0 <= i < |fills| ==> fills[i].quantity > 0 && fills[i].margin >= 0
  }

  /** The row after the fills that committed, oldest first. */
  function Replay(p: Position, fills: seq<FillEvent>): Position {
    if fills == [] then p
    else var e := fills[|fills| - 1]; Apply(Replay(p, fills[..|fills| - 1]), e).pos
  }

  function Apply(p: Position, e: FillEvent): FillResult {
    Fill(p, e.action, e.quantity, e.price, e.margin)
  }

  function SignedCost(fills: seq<FillEvent>): int {
    if fills == [] then 0
    else var e := fills[|fills| - 1]; SignedCost(fills[..|fills| - 1]) + Signed(e.action, e.quantity) * e.price
  }

  function SignedQuantity(fills: seq<FillEvent>): int {
    if fills == [] then 0
    else var e := fills[|fills| - 1]; SignedQuantity(fills[..|fills| - 1]) + Signed(e.action, e.quantity)
  }

  /** The quantity held after an accumulating fill; nothing for any other fill. */
  function Slack(before: Position, e: FillEvent): int {
    var signed := Signed(e.action, e.quantity);
    if Accumulates(before.net, signed) then Abs(before.net + signed) else 0
  }

  /** The new average price of an accumulating fill lands on the tick grid. */
  predicate ExactAverage(before: Position, e: FillEvent) {
    var signed := Signed(e.action, e.quantity);
    Accumulates(before.net, signed) ==>
      (before.average * Abs(before.net) + e.price * Abs(signed)) % Abs(before.net + signed) == 0
  }

  function RoundingBudget(p: Position, fills: seq<FillEvent>): int {
    if fills == [] then 0
    else
      RoundingBudget(p, fills[..|fills| - 1]) + Slack(Replay(p, fills[..|fills| - 1]), fills[|fills| - 1])
  }

  predicate ExactAverages(p: Position, fills: seq<FillEvent>) {
    fills == [] ||
    (ExactAverages(p, fills[..|fills| - 1]) && ExactAverage(Replay(p, fills[..|fills| - 1]), fills[|fills| - 1]))
  }

  function PlacedTotal(p: Position, fills: seq<FillEvent>): int {
    if fills == [] then 0
    else
      var e, before := fills[|fills| - 1], Replay(p, fills[..|fills| - 1]);
      PlacedTotal(p, fills[..|fills| - 1]) + Placed(before, e.action, e.quantity, e.margin)
  }

  function ReleasedTotal(p: Position, fills: seq<FillEvent>): int {
    if fills == [] then 0
    else
      var e, before := fills[|fills| - 1], Replay(p, fills[..|fills| - 1]);
      ReleasedTotal(p, fills[..|fills| - 1]) + Apply(before, e).release
  }

  /** The P&L identity: realized P&L plus net cash paid is the cost basis still held, up to half a tick
      for each unit held after each accumulating fill, and exactly when the averages are exact. */
  lemma {:induction false} PnlIdentity(p: Position, fills: seq<FillEvent>)
    requires GoodFills(fills)
    ensures 2 * Abs(Gap(p, Replay(p, fills), SignedCost(fills))) <= RoundingBudget(p, fills)
    ensures ExactAverages(p, fills) ==> Gap(p, Replay(p, fills), SignedCost(fills)) == 0
    ensures Replay(p, fills).net == p.net + SignedQuantity(fills)
  {
    if fills != [] {
      var e, rest := fills[|fills| - 1], fills[..|fills| - 1];
      PnlIdentity(p, rest);
      PnlStep(Replay(p, rest), e);
      GapAdds(p, Replay(p, rest), Replay(p, fills), SignedCost(rest), Signed(e.action, e.quantity) * e.price);
    }
  }

  lemma GapAdds(p: Position, b: Position, q: Position, c: int, d: int)
    ensures Gap(p, q, c + d) == Gap(p, b, c) + Gap(b, q, d)
  {
  }

  lemma PnlStep(before: Position, e: FillEvent)
    requires e.quantity > 0
    ensures var q, cost := Apply(before, e).pos, Signed(e.action, e.quantity) * e.price;
            && q.net == before.net + Signed(e.action, e.quantity)
            && 2 * Abs(Gap(before, q, cost)) <= Slack(before, e)
            && (ExactAverage(before, e) ==> Gap(before, q, cost) == 0)
  {
    FillUnexplained(before, e.action, e.quantity, e.price);
    MarginIsSeparate(before, e);
  }

  /** The order margin has no say in quantity, price or P&L. */
  lemma MarginIsSeparate(p: Position, e: FillEvent)
    ensures var a, b := Apply(p, e), Fill(p, e.action, e.quantity, e.price, 0);
            && a.pos.net == b.pos.net && a.pos.average == b.pos.average
            && a.pos.realized == b.pos.realized && a.realized == b.realized
  {
  }

  /** Margin conservation over a row's life, exact in paise at every point; from flat to flat, what the
      orders placed on the row is what was released. */
  lemma {:induction false} MarginConserved(p: Position, fills: seq<FillEvent>)
    requires GoodPosition(p) && GoodFills(fills)
    ensures var q := Replay(p, fills);
            && GoodPosition(q)
            && p.margin + PlacedTotal(p, fills) == q.margin + ReleasedTotal(p, fills)
            && (p.net == 0 && q.net == 0 ==> PlacedTotal(p, fills) == ReleasedTotal(p, fills))
  {
    if fills != [] {
      var e, rest := fills[|fills| - 1], fills[..|fills| - 1];
      MarginConserved(p, rest);
      assert e.quantity > 0 && e.margin >= 0;
      FillMargin(Replay(p, rest), e.action, e.quantity, e.price, e.margin);
    }
  }

  // ----- the day's counters -----

  function Bought(fills: seq<FillEvent>): int {
    if fills == [] then 0
    else var e := fills[|fills| - 1]; Bought(fills[..|fills| - 1]) + if e.action == BUY then e.quantity else 0
  }

  function Sold(fills: seq<FillEvent>): int {
    if fills == [] then 0
    else var e := fills[|fills| - 1]; Sold(fills[..|fills| - 1]) + if e.action == BUY then 0 else e.quantity
  }

  function BuyTurnover(fills: seq<FillEvent>): int {
    if fills == [] then 0
    else
      var e := fills[|fills| - 1];
      BuyTurnover(fills[..|fills| - 1]) + if e.action == BUY then e.price * e.quantity else 0
  }

  function SellTurnover(fills: seq<FillEvent>): int {
    if fills == [] then 0
    else
      var e := fills[|fills| - 1];
      SellTurnover(fills[..|fills| - 1]) + if e.action == BUY then 0 else e.price * e.quantity
  }

  function Buys(fills: seq<FillEvent>): nat {
    if fills == [] then 0 else Buys(fills[..|fills| - 1]) + if fills[|fills| - 1].action == BUY then 1 else 0
  }

  /** What the day's quantities mean: what was bought and what was sold, so that their difference is the
      change of the position; and the `pnl` column is the realized and the unrealized. */
  lemma {:induction false} DayQuantities(p: Position, fills: seq<FillEvent>)
    ensures var q := Replay(p, fills);
            && q.dayBuyQty - p.dayBuyQty == Bought(fills) && q.daySellQty - p.daySellQty == Sold(fills)
            && q.net - p.net == (q.dayBuyQty - p.dayBuyQty) - (q.daySellQty - p.daySellQty)
            && (fills != [] || p.pnl == p.realized + p.unrealized ==> q.pnl == q.realized + q.unrealized)
  {
    if fills != [] {
      DayQuantities(p, fills[..|fills| - 1]);
      DayStep(Replay(p, fills[..|fills| - 1]), fills[|fills| - 1]);
    }
  }

  /** What the day's values mean: each side's turnover, to half a paisa for each of its fills. */
  lemma {:induction false} DayValues(p: Position, fills: seq<FillEvent>)
    ensures DayValued(p, Replay(p, fills), BuyTurnover(fills), SellTurnover(fills), Buys(fills), |fills| - Buys(fills))
  {
    if fills != [] {
      var e, rest := fills[|fills| - 1], fills[..|fills| - 1];
      DayValues(p, rest);
      DayValuesStep(p, Replay(p, rest), e, BuyTurnover(rest), SellTurnover(rest), Buys(rest), |rest| - Buys(rest));
    }
  }

  /** Both values stand for these turnovers, to half a paisa for each fill. */
  predicate DayValued(p: Position, q: Position, bought: int, sold: int, buys: int, sells: int) {
    && 2 * Abs(TICKS_PER_PAISA * (q.dayBuyValue - p.dayBuyValue) - bought) <= TICKS_PER_PAISA * buys
    && 2 * Abs(TICKS_PER_PAISA * (q.daySellValue - p.daySellValue) - sold) <= TICKS_PER_PAISA * sells
  }

  lemma DayValuesStep(p: Position, before: Position, e: FillEvent, bought: int, sold: int, buys: int, sells: int)
    requires DayValued(p, before, bought, sold, buys, sells)
    ensures var q, gain := Apply(before, e).pos, e.price * e.quantity;
            if e.action == BUY then DayValued(p, q, bought + gain, sold, buys + 1, sells)
            else DayValued(p, q, bought, sold + gain, buys, sells + 1)
  {
    var q := Apply(before, e).pos;
    DayStep(before, e);
    if e.action == BUY {
      RoundedSum(before.dayBuyValue - p.dayBuyValue, bought, buys, q.dayBuyValue - before.dayBuyValue,
                 e.price * e.quantity);
    } else {
      RoundedSum(before.daySellValue - p.daySellValue, sold, sells, q.daySellValue - before.daySellValue,
                 e.price * e.quantity);
    }
  }

  /** One more value, to half a paisa. */
  lemma RoundedSum(value: int, turnover: int, count: int, more: int, gain: int)
    requires 2 * Abs(TICKS_PER_PAISA * value - turnover) <= TICKS_PER_PAISA * count
    requires 2 * Abs(TICKS_PER_PAISA * more - gain) <= TICKS_PER_PAISA
    ensures 2 * Abs(TICKS_PER_PAISA * (value + more) - (turnover + gain)) <= TICKS_PER_PAISA * (count + 1)
  {
  }

  lemma DayStep(p: Position, e: FillEvent)
    ensures var q := Apply(p, e).pos;
            && q.dayBuyQty == p.dayBuyQty + (if e.action == BUY then e.quantity else 0)
            && q.daySellQty == p.daySellQty + (if e.action == BUY then 0 else e.quantity)
            && q.net == p.net + Signed(e.action, e.quantity)
            && (e.action != BUY ==> q.dayBuyValue == p.dayBuyValue)
            && (e.action == BUY ==> q.daySellValue == p.daySellValue)
            && (e.action == BUY ==>
                  2 * Abs(TICKS_PER_PAISA * (q.dayBuyValue - p.dayBuyValue) - e.price * e.quantity) <= TICKS_PER_PAISA)
            && (e.action != BUY ==>
                  2 * Abs(TICKS_PER_PAISA * (q.daySellValue - p.daySellValue) - e.price * e.quantity) <=
                    TICKS_PER_PAISA)
            && q.pnl == q.realized + q.unrealized
  {
  }

  // ----- the transaction as it is written -----

  lemma ReplayPush(p: Position, fills: seq<FillEvent>, e: FillEvent)
    ensures Replay(p, fills + [e]) == Apply(Replay(p, fills), e).pos
  {
    assert (fills + [e])[..|fills|] == fills;
  }

  lemma FlowsPush(fills: seq<FillEvent>, e: FillEvent)
    ensures SignedCost(fills + [e]) == SignedCost(fills) + Signed(e.action, e.quantity) * e.price
    ensures SignedQuantity(fills + [e]) == SignedQuantity(fills) + Signed(e.action, e.quantity)
  {
    assert (fills + [e])[..|fills|] == fills;
  }

  lemma ExactPush(p: Position, fills: seq<FillEvent>, e: FillEvent)
    requires ExactAverages(p, fills) && ExactAverage(Replay(p, fills), e)
    ensures ExactAverages(p, fills + [e])
  {
    assert (fills + [e])[..|fills|] == fills;
  }

  lemma OpeningIsExact(before: Position, e: FillEvent)
    requires e.quantity > 0 && !Raises(before, e.action, e.quantity)
    ensures ExactAverage(before, e)
  {
    if before.net == 0 {
      var n := Abs(Signed(e.action, e.quantity));
      MultipleOf(e.price, n);
      assert before.average * Abs(before.net) == 0;
    }
  }

  lemma MultipleOf(k: int, n: int)
    requires n > 0
    ensures (k * n) % n == 0
  {
    var r := (k * n) % n;
    assert (k - (k * n) / n) * n == r;
    if k - (k * n) / n > 0 {
      MulMono(n, 1, k - (k * n) / n);
    } else if k - (k * n) / n < 0 {
      MulMono(n, k - (k * n) / n, -1);
    }
  }

  /** The shipped transaction commits, with the documented outcome, exactly on the fills that open a row
      or work against it. */
  lemma ShippedFillCommits(p: Position, action: Action, quantity: int, price: int, orderMargin: int)
    requires quantity > 0
    ensures FillTransaction(false, p, action, quantity, price, orderMargin) ==
            FillTransaction(true, p, action, quantity, price, orderMargin)
            <==> p.net == 0 || (p.net > 0 <==> action != BUY)
  {
  }

  /** Ten bought on top of ten: documented as twenty held, shipped as a rollback. */
  lemma ShippedFillLosesAnAdd()
    ensures var held := FLAT.(net := 10, average := 1_000_000, margin := 100_000);
            && FillTransaction(false, held, BUY, 10, 1_020_000, 102_000) == None
            && FillTransaction(true, held, BUY, 10, 1_020_000, 102_000).Some?
            && var q := FillTransaction(true, held, BUY, 10, 1_020_000, 102_000).value.pos;
               q.net == 20 && q.average == 1_010_000 && q.margin == 202_000
  {
    RoundDivExact(1_010_000, 20);
  }
}
