/** Actions over many rows and many users: one transaction, then one payment per user. */
module Batches {
  import opened Rounding
  import opened Sums
  import opened Rows
  import opened Positions
  import opened Funds
  import opened Books
  import opened Ledger
  import opened LedgerProofs
  import opened Sequential

  /** Release each user's margin, then book each user's P&L outside the day's bucket. */
  function PayDues(b: Books, dues: seq<Due>): Books {
    if dues == [] then b
    else
      var d := dues[|dues| - 1];
      BookTx(ReleaseTx(PayDues(b, dues[..|dues| - 1]), d.user, d.margin, 0), d.user, d.pnl)
  }

  /** Move each user's margin into holdings. */
  function MoveDues(b: Books, dues: seq<Due>): Books {
    if dues == [] then b
    else var d := dues[|dues| - 1]; TransferTx(MoveDues(b, dues[..|dues| - 1]), d.user, d.margin)
  }

  function Paid(f: Fund, margin: int, pnl: int): Fund {
    f.(used := f.used - margin,
       available := f.available + TICKS_PER_PAISA * margin + pnl,
       realized := f.realized + pnl)
  }

  lemma {:induction false} DueMarginGrows(dues: seq<Due>, u: UserId)
    requires GoodDues(dues)
    ensures DueMargin(dues, u) >= 0
    ensures dues != [] ==> 0 <= DueMargin(dues[..|dues| - 1], u) <= DueMargin(dues, u)
  {
    if dues != [] {
      DueMarginGrows(dues[..|dues| - 1], u);
    }
  }

  lemma {:induction false} PayDuesFunds(b: Books, dues: seq<Due>, u: UserId)
    requires GoodDues(dues) && FundOf(b, u).used >= DueMargin(dues, u)
    ensures var c := PayDues(b, dues);
            && c == b.(funds := c.funds)
            && FundOf(c, u) == Paid(FundOf(b, u), DueMargin(dues, u), DuePnl(dues, u))
  {
    if dues != [] {
      var rest, d := dues[..|dues| - 1], dues[|dues| - 1];
      DueMarginGrows(dues, u);
      PayDuesFunds(b, rest, u);
      PayOne(PayDues(b, rest), d, u);
    }
  }

  lemma PayOne(b: Books, d: Due, u: UserId)
    requires d.margin >= 0 && (d.user == u ==> FundOf(b, u).used >= d.margin)
    ensures var c := BookTx(ReleaseTx(b, d.user, d.margin, 0), d.user, d.pnl);
            && c == b.(funds := c.funds)
            && FundOf(c, u) == if d.user == u then Paid(FundOf(b, u), d.margin, d.pnl) else FundOf(b, u)
  {
  }

  lemma {:induction false} MoveDuesFunds(b: Books, dues: seq<Due>, u: UserId)
    requires GoodDues(dues) && FundOf(b, u).used >= DueMargin(dues, u)
    ensures var c := MoveDues(b, dues);
            && c == b.(funds := c.funds)
            && FundOf(c, u) == FundOf(b, u).(used := FundOf(b, u).used - DueMargin(dues, u))
  {
    if dues != [] {
      DueMarginGrows(dues, u);
      MoveDuesFunds(b, dues[..|dues| - 1], u);
    }
  }

  lemma {:induction false} PayDuesRest(b: Books, dues: seq<Due>)
    ensures PayDues(b, dues) == b.(funds := PayDues(b, dues).funds)
  {
    if dues != [] {
      PayDuesRest(b, dues[..|dues| - 1]);
    }
  }

  lemma {:induction false} MoveDuesRest(b: Books, dues: seq<Due>)
    ensures MoveDues(b, dues) == b.(funds := MoveDues(b, dues).funds)
  {
    if dues != [] {
      MoveDuesRest(b, dues[..|dues| - 1]);
    }
  }

  // ----- square-off's cancel step -----

  /** Cancel the selected pending orders and release their margin. */
  function SweepAndPay(b: Books, exchanges: set<Exchange>, ids: seq<OrderId>): Books {
    var (c, dues) := SweepTx(b, exchanges, ids);
    PayDues(c, dues)
  }

  lemma SweepAndPayFunds(b: Books, exchanges: set<Exchange>, ids: seq<OrderId>, u: UserId)
    requires GoodLedger(b)
    ensures var c := SweepAndPay(b, exchanges, ids);
            && c == b.(orders := c.orders, funds := c.funds)
            && FundOf(c, u) == Paid(FundOf(b, u), PendingMargin(b, u) - PendingMargin(c, u), 0)
            && GoodBooks(c) && Leak(Quiet(c, true), u) == Leak(Quiet(b, true), u)
  {
    var (c, dues) := SweepTx(b, exchanges, ids);
    SweepTotals(b, exchanges, ids, u);
    assert Leak(Quiet(b, true), u) >= 0;
    PendingMarginBounds(b, u);
    PendingMarginBounds(c, u);
    PayDuesFunds(c, dues, u);
  }

  // ----- catch-up -----

  /** Close the selected rows in one transaction, then settle up user by user. */
  function CatchUp(b: Books, closes: seq<(PosKey, int)>): Books {
    var (c, dues) := CloseTx(b, closes);
    PayDues(c, dues)
  }

  /** Close and settle up row by row. */
  function OneByOne(b: Books, closes: seq<(PosKey, int)>): Books {
    if closes == [] then b else CatchUp(OneByOne(b, closes[..|closes| - 1]), [closes[|closes| - 1]])
  }

  /** A user is paid exactly the margin that left the rows and the P&L the rows booked; the day's bucket
      stays as it was, and so does the ledger. */
  lemma CatchUpFunds(b: Books, closes: seq<(PosKey, int)>, u: UserId)
    requires GoodLedger(b)
    ensures var c := CatchUp(b, closes);
            && c == b.(positions := c.positions, funds := c.funds)
            && FundOf(c, u) == Paid(FundOf(b, u), PositionMargin(b, u) - PositionMargin(c, u),
                                    PositionRealized(c, u) - PositionRealized(b, u))
            && FundOf(c, u).today == FundOf(b, u).today
            && GoodBooks(c) && Leak(Quiet(c, true), u) == Leak(Quiet(b, true), u)
  {
    var (c, dues) := CloseTx(b, closes);
    CloseTotals(b, closes, u);
    assert Leak(Quiet(b, true), u) >= 0;
    PendingMarginBounds(b, u);
    PendingMarginBounds(c, u);
    PayDuesFunds(c, dues, u);
  }

  lemma CatchUpGood(b: Books, closes: seq<(PosKey, int)>)
    requires GoodLedger(b)
    ensures GoodLedger(CatchUp(b, closes))
  {
    var c := CatchUp(b, closes);
    forall u ensures Leak(Quiet(c, true), u) >= 0 {
      CatchUpFunds(b, closes, u);
      assert Leak(Quiet(b, true), u) >= 0;
    }
    CatchUpFunds(b, closes, 0);
  }

  /** Closing looks only at the position table. */
  lemma CloseOne(b: Books, closes: seq<(PosKey, int)>)
    requires closes != []
    ensures var rest := CloseTx(b, closes[..|closes| - 1]).0;
            CloseTx(b, closes).0.positions == CloseTx(rest, [closes[|closes| - 1]]).0.positions
  {
    assert [closes[|closes| - 1]][..0] == [];
  }

  lemma CloseSamePositions(b: Books, c: Books, x: (PosKey, int))
    requires b.positions == c.positions
    ensures CloseTx(b, [x]).0.positions == CloseTx(c, [x]).0.positions
  {
    assert [x][..0] == [];
  }

  /** Batched or one at a time, catch-up leaves the same rows and the same funds. */
  lemma {:induction false} BatchIsOneByOne(b: Books, closes: seq<(PosKey, int)>)
    requires GoodLedger(b)
    ensures GoodLedger(OneByOne(b, closes))
    ensures OneByOne(b, closes).positions == CatchUp(b, closes).positions
    ensures forall u :: FundOf(OneByOne(b, closes), u) == FundOf(CatchUp(b, closes), u)
    ensures OneByOne(b, closes) == CatchUp(b, closes).(funds := OneByOne(b, closes).funds)
  {
    PayDuesRest(CloseTx(b, closes).0, CloseTx(b, closes).1);
    if closes != [] {
      var rest, x := closes[..|closes| - 1], closes[|closes| - 1];
      BatchIsOneByOne(b, rest);
      var before := OneByOne(b, rest);
      CatchUpGood(before, [x]);
      PayDuesRest(CloseTx(b, rest).0, CloseTx(b, rest).1);
      PayDuesRest(CloseTx(before, [x]).0, CloseTx(before, [x]).1);
      CloseOne(b, closes);
      CloseSamePositions(CloseTx(b, rest).0, before, x);
      forall u ensures FundOf(OneByOne(b, closes), u) == FundOf(CatchUp(b, closes), u) {
        OneMoreFunds(b, closes, before, u);
      }
      OneMoreFunds(b, closes, before, 0);
    }
  }

  /** One more row: closing it after the others pays what closing it with them does. */
  lemma OneMoreFunds(b: Books, closes: seq<(PosKey, int)>, before: Books, u: UserId)
    requires GoodLedger(b) && GoodLedger(before) && closes != []
    requires before.positions == CatchUp(b, closes[..|closes| - 1]).positions
    requires FundOf(before, u) == FundOf(CatchUp(b, closes[..|closes| - 1]), u)
    requires CatchUp(before, [closes[|closes| - 1]]).positions == CatchUp(b, closes).positions
    ensures FundOf(CatchUp(before, [closes[|closes| - 1]]), u) == FundOf(CatchUp(b, closes), u)
    ensures var c := CatchUp(before, [closes[|closes| - 1]]); c == before.(positions := c.positions, funds := c.funds)
    ensures var c := CatchUp(b, closes); c == b.(positions := c.positions, funds := c.funds)
  {
    CatchUpFunds(b, closes[..|closes| - 1], u);
    CatchUpFunds(before, [closes[|closes| - 1]], u);
    CatchUpFunds(b, closes, u);
  }

  predicate DistinctKeys(closes: seq<(PosKey, int)>) {
    forall i, j :: 0 <= i < j < |closes| ==> closes[i].0 != closes[j].0
  }

  /** Row by row: a selected open row is closed at its price, and every other row is untouched. */
  lemma {:induction false} ClosePointwise(b: Books, closes: seq<(PosKey, int)>, k: PosKey)
    requires DistinctKeys(closes) && k in b.positions
    ensures var c := CloseTx(b, closes).0;
            && c.positions.Keys == b.positions.Keys
            && ((forall i :: 0 <= i < |closes| ==> closes[i].0 != k) ==> c.positions[k] == b.positions[k])
            && (forall i :: 0 <= i < |closes| && closes[i].0 == k ==>
                  c.positions[k] == if b.positions[k].net != 0 then CloseRow(b.positions[k], closes[i].1)
                    else b.positions[k])
  {
    if closes != [] {
      ClosePointwise(b, closes[..|closes| - 1], k);
    }
  }

  lemma CloseRowIsFlat(p: Position, price: int)
    ensures var q := CloseRow(p, price);
            && q.net == 0 && q.average == 0 && q.margin == 0 && q.unrealized == 0
            && q.today == p.today && q.pnl == q.realized
            && q.realized == p.realized + (price - p.average) * p.net
  {
    if p.net <= 0 {
      assert (p.average - price) * (-p.net) == (price - p.average) * p.net;
    }
  }

  /** A second pass over rows that the first closed finds nothing to close and nothing to pay. */
  lemma {:induction false} SecondPassIsIdle(c: Books, closes: seq<(PosKey, int)>)
    requires forall i :: 0 <= i < |closes| && closes[i].0 in c.positions ==> c.positions[closes[i].0].net == 0
    ensures CloseTx(c, closes) == (c, []) && CatchUp(c, closes) == c
  {
    if closes != [] {
      SecondPassIsIdle(c, closes[..|closes| - 1]);
    }
  }

  lemma SecondCatchUpIsIdle(b: Books, closes: seq<(PosKey, int)>, again: seq<(PosKey, int)>)
    requires DistinctKeys(closes)
    requires forall j :: 0 <= j < |again| && again[j].0 in b.positions ==>
             exists i :: 0 <= i < |closes| && closes[i].0 == again[j].0
    ensures CatchUp(CatchUp(b, closes), again) == CatchUp(b, closes)
  {
    var c := CatchUp(b, closes);
    PayDuesRest(CloseTx(b, closes).0, CloseTx(b, closes).1);
    forall j | 0 <= j < |again| && again[j].0 in c.positions ensures c.positions[again[j].0].net == 0 {
      CloseKeys(b, closes);
      ClosePointwise(b, closes, again[j].0);
    }
    SecondPassIsIdle(c, again);
  }

  lemma {:induction false} CloseKeys(b: Books, closes: seq<(PosKey, int)>)
    ensures CloseTx(b, closes).0.positions.Keys == b.positions.Keys
  {
    if closes != [] {
      CloseKeys(b, closes[..|closes| - 1]);
    }
  }

  // ----- T+1 settlement -----

  /** Deliver the selected rows in one transaction, then move their margin. */
  function SettleAll(b: Books, keys: seq<PosKey>): Books {
    var (c, dues) := SettleTx(b, keys);
    MoveDues(c, dues)
  }

  /** Used margin falls by exactly the margin of the delivered rows; cash and P&L do not move. */
  lemma SettleAllFunds(b: Books, keys: seq<PosKey>, u: UserId)
    requires GoodLedger(b)
    ensures var c := SettleAll(b, keys);
            && c == b.(positions := c.positions, holdings := c.holdings, funds := c.funds)
            && FundOf(c, u) == FundOf(b, u).(used := FundOf(b, u).used - (PositionMargin(b, u) - PositionMargin(c, u)))
            && GoodBooks(c) && Leak(Quiet(c, true), u) == Leak(Quiet(b, true), u)
  {
    var (c, dues) := SettleTx(b, keys);
    SettleTotals(b, keys, u);
    assert Leak(Quiet(b, true), u) >= 0;
    PendingMarginBounds(b, u);
    PendingMarginBounds(c, u);
    MoveDuesFunds(c, dues, u);
  }

  /** Holdings hold something: settlement only ever adds to them. */
  ghost predicate GoodHoldings(b: Books) {
    forall h :: h in b.holdings ==> b.holdings[h].quantity > 0
  }

  function HeldQuantity(b: Books, h: HoldKey): int {
    if h in b.holdings then b.holdings[h].quantity else 0
  }

  function HeldCost(b: Books, h: HoldKey): int {
    if h in b.holdings then b.holdings[h].average * b.holdings[h].quantity else 0
  }

  function CncKey(h: HoldKey): PosKey { PosKey(h.user, h.inst, CNC) }

  function LongCnc(b: Books, h: HoldKey): Position {
    if CncKey(h) in b.positions && b.positions[CncKey(h)].net > 0 then b.positions[CncKey(h)] else FLAT
  }

  /** What merging one row does to the quantity and the cost. */
  lemma MergeKeepsCost(h: Option<Holding>, p: Position)
    requires p.net > 0 && (h.Some? ==> h.value.quantity > 0)
    ensures var m := Merge(h, p);
            var quantity := if h.Some? then h.value.quantity else 0;
            var cost := if h.Some? then h.value.average * h.value.quantity else 0;
            && m.quantity == quantity + p.net > 0
            && 2 * Abs(m.average * m.quantity - (cost + p.average * p.net)) <= m.quantity
            && (h.None? ==> m.average == p.average)
            && m.ltp == (if p.ltp != 0 then p.ltp else p.average)
            && 2 * Abs((m.ltp - m.average) * m.quantity - 100 * m.pnl) <= 100
  {
    if h.Some? {
      var x := h.value;
      AverageOver(x.average * x.quantity + p.average * p.net, x.quantity + p.net);
      assert Merge(h, p).quantity == x.quantity + p.net;
    }
  }

  lemma AverageOver(cost: int, quantity: int)
    requires quantity > 0
    ensures 2 * Abs(RoundDiv(cost, quantity) * quantity - cost) <= quantity
  {
    RoundResidue(cost, quantity);
  }

  /** What the holding and the long delivery row of one instrument hold and cost together. */
  function AllShares(b: Books, h: HoldKey): int {
    HeldQuantity(b, h) + LongCnc(b, h).net
  }

  function AllCost(b: Books, h: HoldKey): int {
    HeldCost(b, h) + RowCost(LongCnc(b, h))
  }

  function RowCost(p: Position): int { p.average * p.net }

  /** Delivered at most once, with the cost within half a tick per share of the merged holding. */
  ghost predicate KeptShares(b: Books, c: Books, h: HoldKey) {
    && AllShares(c, h) == AllShares(b, h)
    && 2 * Abs(AllCost(c, h) - AllCost(b, h)) <= HeldQuantity(c, h)
    && (LongCnc(c, h) != FLAT ==> LongCnc(c, h) == LongCnc(b, h) && HoldingOf(c, h) == HoldingOf(b, h))
    && (LongCnc(b, h) == FLAT ==> LongCnc(c, h) == FLAT && HoldingOf(c, h) == HoldingOf(b, h))
  }

  /** Shares are neither made nor lost: per user and instrument, what is held plus the long CNC position is
      the same after settlement, and its total cost within half a tick per share of the merged holding. */
  lemma {:induction false} SettlementKeepsShares(b: Books, keys: seq<PosKey>, h: HoldKey)
    requires GoodHoldings(b)
    ensures GoodHoldings(SettleTx(b, keys).0) && KeptShares(b, SettleTx(b, keys).0, h)
  {
    if keys == [] {
      HeldBound(b, h);
    } else {
      var c, k := SettleTx(b, keys[..|keys| - 1]).0, keys[|keys| - 1];
      SettlementKeepsShares(b, keys[..|keys| - 1], h);
      if k in c.positions && Deliverable(k, c.positions[k]) {
        SettleOneKeepsShares(c, k, h);
        KeptByOneMore(b, c, k, h);
      }
    }
  }

  lemma HeldBound(b: Books, h: HoldKey)
    requires GoodHoldings(b)
    ensures HeldQuantity(b, h) >= 0
  {
  }

  lemma KeptByOneMore(b: Books, c: Books, k: PosKey, h: HoldKey)
    requires KeptShares(b, c, h) && k in c.positions && Deliverable(k, c.positions[k])
    requires SettledShares(c, k, h)
    ensures KeptShares(b, SettledOne(c, k), h)
  {
    assert k == CncKey(h) ==> LongCnc(c, h) == c.positions[k] && LongCnc(c, h) != FLAT;
  }

  /** The table after one delivered row. */
  function SettledOne(b: Books, k: PosKey): Books
    requires k in b.positions
  {
    var h := HoldKey(k.user, k.inst);
    b.(holdings := b.holdings[h := Merge(HoldingOf(b, h), b.positions[k])], positions := b.positions - {k})
  }

  /** One delivered row: its own instrument's holding takes all of it, no other instrument is touched. */
  ghost predicate SettledShares(b: Books, k: PosKey, h: HoldKey)
    requires k in b.positions
  {
    var c := SettledOne(b, k);
    && (k == CncKey(h) ==>
          && LongCnc(c, h) == FLAT
          && HeldQuantity(c, h) == HeldQuantity(b, h) + b.positions[k].net
          && 2 * Abs(HeldCost(c, h) - (HeldCost(b, h) + RowCost(b.positions[k]))) <= HeldQuantity(c, h))
    && (k != CncKey(h) ==> LongCnc(c, h) == LongCnc(b, h) && HoldingOf(c, h) == HoldingOf(b, h))
  }

  lemma SettleOneKeepsShares(b: Books, k: PosKey, h: HoldKey)
    requires GoodHoldings(b) && k in b.positions && Deliverable(k, b.positions[k])
    ensures GoodHoldings(SettledOne(b, k)) && SettledShares(b, k, h)
  {
    var own := HoldKey(k.user, k.inst);
    MergeKeepsCost(HoldingOf(b, own), b.positions[k]);
    if k == CncKey(h) {
      assert own == h;
    } else {
      assert k.product == CNC;
      assert own != h;
    }
  }
}
