/** The sandbox database, and each `session_scope` body as one function on it. */
module Books {
  import opened Rounding
  import opened Sums
  import opened Rows
  import opened Positions
  import opened Funds

  datatype Books = Books(
    capital: int,
    funds: map<UserId, Fund>,
    positions: map<PosKey, Position>,
    orders: map<OrderId, Order>,
    trades: seq<Trade>,
    holdings: map<HoldKey, Holding>
  )

  function FundOf(b: Books, u: UserId): Fund {
    if u in b.funds then b.funds[u] else FreshFund(b.capital)
  }

  function PositionOf(b: Books, k: PosKey): Position {
    if k in b.positions then b.positions[k] else FLAT
  }

  // ----- fund transactions -----

  function BlockTx(b: Books, u: UserId, amount: int): (Books, bool) {
    if amount <= 0 then (b, true)
    else
      match Block(FundOf(b, u), amount)
      case None => (b.(funds := b.funds[u := FundOf(b, u)]), false)
      case Some(f) => (b.(funds := b.funds[u := f]), true)
  }

  function ReleaseTx(b: Books, u: UserId, amount: int, pnl: int): Books {
    if amount <= 0 && pnl == 0 then b
    else b.(funds := b.funds[u := Release(FundOf(b, u), amount, pnl)])
  }

  function TransferTx(b: Books, u: UserId, amount: int): Books {
    if amount <= 0 then b
    else b.(funds := b.funds[u := TransferToHoldings(FundOf(b, u), amount)])
  }

  function BookTx(b: Books, u: UserId, pnl: int): Books {
    if pnl == 0 then b
    else b.(funds := b.funds[u := BookEarlier(FundOf(b, u), pnl)])
  }

  // ----- order transactions -----

  function CreateTx(b: Books, id: OrderId, o: Order): Books {
    b.(orders := b.orders[id := o])
  }

  function Cancellable(b: Books, u: UserId, id: OrderId): bool {
    id in b.orders && b.orders[id].key.user == u && Pending(b.orders[id])
  }

  function CancelTx(b: Books, u: UserId, id: OrderId): Option<Books> {
    if Cancellable(b, u, id) then Some(b.(orders := b.orders[id := b.orders[id].(status := CANCELLED)]))
    else None
  }

  datatype Change = Change(quantity: Option<int>, price: Option<int>, trigger: Option<int>,
    pricetype: Option<PriceType>)

  function Get<T>(x: Option<T>, default: T): T {
    if x.Some? then x.value else default
  }

  function Modified(o: Order, c: Change): Order {
    o.(quantity := Get(c.quantity, o.quantity), price := Get(c.price, o.price),
       trigger := Get(c.trigger, o.trigger), pricetype := Get(c.pricetype, o.pricetype))
  }

  function ModifyTx(b: Books, u: UserId, id: OrderId, c: Change): Option<Books> {
    if Cancellable(b, u, id) then Some(b.(orders := b.orders[id := Modified(b.orders[id], c)]))
    else None
  }

  /** The order row after `quantity` more units fill at `price`. */
  function FilledOrder(o: Order, quantity: int, price: int): Order
    requires quantity > 0
  {
    var total := o.filled + quantity;
    var average := if total > 0 then RoundDiv(o.average * o.filled + price * quantity, total) else price;
    o.(filled := total, average := average, status := if total >= o.quantity then COMPLETE else o.status)
  }

  /** The engine's fill: all that is left of a pending order, and one trade for it. The stored row decides,
      whatever copy of the order the caller holds. */
  function FillTx(b: Books, u: UserId, id: OrderId, price: int): Option<(Books, Trade)> {
    if !Cancellable(b, u, id) then None
    else
      var o := b.orders[id];
      var quantity := o.quantity - o.filled;
      if quantity <= 0 then None
      else
        var t := Trade(id, o.key, o.action, quantity, price);
        Some((b.(orders := b.orders[id := FilledOrder(o, quantity, price)], trades := b.trades + [t]), t))
  }

  // ----- position transactions -----

  function ApplyFillTx(b: Books, initialised: bool, k: PosKey, action: Action, quantity: int, price: int,
                       orderMargin: int): Option<(Books, FillResult)>
  {
    match FillTransaction(initialised, PositionOf(b, k), action, quantity, price, orderMargin)
    case None => None
    case Some(f) => Some((b.(positions := b.positions[k := f.pos]), f))
  }

  function MarkTx(b: Books, k: PosKey, ltp: int): Books {
    if k in b.positions then b.(positions := b.positions[k := MarkToMarket(b.positions[k], ltp)]) else b
  }

  // ----- transactions over many rows -----

  /** One user's running entry in the dict a batch collects. */
  datatype Due = Due(user: UserId, margin: int, pnl: int)

  /** Add to a user's entry, or append a new one, as a Python dict keeps its order. */
  function AddDue(dues: seq<Due>, u: UserId, margin: int, pnl: int): seq<Due> {
    if dues == [] then [Due(u, margin, pnl)]
    else if dues[0].user == u then [Due(u, dues[0].margin + margin, dues[0].pnl + pnl)] + dues[1..]
    else [dues[0]] + AddDue(dues[1..], u, margin, pnl)
  }

  predicate Sweepable(o: Order, exchanges: set<Exchange>) {
    o.key.product == MIS && Pending(o) && o.key.inst.exchange in exchanges
  }

  /** Square-off's cancel transaction over the selected orders, and the margin it owes each user. */
  function SweepTx(b: Books, exchanges: set<Exchange>, ids: seq<OrderId>): (Books, seq<Due>) {
    if ids == [] then (b, [])
    else
      var (c, dues) := SweepTx(b, exchanges, ids[..|ids| - 1]);
      var id := ids[|ids| - 1];
      if id in c.orders && Sweepable(c.orders[id], exchanges) then
        var o := c.orders[id];
        (c.(orders := c.orders[id := o.(status := CANCELLED, margin := 0)]),
         if o.margin > 0 then AddDue(dues, o.key.user, o.margin, 0) else dues)
      else (c, dues)
  }

  /** Catch-up's closing transaction over the selected rows, each at its own price. */
  function CloseTx(b: Books, closes: seq<(PosKey, int)>): (Books, seq<Due>) {
    if closes == [] then (b, [])
    else
      var (c, dues) := CloseTx(b, closes[..|closes| - 1]);
      var (k, price) := closes[|closes| - 1];
      if k in c.positions && c.positions[k].net != 0 then
        var p := c.positions[k];
        (c.(positions := c.positions[k := CloseRow(p, price)]), AddDue(dues, k.user, p.margin, CloseGain(p, price)))
      else (c, dues)
  }

  /** Merge a delivered row into a holding. */
  function Merge(h: Option<Holding>, p: Position): Holding {
    var ltp := if p.ltp != 0 then p.ltp else p.average;
    match h
    case None =>
      Holding(p.net, p.average, ltp, RoundDiv((ltp - p.average) * p.net, TICKS_PER_PAISA))
    case Some(x) =>
      var total := x.quantity + p.net;
      if total > 0 then
        var average := RoundDiv(x.average * x.quantity + p.average * p.net, total);
        Holding(total, average, ltp, RoundDiv((ltp - average) * total, TICKS_PER_PAISA))
      else x
  }

  predicate Deliverable(k: PosKey, p: Position) {
    k.product == CNC && p.net > 0
  }

  function HoldingOf(b: Books, h: HoldKey): Option<Holding> {
    if h in b.holdings then Some(b.holdings[h]) else None
  }

  /** T+1 settlement over the selected rows: merge into holdings, delete, and note the margin to move. */
  function SettleTx(b: Books, keys: seq<PosKey>): (Books, seq<Due>) {
    if keys == [] then (b, [])
    else
      var (c, dues) := SettleTx(b, keys[..|keys| - 1]);
      var k := keys[|keys| - 1];
      if k in c.positions && Deliverable(k, c.positions[k]) then
        var p, h := c.positions[k], HoldKey(k.user, k.inst);
        (c.(holdings := c.holdings[h := Merge(HoldingOf(c, h), p)], positions := c.positions - {k}),
         if p.margin > 0 then AddDue(dues, k.user, p.margin, 0) else dues)
      else (c, dues)
  }

  /** The realized P&L standing on the user's rows that a settlement deletes. */
  function DeletedRealized(b: Books, keys: seq<PosKey>, u: UserId): int {
    if keys == [] then 0
    else
      var c, k := SettleTx(b, keys[..|keys| - 1]).0, keys[|keys| - 1];
      DeletedRealized(b, keys[..|keys| - 1], u) +
      if k in c.positions && Deliverable(k, c.positions[k]) && k.user == u then c.positions[k].realized else 0
  }

  // ----- totals per user -----

  ghost function PendingMarginOf(u: UserId): (OrderId, Order) -> int {
    (id: OrderId, o: Order) => if o.key.user == u && Pending(o) then o.margin else 0
  }

  ghost function PositionMarginOf(u: UserId): (PosKey, Position) -> int {
    (k: PosKey, p: Position) => if k.user == u then p.margin else 0
  }

  ghost function PositionRealizedOf(u: UserId): (PosKey, Position) -> int {
    (k: PosKey, p: Position) => if k.user == u then p.realized else 0
  }

  ghost function PendingMargin(b: Books, u: UserId): int { Total(b.orders, PendingMarginOf(u)) }

  ghost function PositionMargin(b: Books, u: UserId): int { Total(b.positions, PositionMarginOf(u)) }

  ghost function PositionRealized(b: Books, u: UserId): int { Total(b.positions, PositionRealizedOf(u)) }

  function DueMarginOf(u: UserId): Due -> int { (d: Due) => if d.user == u then d.margin else 0 }

  function DuePnlOf(u: UserId): Due -> int { (d: Due) => if d.user == u then d.pnl else 0 }

  function DueMargin(dues: seq<Due>, u: UserId): int { SeqTotal(dues, DueMarginOf(u)) }

  function DuePnl(dues: seq<Due>, u: UserId): int { SeqTotal(dues, DuePnlOf(u)) }

  ghost predicate GoodBooks(b: Books) {
    && (forall id :: id in b.orders ==> b.orders[id].margin >= 0)
    && (forall k :: k in b.positions ==> GoodPosition(b.positions[k]))
  }

  predicate GoodDues(dues: seq<Due>) {
    forall i :: 0 <= i < |dues| ==> dues[i].margin >= 0
  }

  lemma {:induction false} AddDueGood(dues: seq<Due>, u: UserId, margin: int, pnl: int)
    requires GoodDues(dues) && margin >= 0
    ensures GoodDues(AddDue(dues, u, margin, pnl))
  {
    if dues != [] && dues[0].user != u {
      AddDueGood(dues[1..], u, margin, pnl);
    }
  }

  lemma {:induction false} AddDueTotals(dues: seq<Due>, u: UserId, margin: int, pnl: int, v: UserId)
    ensures DueMargin(AddDue(dues, u, margin, pnl), v) == DueMargin(dues, v) + (if u == v then margin else 0)
    ensures DuePnl(AddDue(dues, u, margin, pnl), v) == DuePnl(dues, v) + (if u == v then pnl else 0)
  {
    if dues == [] {
      SeqTotalPush([], DueMarginOf(v), Due(u, margin, pnl));
      SeqTotalPush([], DuePnlOf(v), Due(u, margin, pnl));
      assert [] + [Due(u, margin, pnl)] == [Due(u, margin, pnl)];
    } else {
      var head, rest := dues[0], dues[1..];
      assert dues == [head] + rest;
      SeqTotalConcat([head], rest, DueMarginOf(v));
      SeqTotalConcat([head], rest, DuePnlOf(v));
      if head.user == u {
        var grown := Due(u, head.margin + margin, head.pnl + pnl);
        SeqTotalConcat([grown], rest, DueMarginOf(v));
        SeqTotalConcat([grown], rest, DuePnlOf(v));
        One(grown, v);
      } else {
        AddDueTotals(rest, u, margin, pnl, v);
        SeqTotalConcat([head], AddDue(rest, u, margin, pnl), DueMarginOf(v));
        SeqTotalConcat([head], AddDue(rest, u, margin, pnl), DuePnlOf(v));
      }
      One(head, v);
    }
  }

  lemma One(d: Due, v: UserId)
    ensures DueMargin([d], v) == DueMarginOf(v)(d) && DuePnl([d], v) == DuePnlOf(v)(d)
  {
    SeqTotalPush([], DueMarginOf(v), d);
    SeqTotalPush([], DuePnlOf(v), d);
    assert [] + [d] == [d];
  }

  /** What a sweep owes a user is exactly the pending margin it took off that user's orders. */
  lemma {:induction false} SweepTotals(b: Books, exchanges: set<Exchange>, ids: seq<OrderId>, u: UserId)
    requires GoodBooks(b)
    ensures var (c, dues) := SweepTx(b, exchanges, ids);
            && GoodBooks(c) && GoodDues(dues)
            && c == b.(orders := c.orders)
            && PendingMargin(c, u) + DueMargin(dues, u) == PendingMargin(b, u)
            && DuePnl(dues, u) == 0
  {
    if ids != [] {
      SweepTotals(b, exchanges, ids[..|ids| - 1], u);
      var (c, dues) := SweepTx(b, exchanges, ids[..|ids| - 1]);
      var id := ids[|ids| - 1];
      if id in c.orders && Sweepable(c.orders[id], exchanges) {
        var o := c.orders[id];
        TotalUpdate(c.orders, PendingMarginOf(u), id, o.(status := CANCELLED, margin := 0));
        AddDueGood(dues, o.key.user, o.margin, 0);
        AddDueTotals(dues, o.key.user, o.margin, 0, u);
      }
    }
  }

  /** What catch-up owes a user is exactly the margin it took off, and the P&L it booked on, that user's rows. */
  lemma {:induction false} CloseTotals(b: Books, closes: seq<(PosKey, int)>, u: UserId)
    requires GoodBooks(b)
    ensures var (c, dues) := CloseTx(b, closes);
            && GoodBooks(c) && GoodDues(dues)
            && c == b.(positions := c.positions)
            && PositionMargin(c, u) + DueMargin(dues, u) == PositionMargin(b, u)
            && PositionRealized(c, u) == PositionRealized(b, u) + DuePnl(dues, u)
  {
    if closes != [] {
      CloseTotals(b, closes[..|closes| - 1], u);
      var (c, dues) := CloseTx(b, closes[..|closes| - 1]);
      var (k, price) := closes[|closes| - 1];
      if k in c.positions && c.positions[k].net != 0 {
        var p := c.positions[k];
        TotalUpdate(c.positions, PositionMarginOf(u), k, CloseRow(p, price));
        TotalUpdate(c.positions, PositionRealizedOf(u), k, CloseRow(p, price));
        AddDueGood(dues, k.user, p.margin, CloseGain(p, price));
        AddDueTotals(dues, k.user, p.margin, CloseGain(p, price), u);
      }
    }
  }

  /** What settlement moves for a user is exactly the margin of that user's deleted rows, and the realized
      P&L of the rows left is all that was there but theirs. */
  lemma {:induction false} SettleTotals(b: Books, keys: seq<PosKey>, u: UserId)
    requires GoodBooks(b)
    ensures var (c, dues) := SettleTx(b, keys);
            && GoodBooks(c) && GoodDues(dues)
            && c == b.(positions := c.positions, holdings := c.holdings)
            && PositionMargin(c, u) + DueMargin(dues, u) == PositionMargin(b, u)
            && PositionRealized(c, u) + DeletedRealized(b, keys, u) == PositionRealized(b, u)
            && DuePnl(dues, u) == 0
  {
    if keys != [] {
      SettleTotals(b, keys[..|keys| - 1], u);
      var (c, dues) := SettleTx(b, keys[..|keys| - 1]);
      var k := keys[|keys| - 1];
      if k in c.positions && Deliverable(k, c.positions[k]) {
        var p := c.positions[k];
        TotalRemove(c.positions, PositionMarginOf(u), k);
        TotalRemove(c.positions, PositionRealizedOf(u), k);
        AddDueGood(dues, k.user, p.margin, 0);
        AddDueTotals(dues, k.user, p.margin, 0, u);
      }
    }
  }

  lemma PendingMarginBounds(b: Books, u: UserId)
    requires GoodBooks(b)
    ensures PendingMargin(b, u) >= 0
    ensures PositionMargin(b, u) >= 0
  {
    TotalNonNegative(b.orders, PendingMarginOf(u));
    TotalNonNegative(b.positions, PositionMarginOf(u));
  }
}
