/** The rows of the sandbox tables. Prices, cash and P&L are integers in ticks (1e-4 INR); every
    margin column is an integer in paise (1e-2 INR), the grid all of its writers round to. */
module Rows {

  datatype Option<+T> = None | Some(value: T)

  type UserId = nat
  type OrderId = nat

  datatype Exchange = NSE | BSE | NFO | BFO | CDS | BCD | MCX | CRYPTO | OtherExchange(code: string)
  datatype Action = BUY | SELL | OtherAction(text: string)
  datatype PriceType = MARKET | LIMIT | SL | SLM | OtherType(text: string)
  datatype Product = MIS | NRML | CNC | OtherProduct(text: string)
  datatype Status = OPEN | TRIGGER_PENDING | COMPLETE | CANCELLED | REJECTED

  datatype Instrument = Instrument(symbol: string, exchange: Exchange)

  /** The unique index of the position table. */
  datatype PosKey = PosKey(user: UserId, inst: Instrument, product: Product)

  /** The unique index of the holdings table. */
  datatype HoldKey = HoldKey(user: UserId, inst: Instrument)

  datatype Fund = Fund(
    starting: int,
    available: int,
    used: int,        // used_margin, in paise
    realized: int,
    today: int        // today_realized_pnl
  )

  datatype Position = Position(
    net: int,
    average: int,
    ltp: int,
    pnl: int,
    realized: int,
    today: int,
    unrealized: int,
    margin: int,      // margin_blocked, in paise
    dayBuyQty: int,
    dayBuyValue: int, // in paise
    daySellQty: int,
    daySellValue: int // in paise
  )

  datatype Order = Order(
    key: PosKey,
    action: Action,
    quantity: int,
    filled: int,
    pricetype: PriceType,
    price: int,
    trigger: int,
    average: int,
    status: Status,
    margin: int       // margin_blocked, in paise
  )

  datatype Trade = Trade(orderId: OrderId, key: PosKey, action: Action, quantity: int, price: int)

  datatype Holding = Holding(quantity: int, average: int, ltp: int, pnl: int)

  /** The row a first fill inserts: every column at its default. */
  const FLAT := Position(0, 0, 0, 0, 0, 0, 0, 0, 0, 0, 0, 0)

  predicate Pending(o: Order) {
    o.status == OPEN || o.status == TRIGGER_PENDING
  }

  function Signed(action: Action, quantity: int): (s: int) {
    if action == BUY then quantity else -quantity
  }

  /** No column holds a negative margin, and a flat row holds no average and no margin. */
  predicate GoodPosition(p: Position) {
    && p.margin >= 0
    && (p.net == 0 ==> p.average == 0 && p.margin == 0)
  }
}
