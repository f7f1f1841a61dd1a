/** The sandbox as a set of threads over one database. Every action is a chain of separate transactions;
    between two of them its continuation waits in `tasks`, and any waiting continuation may go next.
    Each `session_scope` body is one atomic step. */
module Ledger {
  import opened Rounding
  import opened Sums
  import opened Rows
  import opened Positions
  import opened Funds
  import opened Books

  // ----- the fill decision -----

  /** The price an order fills at, given the last price; none while its condition is not met. */
  function FillPrice(o: Order, ltp: int): Option<int> {
    if ltp <= 0 then None
    else
      match o.pricetype
      case MARKET => Some(ltp)
      case LIMIT => LimitPrice(o, ltp)
      case SL => if Triggered(o, ltp) then LimitPrice(o, ltp) else None
      case SLM => if Triggered(o, ltp) then Some(ltp) else None
      case OtherType(_) => None
  }

  predicate Triggered(o: Order, ltp: int) {
    (o.action == BUY && ltp >= o.trigger) || (o.action == SELL && ltp <= o.trigger)
  }

  function LimitPrice(o: Order, ltp: int): Option<int> {
    if (o.action == BUY && ltp <= o.price) || (o.action == SELL && ltp >= o.price) then Some(o.price) else None
  }

  // ----- margin sizing at placement -----

  predicate Reduces(net: int, action: Action) {
    (net > 0 && action == SELL) || (net < 0 && action == BUY)
  }

  /** The margin an order must lock, given the position it is placed against: nothing for a pure reduce,
      the excess for a reversal, the whole order otherwise. */
  function SizedMargin(b: Books, k: PosKey, action: Action, quantity: int, reference: int, leverage: Leverage): int {
    var net := PositionOf(b, k).net;
    if Reduces(net, action) then
      if quantity <= Abs(net) then 0 else RequiredMargin(reference, quantity - Abs(net), leverage)
    else RequiredMargin(reference, quantity, leverage)
  }

  lemma SizedMarginNonNegative(b: Books, k: PosKey, action: Action, quantity: int, reference: int, leverage: Leverage)
    ensures SizedMargin(b, k, action, quantity, reference, leverage) >= 0
  {
    var net := PositionOf(b, k).net;
    RequiredMarginNonNegative(reference, quantity, leverage);
    RequiredMarginNonNegative(reference, quantity - Abs(net), leverage);
  }

  /** A request becomes a row with nothing filled. */
  function NewOrder(request: Order, margin: int, status: Status): Order {
    request.(filled := 0, average := 0, status := status, margin := margin)
  }

  function InitialStatus(pt: PriceType): Status {
    if pt == SL || pt == SLM then TRIGGER_PENDING else OPEN
  }

  // ----- threads -----

  /** What a thread still has to do. */
  datatype Task =
    | Idle
    | Sized(request: Order, margin: int)                               // then block the margin
    | Blocked(request: Order, margin: int)                             // then create the order row
    | Refused(request: Order)                                          // then record the rejection
    | Attempt(id: OrderId, copy: Order, ltp: int)                      // a detached copy, tried at a price
    | Filled(id: OrderId, copy: Order, quantity: int, price: int)      // then update the position book
    | Releasing(user: UserId, margin: int, pnl: int)                   // then release margin and book P&L
    | Booking(user: UserId, pnl: int)                                  // then book earlier P&L
    | Transferring(user: UserId, margin: int)                          // then move margin into holdings

  datatype World = World(db: Books, initialised: bool, tasks: seq<Task>)

  datatype Event =
    | Place(request: Order, reference: int, leverage: Leverage)
    | Reject(request: Order, id: OrderId)
    | BlockStep(task: nat)
    | CreateStep(task: nat, id: OrderId, ltp: int)
    | Scan(id: OrderId, ltp: int)
    | TryFill(task: nat)
    | ApplyStep(task: nat)
    | ReleaseStep(task: nat)
    | BookStep(task: nat)
    | TransferStep(task: nat)
    | Cancel(user: UserId, id: OrderId)
    | Modify(user: UserId, id: OrderId, change: Change)
    | Sweep(exchanges: set<Exchange>, ids: seq<OrderId>)
    | Close(closes: seq<(PosKey, int)>)
    | Settle(keys: seq<PosKey>)
    | Mark(key: PosKey, ltp: int)

  function TaskAt(w: World, i: nat): Task {
    if i < |w.tasks| then w.tasks[i] else Idle
  }

  /** The world after task i took its step to `db` and continues as `next`. */
  function Advance(w: World, i: nat, db: Books, next: Task): World
    requires i < |w.tasks|
  {
    w.(db := db, tasks := w.tasks[i := next])
  }

  function Spawn(w: World, db: Books, t: Task): World {
    w.(db := db, tasks := w.tasks + [t])
  }

  function ReleaseTasks(dues: seq<Due>): (ts: seq<Task>) {
    if dues == [] then []
    else
      var d := dues[|dues| - 1];
      ReleaseTasks(dues[..|dues| - 1]) + [Releasing(d.user, d.margin, 0), Booking(d.user, d.pnl)]
  }

  function TransferTasks(dues: seq<Due>): (ts: seq<Task>) {
    if dues == [] then []
    else var d := dues[|dues| - 1]; TransferTasks(dues[..|dues| - 1]) + [Transferring(d.user, d.margin)]
  }

  function DoBlock(w: World, i: nat): World {
    match TaskAt(w, i)
    case Sized(request, margin) =>
      var (db, ok) := BlockTx(w.db, request.key.user, margin);
      Advance(w, i, db, if ok then Blocked(request, margin) else Refused(request))
    case _ => w
  }

  /** Write the order row, accepted or rejected; an accepted one is tried at once when a price is known. */
  function DoCreate(w: World, i: nat, id: OrderId, ltp: int): World {
    if id in w.db.orders then w
    else
      match TaskAt(w, i)
      case Blocked(request, margin) =>
        var o := NewOrder(request, margin, InitialStatus(request.pricetype));
        Advance(w, i, CreateTx(w.db, id, o), if ltp > 0 then Attempt(id, o, ltp) else Idle)
      case Refused(request) =>
        Advance(w, i, CreateTx(w.db, id, NewOrder(request, 0, REJECTED)), Idle)
      case _ => w
  }

  function DoTryFill(w: World, i: nat): World {
    match TaskAt(w, i)
    case Attempt(id, copy, ltp) =>
      (match FillPrice(copy, ltp)
       case None => Advance(w, i, w.db, Idle)
       case Some(price) =>
         match FillTx(w.db, copy.key.user, id, price)
         case None => Advance(w, i, w.db, Idle)
         case Some((db, t)) => Advance(w, i, db, Filled(id, copy, t.quantity, price)))
    case _ => w
  }

  function DoApply(w: World, i: nat): World {
    match TaskAt(w, i)
    case Filled(id, copy, quantity, price) =>
      (match ApplyFillTx(w.db, w.initialised, copy.key, copy.action, quantity, price, copy.margin)
       case None => Advance(w, i, w.db, Idle)
       case Some((db, f)) =>
         Advance(w, i, db,
                 if f.release > 0 || f.realized != 0 then Releasing(copy.key.user, f.release, f.realized) else Idle))
    case _ => w
  }

  function DoRelease(w: World, i: nat): World {
    match TaskAt(w, i)
    case Releasing(u, margin, pnl) => Advance(w, i, ReleaseTx(w.db, u, margin, pnl), Idle)
    case _ => w
  }

  function DoBook(w: World, i: nat): World {
    match TaskAt(w, i)
    case Booking(u, pnl) => Advance(w, i, BookTx(w.db, u, pnl), Idle)
    case _ => w
  }

  function DoTransfer(w: World, i: nat): World {
    match TaskAt(w, i)
    case Transferring(u, margin) => Advance(w, i, TransferTx(w.db, u, margin), Idle)
    case _ => w
  }

  function DoCancel(w: World, u: UserId, id: OrderId): World {
    match CancelTx(w.db, u, id)
    case None => w
    case Some(db) => Spawn(w, db, Releasing(u, w.db.orders[id].margin, 0))
  }

  function DoModify(w: World, u: UserId, id: OrderId, c: Change): World {
    match ModifyTx(w.db, u, id, c)
    case None => w
    case Some(db) => w.(db := db)
  }

  function Do(w: World, e: Event): World {
    match e
    case Place(request, reference, leverage) =>
      var margin := SizedMargin(w.db, request.key, request.action, request.quantity, reference, leverage);
      Spawn(w, w.db, Sized(request, margin))
    case Reject(request, id) =>
      if id in w.db.orders then w else w.(db := CreateTx(w.db, id, NewOrder(request, 0, REJECTED)))
    case BlockStep(i) => DoBlock(w, i)
    case CreateStep(i, id, ltp) => DoCreate(w, i, id, ltp)
    case Scan(id, ltp) =>
      if id in w.db.orders && Pending(w.db.orders[id]) then Spawn(w, w.db, Attempt(id, w.db.orders[id], ltp)) else w
    case TryFill(i) => DoTryFill(w, i)
    case ApplyStep(i) => DoApply(w, i)
    case ReleaseStep(i) => DoRelease(w, i)
    case BookStep(i) => DoBook(w, i)
    case TransferStep(i) => DoTransfer(w, i)
    case Cancel(u, id) => DoCancel(w, u, id)
    case Modify(u, id, c) => DoModify(w, u, id, c)
    case Sweep(exchanges, ids) =>
      var (db, dues) := SweepTx(w.db, exchanges, ids);
      w.(db := db, tasks := w.tasks + ReleaseTasks(dues))
    case Close(closes) =>
      var (db, dues) := CloseTx(w.db, closes);
      w.(db := db, tasks := w.tasks + ReleaseTasks(dues))
    case Settle(keys) =>
      var (db, dues) := SettleTx(w.db, keys);
      w.(db := db, tasks := w.tasks + TransferTasks(dues))
    case Mark(k, ltp) => w.(db := MarkTx(w.db, k, ltp))
  }

  /** A run: the events in the order the scheduler happened to pick. */
  function Run(w: World, es: seq<Event>): World {
    if es == [] then w else Do(Run(w, es[..|es| - 1]), es[|es| - 1])
  }

  function Start(capital: int, initialised: bool): World {
    World(Books(capital, map[], map[], map[], [], map[]), initialised, [])
  }

  // ----- the books kept between the rows -----

  function HeldOf(u: UserId): Task -> int {
    (t: Task) =>
      match t
      case Blocked(request, margin) => if request.key.user == u then margin else 0
      case Filled(_, copy, _, _) => if copy.key.user == u then copy.margin else 0
      case Releasing(v, margin, _) => if v == u then margin else 0
      case Transferring(v, margin) => if v == u then margin else 0
      case _ => 0
  }

  function UnbookedOf(u: UserId): Task -> int {
    (t: Task) =>
      match t
      case Releasing(v, _, pnl) => if v == u then pnl else 0
      case Booking(v, pnl) => if v == u then pnl else 0
      case _ => 0
  }

  /** Margin that has left one row and not yet reached the next. */
  function Held(w: World, u: UserId): int { SeqTotal(w.tasks, HeldOf(u)) }

  /** P&L that a position has realized and the fund has not yet booked. */
  function Unbooked(w: World, u: UserId): int { SeqTotal(w.tasks, UnbookedOf(u)) }

  /** Used margin that no order, position or continuation accounts for. */
  ghost function Leak(w: World, u: UserId): int {
    FundOf(w.db, u).used - PendingMargin(w.db, u) - PositionMargin(w.db, u) - Held(w, u)
  }

  /** What the fund's realized P&L, with what is still to be booked, has beyond the position rows. */
  ghost function RealizedGap(w: World, u: UserId): int {
    FundOf(w.db, u).realized + Unbooked(w, u) - PositionRealized(w.db, u)
  }

  /** A detached copy may be old, but while its order is pending it still names the order's margin. */
  predicate GoodTask(b: Books, t: Task) {
    match t
    case Sized(_, margin) => margin >= 0
    case Blocked(_, margin) => margin >= 0
    case Attempt(id, copy, _) =>
      && id in b.orders
      && copy.key == b.orders[id].key && copy.action == b.orders[id].action
      && (Pending(b.orders[id]) ==> copy.margin == b.orders[id].margin)
    case Filled(_, copy, quantity, _) => copy.margin >= 0 && quantity > 0
    case Releasing(_, margin, _) => margin >= 0
    case Transferring(_, margin) => margin >= 0
    case _ => true
  }

  ghost predicate GoodWorld(w: World) {
    && GoodBooks(w.db)
    && (forall i :: 0 <= i < |w.tasks| ==> GoodTask(w.db, w.tasks[i]))
  }

  ghost predicate Inv(w: World) {
    && GoodWorld(w)
    && (forall u :: Leak(w, u) >= 0)
  }

  // ----- what a step drops, moves and retires -----

  /** The order margin that a fill does not put on the position: all of it on the reduce and full-close
      branches, and on a fill whose transaction rolls back. */
  function Dropped(w: World, e: Event, u: UserId): int {
    if e.ApplyStep? && TaskAt(w, e.task).Filled? && TaskAt(w, e.task).copy.key.user == u then
      var t := TaskAt(w, e.task);
      var p := PositionOf(w.db, t.copy.key);
      if !w.initialised && Raises(p, t.copy.action, t.quantity) then t.copy.margin
      else t.copy.margin - Placed(p, t.copy.action, t.quantity, t.copy.margin)
    else 0
  }

  /** Margin that a step moves out of the fund into holdings. */
  function MovedToHoldings(w: World, e: Event, u: UserId): int {
    if e.TransferStep? && TaskAt(w, e.task).Transferring? && TaskAt(w, e.task).user == u
    then TaskAt(w, e.task).margin else 0
  }

  /** Realized P&L on rows that a settlement deletes. */
  function Retired(w: World, e: Event, u: UserId): int {
    if e.Settle? then DeletedRealized(w.db, e.keys, u) else 0
  }

  /** The three accounts of one step, for one user. */
  ghost predicate Accounts(w: World, e: Event, u: UserId) {
    var v := Do(w, e);
    && Leak(v, u) == Leak(w, u) + Dropped(w, e, u)
    && Equity(FundOf(v.db, u)) == Equity(FundOf(w.db, u)) - TICKS_PER_PAISA * MovedToHoldings(w, e, u)
    && RealizedGap(v, u) == RealizedGap(w, u) + Retired(w, e, u)
  }
}
