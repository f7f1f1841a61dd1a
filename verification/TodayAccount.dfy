/** The day's realized P&L, kept twice: on the fund and on the position rows. Fills book it on both, through
    a release that may still be waiting; what is closed outside the order path is booked on neither. */
module TodayAccount {
  import opened Rounding
  import opened Sums
  import opened Rows
  import opened Positions
  import opened Funds
  import opened Books
  import opened Ledger
  import opened LedgerProofs

  ghost function TodayOf(u: UserId): (PosKey, Position) -> int {
    (k: PosKey, p: Position) => if k.user == u then p.today else 0
  }

  ghost function PositionToday(b: Books, u: UserId): int { Total(b.positions, TodayOf(u)) }

  function CarriedOf(u: UserId): Task -> int {
    (t: Task) => if t.Releasing? && t.user == u then t.pnl else 0
  }

  /** P&L of fills whose release is still to run. Earlier P&L, which waits as a booking, is not in it. */
  function Carried(w: World, u: UserId): int { SeqTotal(w.tasks, CarriedOf(u)) }

  /** What the fund's day, with what is on its way, has beyond the rows' day. */
  ghost function TodayGap(w: World, u: UserId): int {
    FundOf(w.db, u).today + Carried(w, u) - PositionToday(w.db, u)
  }

  /** The day's P&L on the user's rows that a settlement deletes. */
  function DeletedToday(b: Books, keys: seq<PosKey>, u: UserId): int {
    if keys == [] then 0
    else
      var c, k := SettleTx(b, keys[..|keys| - 1]).0, keys[|keys| - 1];
      DeletedToday(b, keys[..|keys| - 1], u) +
      if k in c.positions && Deliverable(k, c.positions[k]) && k.user == u then c.positions[k].today else 0
  }

  function RetiredToday(w: World, e: Event, u: UserId): int {
    if e.Settle? then DeletedToday(w.db, e.keys, u) else 0
  }

  // ----- waiting tasks -----

  lemma CarriedAdvance(w: World, i: nat, db: Books, next: Task, u: UserId)
    requires i < |w.tasks|
    ensures Carried(Advance(w, i, db, next), u) == Carried(w, u) - CarriedOf(u)(w.tasks[i]) + CarriedOf(u)(next)
  {
    SeqTotalUpdate(w.tasks, CarriedOf(u), i, next);
  }

  lemma {:induction false} CarriedSpawn(w: World, db: Books, ts: seq<Task>, u: UserId)
    ensures Carried(w.(db := db, tasks := w.tasks + ts), u) == Carried(w, u) + SeqTotal(ts, CarriedOf(u))
  {
    SeqTotalConcat(w.tasks, ts, CarriedOf(u));
  }

  lemma OneCarried(t: Task, u: UserId)
    ensures SeqTotal([t], CarriedOf(u)) == CarriedOf(u)(t)
  {
    SeqTotalPush([], CarriedOf(u), t);
    assert [] + [t] == [t];
  }

  /** The releases of a batch carry margin only. */
  lemma {:induction false} ReleasesCarryNothing(dues: seq<Due>, u: UserId)
    ensures SeqTotal(ReleaseTasks(dues), CarriedOf(u)) == 0
  {
    if dues != [] {
      var d, ts := dues[|dues| - 1], ReleaseTasks(dues[..|dues| - 1]);
      ReleasesCarryNothing(dues[..|dues| - 1], u);
      SeqTotalPush(ts, CarriedOf(u), Releasing(d.user, d.margin, 0));
      SeqTotalPush(ts + [Releasing(d.user, d.margin, 0)], CarriedOf(u), Booking(d.user, d.pnl));
      assert ts + [Releasing(d.user, d.margin, 0)] + [Booking(d.user, d.pnl)] == ReleaseTasks(dues);
    }
  }

  lemma {:induction false} TransfersCarryNothing(dues: seq<Due>, u: UserId)
    ensures SeqTotal(TransferTasks(dues), CarriedOf(u)) == 0
  {
    if dues != [] {
      var d := dues[|dues| - 1];
      TransfersCarryNothing(dues[..|dues| - 1], u);
      SeqTotalPush(TransferTasks(dues[..|dues| - 1]), CarriedOf(u), Transferring(d.user, d.margin));
    }
  }

  // ----- batches -----

  lemma {:induction false} SweepToday(b: Books, exchanges: set<Exchange>, ids: seq<OrderId>)
    ensures var c := SweepTx(b, exchanges, ids).0;
            c.positions == b.positions && c.funds == b.funds && c.capital == b.capital
  {
    if ids != [] {
      SweepToday(b, exchanges, ids[..|ids| - 1]);
    }
  }

  /** A close outside the order path leaves the row's day alone. */
  lemma {:induction false} CloseToday(b: Books, closes: seq<(PosKey, int)>, u: UserId)
    ensures var c := CloseTx(b, closes).0;
            PositionToday(c, u) == PositionToday(b, u) && c.funds == b.funds && c.capital == b.capital
  {
    if closes != [] {
      CloseToday(b, closes[..|closes| - 1], u);
      var c := CloseTx(b, closes[..|closes| - 1]).0;
      var (k, price) := closes[|closes| - 1];
      if k in c.positions && c.positions[k].net != 0 {
        TotalUpdate(c.positions, TodayOf(u), k, CloseRow(c.positions[k], price));
      }
    }
  }

  lemma {:induction false} SettleToday(b: Books, keys: seq<PosKey>, u: UserId)
    ensures var c := SettleTx(b, keys).0;
            && PositionToday(c, u) + DeletedToday(b, keys, u) == PositionToday(b, u)
            && c.funds == b.funds && c.capital == b.capital
  {
    if keys != [] {
      SettleToday(b, keys[..|keys| - 1], u);
      var c, k := SettleTx(b, keys[..|keys| - 1]).0, keys[|keys| - 1];
      if k in c.positions && Deliverable(k, c.positions[k]) {
        TotalRemove(c.positions, TodayOf(u), k);
      }
    }
  }

  // ----- one lemma per kind of step -----

  /** A fill books the same gain on the row's day and on the release it starts. */
  lemma FillToday(p: Position, action: Action, quantity: int, price: int, margin: int)
    ensures var f := Fill(p, action, quantity, price, margin); f.pos.today == p.today + f.realized
  {
  }

  lemma ApplyToday(w: World, i: nat, u: UserId)
    ensures TodayGap(Do(w, ApplyStep(i)), u) == TodayGap(w, u)
  {
    if Commits(w, i) {
      CommitToday(w, i, u);
    } else if TaskAt(w, i).Filled? {
      CarriedAdvance(w, i, w.db, Idle, u);
    }
  }

  lemma CommitToday(w: World, i: nat, u: UserId)
    requires Commits(w, i)
    ensures TodayGap(Do(w, ApplyStep(i)), u) == TodayGap(w, u)
  {
    var t := w.tasks[i];
    var p := PositionOf(w.db, t.copy.key);
    var f := Fill(p, t.copy.action, t.quantity, t.price, t.copy.margin);
    var db := w.db.(positions := w.db.positions[t.copy.key := f.pos]);
    FillToday(p, t.copy.action, t.quantity, t.price, t.copy.margin);
    assert Do(w, ApplyStep(i)) == Advance(w, i, db, AfterFill(t.copy.key.user, f));
    CarriedAdvance(w, i, db, AfterFill(t.copy.key.user, f), u);
    TotalUpdate(w.db.positions, TodayOf(u), t.copy.key, f.pos);
  }

  lemma FundToday(w: World, i: nat, u: UserId)
    ensures TodayGap(DoRelease(w, i), u) == TodayGap(w, u)
    ensures TodayGap(DoBook(w, i), u) == TodayGap(w, u)
    ensures TodayGap(DoTransfer(w, i), u) == TodayGap(w, u)
  {
    if i < |w.tasks| {
      CarriedAdvance(w, i, DoRelease(w, i).db, Idle, u);
      CarriedAdvance(w, i, DoBook(w, i).db, Idle, u);
      CarriedAdvance(w, i, DoTransfer(w, i).db, Idle, u);
    }
  }

  lemma OrderTasksToday(w: World, i: nat, id: OrderId, ltp: int, u: UserId)
    ensures TodayGap(DoBlock(w, i), u) == TodayGap(w, u)
    ensures TodayGap(DoCreate(w, i, id, ltp), u) == TodayGap(w, u)
    ensures TodayGap(DoTryFill(w, i), u) == TodayGap(w, u)
  {
    if i < |w.tasks| {
      BlockToday(w, i, u);
      CreateToday(w, i, id, ltp, u);
      TryToday(w, i, u);
    }
  }

  lemma BlockToday(w: World, i: nat, u: UserId)
    requires i < |w.tasks|
    ensures TodayGap(DoBlock(w, i), u) == TodayGap(w, u)
  {
    CarriedAdvance(w, i, DoBlock(w, i).db, DoBlock(w, i).tasks[i], u);
  }

  lemma CreateToday(w: World, i: nat, id: OrderId, ltp: int, u: UserId)
    requires i < |w.tasks|
    ensures TodayGap(DoCreate(w, i, id, ltp), u) == TodayGap(w, u)
  {
    CarriedAdvance(w, i, DoCreate(w, i, id, ltp).db, DoCreate(w, i, id, ltp).tasks[i], u);
  }

  lemma TryToday(w: World, i: nat, u: UserId)
    requires i < |w.tasks|
    ensures TodayGap(DoTryFill(w, i), u) == TodayGap(w, u)
  {
    CarriedAdvance(w, i, DoTryFill(w, i).db, DoTryFill(w, i).tasks[i], u);
  }

  lemma SpawnToday(w: World, db: Books, t: Task, u: UserId)
    requires !t.Releasing? || t.pnl == 0
    requires db.positions == w.db.positions && db.funds == w.db.funds && db.capital == w.db.capital
    ensures TodayGap(Spawn(w, db, t), u) == TodayGap(w, u)
  {
    CarriedSpawn(w, db, [t], u);
    OneCarried(t, u);
  }

  lemma RequestToday(w: World, e: Event, u: UserId)
    requires e.Place? || e.Reject? || e.Scan? || e.Cancel? || e.Modify?
    ensures TodayGap(Do(w, e), u) == TodayGap(w, u)
  {
    match e
    case Place(request, reference, leverage) =>
      SpawnToday(w, w.db, Sized(request, SizedMargin(w.db, request.key, request.action, request.quantity, reference,
                                                     leverage)), u);
    case Scan(id, ltp) =>
      if id in w.db.orders {
        SpawnToday(w, w.db, Attempt(id, w.db.orders[id], ltp), u);
      }
    case Cancel(v, id) =>
      if Cancellable(w.db, v, id) {
        SpawnToday(w, CancelTx(w.db, v, id).value, Releasing(v, w.db.orders[id].margin, 0), u);
      }
    case Reject(_, _) =>
    case Modify(_, _, _) =>
  }

  lemma {:induction false} SweepBatchToday(w: World, exchanges: set<Exchange>, ids: seq<OrderId>, u: UserId)
    ensures TodayGap(Do(w, Sweep(exchanges, ids)), u) == TodayGap(w, u)
  {
    var (db, dues) := SweepTx(w.db, exchanges, ids);
    SweepToday(w.db, exchanges, ids);
    ReleasesCarryNothing(dues, u);
    CarriedSpawn(w, db, ReleaseTasks(dues), u);
  }

  lemma {:induction false} CloseBatchToday(w: World, closes: seq<(PosKey, int)>, u: UserId)
    ensures TodayGap(Do(w, Close(closes)), u) == TodayGap(w, u)
  {
    var (db, dues) := CloseTx(w.db, closes);
    CloseToday(w.db, closes, u);
    ReleasesCarryNothing(dues, u);
    CarriedSpawn(w, db, ReleaseTasks(dues), u);
  }

  lemma {:induction false} SettleBatchToday(w: World, keys: seq<PosKey>, u: UserId)
    ensures TodayGap(Do(w, Settle(keys)), u) == TodayGap(w, u) + DeletedToday(w.db, keys, u)
  {
    var (db, dues) := SettleTx(w.db, keys);
    SettleToday(w.db, keys, u);
    TransfersCarryNothing(dues, u);
    CarriedSpawn(w, db, TransferTasks(dues), u);
  }

  lemma MarkToday(w: World, k: PosKey, ltp: int, u: UserId)
    ensures TodayGap(Do(w, Mark(k, ltp)), u) == TodayGap(w, u)
  {
    if k in w.db.positions {
      TotalUpdate(w.db.positions, TodayOf(u), k, MarkToMarket(w.db.positions[k], ltp));
    }
  }

  /** Whichever step runs, the day of the fund and the day of the rows part only by the rows it deletes. */
  lemma TodayStep(w: World, e: Event, u: UserId)
    ensures TodayGap(Do(w, e), u) == TodayGap(w, u) + RetiredToday(w, e, u)
  {
    match e
    case BlockStep(i) => OrderTasksToday(w, i, 0, 0, u);
    case CreateStep(i, id, ltp) => OrderTasksToday(w, i, id, ltp, u);
    case TryFill(i) => OrderTasksToday(w, i, 0, 0, u);
    case ApplyStep(i) => ApplyToday(w, i, u);
    case ReleaseStep(i) => FundToday(w, i, u);
    case BookStep(i) => FundToday(w, i, u);
    case TransferStep(i) => FundToday(w, i, u);
    case Sweep(exchanges, ids) => SweepBatchToday(w, exchanges, ids, u);
    case Close(closes) => CloseBatchToday(w, closes, u);
    case Settle(keys) => SettleBatchToday(w, keys, u);
    case Mark(k, ltp) => MarkToday(w, k, ltp, u);
    case _ => RequestToday(w, e, u);
  }

  /** The day's P&L on rows deleted by settlements over a run. */
  function RetiredTodayIn(w: World, es: seq<Event>, u: UserId): int {
    if es == [] then 0
    else RetiredTodayIn(w, es[..|es| - 1], u) + RetiredToday(Run(w, es[..|es| - 1]), es[|es| - 1], u)
  }

  lemma {:induction false} TodayRun(w: World, es: seq<Event>, u: UserId)
    ensures TodayGap(Run(w, es), u) == TodayGap(w, u) + RetiredTodayIn(w, es, u)
  {
    if es != [] {
      TodayRun(w, es[..|es| - 1], u);
      TodayStep(Run(w, es[..|es| - 1]), es[|es| - 1], u);
    }
  }

  /** Under every interleaving, the fund's day with what releases still carry is the sum of its rows' days,
      counting the rows settlement deleted. */
  lemma TodayIsBooked(capital: int, initialised: bool, es: seq<Event>, u: UserId)
    ensures var w := Start(capital, initialised);
            var v := Run(w, es);
            FundOf(v.db, u).today + Carried(v, u) == PositionToday(v.db, u) + RetiredTodayIn(w, es, u)
  {
    TodayRun(Start(capital, initialised), es, u);
  }

  // ----- the daily reset -----

  function ResetRow(p: Position): Position {
    p.(today := 0, dayBuyQty := 0, dayBuyValue := 0, daySellQty := 0, daySellValue := 0)
  }

  /** The day's buckets of every fund and row back to nothing, in one transaction. */
  function DailyReset(b: Books): Books {
    b.(funds := map u | u in b.funds :: b.funds[u].(today := 0),
       positions := map k | k in b.positions :: ResetRow(b.positions[k]))
  }

  lemma {:induction false} NoTotal(m: map<PosKey, Position>, weight: (PosKey, Position) -> int)
    requires forall k :: k in m ==> weight(k, m[k]) == 0
    ensures Total(m, weight) == 0
    decreases |m|
  {
    if m != map[] {
      var k :| k in m;
      TotalRemove(m, weight, k);
      NoTotal(m - {k}, weight);
    }
  }

  /** A release still waiting at the reset is booked on the fund's new day, though no row has it: both days
      start level exactly when nothing is on its way. */
  lemma ResetLeavesCarried(w: World, u: UserId)
    ensures var v := w.(db := DailyReset(w.db));
            && FundOf(v.db, u).today == 0 && PositionToday(v.db, u) == 0
            && TodayGap(v, u) == Carried(w, u)
            && FundOf(v.db, u) == FundOf(w.db, u).(today := 0)
            && (forall k :: k in v.db.positions ==> v.db.positions[k].realized == w.db.positions[k].realized)
  {
    var v := w.(db := DailyReset(w.db));
    NoTotal(v.db.positions, TodayOf(u));
    assert v.tasks == w.tasks;
  }

  // ----- the starting capital -----

  /** No step touches what a fund started with. */
  lemma StartingStays(w: World, e: Event, u: UserId)
    ensures Do(w, e).db.capital == w.db.capital
    ensures FundOf(Do(w, e).db, u).starting == FundOf(w.db, u).starting
  {
    match e
    case Sweep(exchanges, ids) => SweepToday(w.db, exchanges, ids);
    case Close(closes) => CloseToday(w.db, closes, u);
    case Settle(keys) => SettleToday(w.db, keys, u);
    case BlockStep(i) => BlockStarting(w, i, u);
    case ReleaseStep(i) => FundStarting(w, i, u);
    case BookStep(i) => FundStarting(w, i, u);
    case TransferStep(i) => FundStarting(w, i, u);
    case CreateStep(_, _, _) => OtherStarting(w, e);
    case TryFill(_) => OtherStarting(w, e);
    case ApplyStep(_) => OtherStarting(w, e);
    case _ =>
  }

  lemma OtherStarting(w: World, e: Event)
    requires e.CreateStep? || e.TryFill? || e.ApplyStep?
    ensures Do(w, e).db.funds == w.db.funds && Do(w, e).db.capital == w.db.capital
  {
  }

  lemma BlockStarting(w: World, i: nat, u: UserId)
    ensures DoBlock(w, i).db.capital == w.db.capital
    ensures FundOf(DoBlock(w, i).db, u).starting == FundOf(w.db, u).starting
  {
  }

  lemma FundStarting(w: World, i: nat, u: UserId)
    ensures var r, k, t := DoRelease(w, i).db, DoBook(w, i).db, DoTransfer(w, i).db;
            && r.capital == k.capital == t.capital == w.db.capital
            && FundOf(r, u).starting == FundOf(k, u).starting == FundOf(t, u).starting == FundOf(w.db, u).starting
  {
    match TaskAt(w, i)
    case Releasing(v, margin, pnl) => ReleaseStarting(w.db, v, margin, pnl, u);
    case Booking(v, pnl) => ReleaseStarting(w.db, v, 0, pnl, u);
    case Transferring(v, margin) => ReleaseStarting(w.db, v, margin, 0, u);
    case _ =>
  }

  lemma ReleaseStarting(b: Books, v: UserId, margin: int, pnl: int, u: UserId)
    ensures ReleaseTx(b, v, margin, pnl).capital == b.capital && BookTx(b, v, pnl).capital == b.capital
    ensures TransferTx(b, v, margin).capital == b.capital
    ensures FundOf(ReleaseTx(b, v, margin, pnl), u).starting == FundOf(b, u).starting
    ensures FundOf(BookTx(b, v, pnl), u).starting == FundOf(b, u).starting
    ensures FundOf(TransferTx(b, v, margin), u).starting == FundOf(b, u).starting
  {
  }

  /** Under every interleaving every fund started with the capital. */
  lemma {:induction false} StartedWithCapital(capital: int, initialised: bool, es: seq<Event>, u: UserId)
    ensures var b := Run(Start(capital, initialised), es).db;
            b.capital == capital && FundOf(b, u).starting == capital
  {
    if es != [] {
      StartedWithCapital(capital, initialised, es[..|es| - 1], u);
      StartingStays(Run(Start(capital, initialised), es[..|es| - 1]), es[|es| - 1], u);
    }
  }

  /** So cash and used margin are the capital and the booked P&L, less what went into holdings. */
  lemma CapitalConserved(capital: int, initialised: bool, es: seq<Event>, u: UserId)
    ensures var f := FundOf(Run(Start(capital, initialised), es).db, u);
            f.available + 100 * f.used == capital + f.realized - 100 * MovedIn(Start(capital, initialised), es, u)
  {
    StartedWithCapital(capital, initialised, es, u);
    MoneyConserved(capital, initialised, es, u);
  }
}
