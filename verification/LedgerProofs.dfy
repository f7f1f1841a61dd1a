/** Every step of every thread keeps the ledger. */
module LedgerProofs {
  import opened Rounding
  import opened Sums
  import opened Rows
  import opened Positions
  import opened Funds
  import opened Books
  import opened Ledger

  // ----- frames -----

  /** Orders are never deleted, keep whose and what they are, never become pending again, and a pending
      one keeps its margin. */
  predicate OrdersKeep(b: Books, c: Books) {
    forall id :: id in b.orders ==>
      && id in c.orders
      && c.orders[id].key == b.orders[id].key && c.orders[id].action == b.orders[id].action
      && (Pending(c.orders[id]) ==> Pending(b.orders[id]) && c.orders[id].margin == b.orders[id].margin)
  }

  lemma AdvanceGood(w: World, i: nat, db: Books, next: Task)
    requires GoodWorld(w) && i < |w.tasks| && GoodBooks(db) && OrdersKeep(w.db, db) && GoodTask(db, next)
    ensures GoodWorld(Advance(w, i, db, next))
  {
  }

  lemma SpawnGood(w: World, db: Books, ts: seq<Task>)
    requires GoodWorld(w) && GoodBooks(db) && OrdersKeep(w.db, db)
    requires forall i :: 0 <= i < |ts| ==> GoodTask(db, ts[i])
    ensures GoodWorld(w.(db := db, tasks := w.tasks + ts))
  {
  }

  lemma AdvanceTotals(w: World, i: nat, db: Books, next: Task, u: UserId)
    requires i < |w.tasks|
    ensures var v := Advance(w, i, db, next);
            && Held(v, u) == Held(w, u) - HeldOf(u)(w.tasks[i]) + HeldOf(u)(next)
            && Unbooked(v, u) == Unbooked(w, u) - UnbookedOf(u)(w.tasks[i]) + UnbookedOf(u)(next)
  {
    SeqTotalUpdate(w.tasks, HeldOf(u), i, next);
    SeqTotalUpdate(w.tasks, UnbookedOf(u), i, next);
  }

  lemma SpawnTotals(w: World, db: Books, ts: seq<Task>, u: UserId)
    ensures var v := w.(db := db, tasks := w.tasks + ts);
            && Held(v, u) == Held(w, u) + SeqTotal(ts, HeldOf(u))
            && Unbooked(v, u) == Unbooked(w, u) + SeqTotal(ts, UnbookedOf(u))
  {
    SeqTotalConcat(w.tasks, ts, HeldOf(u));
    SeqTotalConcat(w.tasks, ts, UnbookedOf(u));
  }

  lemma OneTask(t: Task, u: UserId)
    ensures SeqTotal([t], HeldOf(u)) == HeldOf(u)(t) && SeqTotal([t], UnbookedOf(u)) == UnbookedOf(u)(t)
  {
    SeqTotalPush([], HeldOf(u), t);
    SeqTotalPush([], UnbookedOf(u), t);
    assert [] + [t] == [t];
  }

  lemma {:induction false} ReleaseTaskTotals(b: Books, dues: seq<Due>, u: UserId)
    requires GoodDues(dues)
    ensures var ts := ReleaseTasks(dues);
            && SeqTotal(ts, HeldOf(u)) == DueMargin(dues, u)
            && SeqTotal(ts, UnbookedOf(u)) == DuePnl(dues, u)
            && (forall i :: 0 <= i < |ts| ==> GoodTask(b, ts[i]))
  {
    if dues != [] {
      var d, rest := dues[|dues| - 1], dues[..|dues| - 1];
      ReleaseTaskTotals(b, rest, u);
      var ts := ReleaseTasks(rest);
      var r, k := Releasing(d.user, d.margin, 0), Booking(d.user, d.pnl);
      SeqTotalPush(ts, HeldOf(u), r);
      SeqTotalPush(ts, UnbookedOf(u), r);
      SeqTotalPush(ts + [r], HeldOf(u), k);
      SeqTotalPush(ts + [r], UnbookedOf(u), k);
      assert ts + [r] + [k] == ts + [r, k];
    }
  }

  lemma {:induction false} TransferTaskTotals(b: Books, dues: seq<Due>, u: UserId)
    requires GoodDues(dues)
    ensures var ts := TransferTasks(dues);
            && SeqTotal(ts, HeldOf(u)) == DueMargin(dues, u)
            && SeqTotal(ts, UnbookedOf(u)) == 0
            && (forall i :: 0 <= i < |ts| ==> GoodTask(b, ts[i]))
  {
    if dues != [] {
      var d, rest := dues[|dues| - 1], dues[..|dues| - 1];
      TransferTaskTotals(b, rest, u);
      SeqTotalPush(TransferTasks(rest), HeldOf(u), Transferring(d.user, d.margin));
      SeqTotalPush(TransferTasks(rest), UnbookedOf(u), Transferring(d.user, d.margin));
    }
  }

  lemma {:induction false} SweepKeepsOrders(b: Books, exchanges: set<Exchange>, ids: seq<OrderId>)
    ensures OrdersKeep(b, SweepTx(b, exchanges, ids).0)
  {
    if ids != [] {
      SweepKeepsOrders(b, exchanges, ids[..|ids| - 1]);
    }
  }

  /** No clamp can fire: a fund row always holds at least what a waiting release or transfer takes. */
  lemma UsedCovers(w: World, i: nat, u: UserId)
    requires Inv(w) && i < |w.tasks|
    ensures FundOf(w.db, u).used >= HeldOf(u)(w.tasks[i]) >= 0
  {
    assert Leak(w, u) >= 0;
    PendingMarginBounds(w.db, u);
    forall t | t in w.tasks ensures HeldOf(u)(t) >= 0 { HeldNonNegative(w, t, u); }
    SeqTotalAtLeast(w.tasks, HeldOf(u), i);
  }

  lemma HeldNonNegative(w: World, t: Task, u: UserId)
    requires GoodWorld(w) && t in w.tasks
    ensures HeldOf(u)(t) >= 0
  {
    var i :| 0 <= i < |w.tasks| && w.tasks[i] == t;
    assert GoodTask(w.db, w.tasks[i]);
  }

  // ----- one lemma per kind of step -----

  lemma PlaceAccounts(w: World, request: Order, reference: int, leverage: Leverage, u: UserId)
    requires GoodWorld(w)
    ensures GoodWorld(Do(w, Place(request, reference, leverage))) && Accounts(w, Place(request, reference, leverage), u)
  {
    SizedMarginNonNegative(w.db, request.key, request.action, request.quantity, reference, leverage);
    var t := Sized(request, SizedMargin(w.db, request.key, request.action, request.quantity, reference, leverage));
    SpawnTotals(w, w.db, [t], u);
    OneTask(t, u);
  }

  lemma RejectAccounts(w: World, request: Order, id: OrderId, u: UserId)
    requires GoodWorld(w)
    ensures GoodWorld(Do(w, Reject(request, id))) && Accounts(w, Reject(request, id), u)
  {
    if id !in w.db.orders {
      TotalUpdate(w.db.orders, PendingMarginOf(u), id, NewOrder(request, 0, REJECTED));
    }
  }

  lemma ScanAccounts(w: World, id: OrderId, ltp: int, u: UserId)
    requires GoodWorld(w)
    ensures GoodWorld(Do(w, Scan(id, ltp))) && Accounts(w, Scan(id, ltp), u)
  {
    if id in w.db.orders && Pending(w.db.orders[id]) {
      var t := Attempt(id, w.db.orders[id], ltp);
      SpawnTotals(w, w.db, [t], u);
      OneTask(t, u);
    }
  }

  lemma BlockAccounts(w: World, i: nat, u: UserId)
    requires GoodWorld(w)
    ensures GoodWorld(Do(w, BlockStep(i))) && Accounts(w, BlockStep(i), u)
  {
    if TaskAt(w, i).Sized? {
      var Sized(request, margin) := w.tasks[i];
      assert GoodTask(w.db, w.tasks[i]);
      var (db, ok) := BlockTx(w.db, request.key.user, margin);
      var next := if ok then Blocked(request, margin) else Refused(request);
      AdvanceGood(w, i, db, next);
      AdvanceTotals(w, i, db, next, u);
    }
  }

  lemma CreateAccounts(w: World, i: nat, id: OrderId, ltp: int, u: UserId)
    requires GoodWorld(w)
    ensures GoodWorld(Do(w, CreateStep(i, id, ltp))) && Accounts(w, CreateStep(i, id, ltp), u)
  {
    if id !in w.db.orders {
      if TaskAt(w, i).Blocked? {
        AcceptAccounts(w, i, id, ltp, u);
      } else if TaskAt(w, i).Refused? {
        RefuseAccounts(w, i, id, ltp, u);
      }
    }
  }

  lemma RefuseAccounts(w: World, i: nat, id: OrderId, ltp: int, u: UserId)
    requires GoodWorld(w) && id !in w.db.orders && TaskAt(w, i).Refused?
    ensures GoodWorld(Do(w, CreateStep(i, id, ltp))) && Accounts(w, CreateStep(i, id, ltp), u)
  {
    CreateOne(w, i, id, NewOrder(w.tasks[i].request, 0, REJECTED), Idle, u);
  }

  lemma AcceptAccounts(w: World, i: nat, id: OrderId, ltp: int, u: UserId)
    requires GoodWorld(w) && id !in w.db.orders && TaskAt(w, i).Blocked?
    ensures GoodWorld(Do(w, CreateStep(i, id, ltp))) && Accounts(w, CreateStep(i, id, ltp), u)
  {
    var Blocked(request, margin) := w.tasks[i];
    assert GoodTask(w.db, w.tasks[i]);
    var o := NewOrder(request, margin, InitialStatus(request.pricetype));
    CreateOne(w, i, id, o, if ltp > 0 then Attempt(id, o, ltp) else Idle, u);
  }

  lemma CreateOne(w: World, i: nat, id: OrderId, o: Order, next: Task, u: UserId)
    requires GoodWorld(w) && i < |w.tasks| && id !in w.db.orders && o.margin >= 0
    requires next == Idle || (next.Attempt? && next.id == id && next.copy == o)
    ensures var v := Advance(w, i, CreateTx(w.db, id, o), next);
            && GoodWorld(v)
            && Held(v, u) == Held(w, u) - HeldOf(u)(w.tasks[i])
            && Unbooked(v, u) == Unbooked(w, u) - UnbookedOf(u)(w.tasks[i])
            && PendingMargin(v.db, u) == PendingMargin(w.db, u) + PendingMarginOf(u)(id, o)
  {
    AdvanceGood(w, i, CreateTx(w.db, id, o), next);
    AdvanceTotals(w, i, CreateTx(w.db, id, o), next, u);
    TotalUpdate(w.db.orders, PendingMarginOf(u), id, o);
  }

  lemma TryFillAccounts(w: World, i: nat, u: UserId)
    requires GoodWorld(w)
    ensures GoodWorld(Do(w, TryFill(i))) && Accounts(w, TryFill(i), u)
  {
    if TaskAt(w, i).Attempt? {
      var Attempt(id, copy, ltp) := w.tasks[i];
      assert GoodTask(w.db, w.tasks[i]);
      var price := FillPrice(copy, ltp);
      if price.Some? && FillTx(w.db, copy.key.user, id, price.value).Some? {
        FillOne(w, i, id, copy, price.value, u);
      } else {
        AdvanceTotals(w, i, w.db, Idle, u);
      }
    }
  }

  /** A fill takes the order's margin out of the pending bucket and into the thread's hands. */
  lemma FillOne(w: World, i: nat, id: OrderId, copy: Order, price: int, u: UserId)
    requires GoodWorld(w) && i < |w.tasks| && w.tasks[i].Attempt?
    requires id in w.db.orders && copy.key == w.db.orders[id].key && copy.margin == w.db.orders[id].margin
    requires FillTx(w.db, copy.key.user, id, price).Some?
    ensures var (db, t) := FillTx(w.db, copy.key.user, id, price).value;
            var v := Advance(w, i, db, Filled(id, copy, t.quantity, price));
            && GoodWorld(v)
            && Held(v, u) + PendingMargin(v.db, u) == Held(w, u) + PendingMargin(w.db, u)
            && Unbooked(v, u) == Unbooked(w, u)
  {
    var (db, t) := FillTx(w.db, copy.key.user, id, price).value;
    var next := Filled(id, copy, t.quantity, price);
    TotalUpdate(w.db.orders, PendingMarginOf(u), id, FilledOrder(w.db.orders[id], t.quantity, price));
    assert w.db.orders[id].margin >= 0;
    AdvanceGood(w, i, db, next);
    AdvanceTotals(w, i, db, next, u);
  }

  predicate Commits(w: World, i: nat) {
    var t := TaskAt(w, i);
    t.Filled? &&
    ApplyFillTx(w.db, w.initialised, t.copy.key, t.copy.action, t.quantity, t.price, t.copy.margin).Some?
  }

  lemma ApplyAccounts(w: World, i: nat, u: UserId)
    requires GoodWorld(w)
    ensures GoodWorld(Do(w, ApplyStep(i))) && Accounts(w, ApplyStep(i), u)
  {
    if Commits(w, i) {
      CommitAccounts(w, i, u);
    } else if TaskAt(w, i).Filled? {
      AdvanceTotals(w, i, w.db, Idle, u);
    }
  }

  lemma CommitAccounts(w: World, i: nat, u: UserId)
    requires GoodWorld(w) && Commits(w, i)
    ensures GoodWorld(Do(w, ApplyStep(i))) && Accounts(w, ApplyStep(i), u)
  {
    assert GoodTask(w.db, w.tasks[i]);
    ApplyOne(w, i, u);
  }

  function AfterFill(u: UserId, f: FillResult): Task {
    if f.release > 0 || f.realized != 0 then Releasing(u, f.release, f.realized) else Idle
  }

  lemma ApplyOne(w: World, i: nat, u: UserId)
    requires GoodWorld(w) && i < |w.tasks| && w.tasks[i].Filled?
    requires var t := w.tasks[i];
             ApplyFillTx(w.db, w.initialised, t.copy.key, t.copy.action, t.quantity, t.price, t.copy.margin).Some?
    ensures var t := w.tasks[i];
            var (db, f) := ApplyFillTx(w.db, w.initialised, t.copy.key, t.copy.action, t.quantity, t.price,
              t.copy.margin).value;
            var v := Advance(w, i, db, AfterFill(t.copy.key.user, f));
            var placed := Placed(PositionOf(w.db, t.copy.key), t.copy.action, t.quantity, t.copy.margin);
            && GoodWorld(v)
            && Held(v, u) + PositionMargin(v.db, u) ==
               Held(w, u) + PositionMargin(w.db, u) - (if t.copy.key.user == u then t.copy.margin - placed else 0)
            && PositionRealized(v.db, u) - Unbooked(v, u) == PositionRealized(w.db, u) - Unbooked(w, u)
  {
    var t := w.tasks[i];
    assert GoodTask(w.db, t);
    var k := t.copy.key;
    var p := PositionOf(w.db, k);
    var f := Fill(p, t.copy.action, t.quantity, t.price, t.copy.margin);
    FillMargin(p, t.copy.action, t.quantity, t.price, t.copy.margin);
    PutPosition(w, i, k, f.pos, AfterFill(k.user, f), u);
  }

  /** Write one position row and pass on. */
  lemma PutPosition(w: World, i: nat, k: PosKey, p: Position, next: Task, u: UserId)
    requires GoodWorld(w) && i < |w.tasks| && GoodPosition(p) && GoodTask(w.db, next) && !next.Attempt?
    ensures var v := Advance(w, i, w.db.(positions := w.db.positions[k := p]), next);
            && GoodWorld(v)
            && Held(v, u) == Held(w, u) - HeldOf(u)(w.tasks[i]) + HeldOf(u)(next)
            && Unbooked(v, u) == Unbooked(w, u) - UnbookedOf(u)(w.tasks[i]) + UnbookedOf(u)(next)
            && PositionMargin(v.db, u) ==
               PositionMargin(w.db, u) - PositionMarginOf(u)(k, PositionOf(w.db, k)) + PositionMarginOf(u)(k, p)
            && PositionRealized(v.db, u) ==
               PositionRealized(w.db, u) - PositionRealizedOf(u)(k, PositionOf(w.db, k)) + PositionRealizedOf(u)(k, p)
  {
    var db := w.db.(positions := w.db.positions[k := p]);
    AdvanceGood(w, i, db, next);
    AdvanceTotals(w, i, db, next, u);
    TotalUpdate(w.db.positions, PositionMarginOf(u), k, p);
    TotalUpdate(w.db.positions, PositionRealizedOf(u), k, p);
  }

  lemma SettleUpAccounts(w: World, e: Event, u: UserId)
    requires Inv(w) && (e.ReleaseStep? || e.BookStep? || e.TransferStep?)
    ensures GoodWorld(Do(w, e)) && Accounts(w, e, u)
  {
    match e
    case ReleaseStep(i) => ReleaseAccounts(w, i, u);
    case BookStep(i) => BookAccounts(w, i, u);
    case TransferStep(i) => TransferAccounts(w, i, u);
  }

  lemma ReleaseAccounts(w: World, i: nat, u: UserId)
    requires Inv(w)
    ensures GoodWorld(Do(w, ReleaseStep(i))) && Accounts(w, ReleaseStep(i), u)
  {
    if TaskAt(w, i).Releasing? {
      var Releasing(v, margin, pnl) := w.tasks[i];
      UsedCovers(w, i, v);
      FundOne(w, i, ReleaseTx(w.db, v, margin, pnl), u);
    }
  }

  lemma BookAccounts(w: World, i: nat, u: UserId)
    requires GoodWorld(w)
    ensures GoodWorld(Do(w, BookStep(i))) && Accounts(w, BookStep(i), u)
  {
    if TaskAt(w, i).Booking? {
      FundOne(w, i, BookTx(w.db, w.tasks[i].user, w.tasks[i].pnl), u);
    }
  }

  lemma TransferAccounts(w: World, i: nat, u: UserId)
    requires Inv(w)
    ensures GoodWorld(Do(w, TransferStep(i))) && Accounts(w, TransferStep(i), u)
  {
    if TaskAt(w, i).Transferring? {
      var Transferring(v, margin) := w.tasks[i];
      UsedCovers(w, i, v);
      FundOne(w, i, TransferTx(w.db, v, margin), u);
    }
  }

  lemma FundOne(w: World, i: nat, db: Books, u: UserId)
    requires GoodWorld(w) && i < |w.tasks| && db == w.db.(funds := db.funds)
    ensures var v := Advance(w, i, db, Idle);
            && GoodWorld(v)
            && Held(v, u) == Held(w, u) - HeldOf(u)(w.tasks[i])
            && Unbooked(v, u) == Unbooked(w, u) - UnbookedOf(u)(w.tasks[i])
  {
    AdvanceGood(w, i, db, Idle);
    AdvanceTotals(w, i, db, Idle, u);
  }

  lemma CancelGood(b: Books, v: UserId, id: OrderId)
    requires GoodBooks(b) && Cancellable(b, v, id)
    ensures GoodBooks(CancelTx(b, v, id).value) && OrdersKeep(b, CancelTx(b, v, id).value)
  {
  }

  lemma CancelAccounts(w: World, v: UserId, id: OrderId, u: UserId)
    requires GoodWorld(w)
    ensures GoodWorld(Do(w, Cancel(v, id))) && Accounts(w, Cancel(v, id), u)
  {
    if Cancellable(w.db, v, id) {
      CancelOne(w, v, id, u);
    }
  }

  lemma CancelOne(w: World, v: UserId, id: OrderId, u: UserId)
    requires GoodWorld(w) && Cancellable(w.db, v, id)
    ensures var x := Spawn(w, CancelTx(w.db, v, id).value, Releasing(v, w.db.orders[id].margin, 0));
            && GoodWorld(x) && x.db == w.db.(orders := x.db.orders)
            && PendingMargin(x.db, u) + Held(x, u) == PendingMargin(w.db, u) + Held(w, u)
            && Unbooked(x, u) == Unbooked(w, u)
  {
    var o := w.db.orders[id];
    var db := CancelTx(w.db, v, id).value;
    var t := Releasing(v, o.margin, 0);
    CancelGood(w.db, v, id);
    SpawnGood(w, db, [t]);
    SpawnTotals(w, db, [t], u);
    OneTask(t, u);
    TotalUpdate(w.db.orders, PendingMarginOf(u), id, o.(status := CANCELLED));
  }

  lemma ModifyAccounts(w: World, v: UserId, id: OrderId, c: Change, u: UserId)
    requires GoodWorld(w)
    ensures GoodWorld(Do(w, Modify(v, id, c))) && Accounts(w, Modify(v, id, c), u)
  {
    if Cancellable(w.db, v, id) {
      SpawnGood(w, ModifyTx(w.db, v, id, c).value, []);
      assert w.tasks + [] == w.tasks;
      TotalUpdate(w.db.orders, PendingMarginOf(u), id, Modified(w.db.orders[id], c));
    }
  }

  lemma SweepAccounts(w: World, exchanges: set<Exchange>, ids: seq<OrderId>, u: UserId)
    requires GoodWorld(w)
    ensures GoodWorld(Do(w, Sweep(exchanges, ids))) && Accounts(w, Sweep(exchanges, ids), u)
  {
    var (db, dues) := SweepTx(w.db, exchanges, ids);
    SweepTotals(w.db, exchanges, ids, u);
    SweepKeepsOrders(w.db, exchanges, ids);
    ReleaseTaskTotals(db, dues, u);
    SpawnGood(w, db, ReleaseTasks(dues));
    SpawnTotals(w, db, ReleaseTasks(dues), u);
  }

  lemma CloseAccounts(w: World, closes: seq<(PosKey, int)>, u: UserId)
    requires GoodWorld(w)
    ensures GoodWorld(Do(w, Close(closes))) && Accounts(w, Close(closes), u)
  {
    var (db, dues) := CloseTx(w.db, closes);
    CloseTotals(w.db, closes, u);
    ReleaseTaskTotals(db, dues, u);
    SpawnGood(w, db, ReleaseTasks(dues));
    SpawnTotals(w, db, ReleaseTasks(dues), u);
  }

  lemma SettleAccounts(w: World, keys: seq<PosKey>, u: UserId)
    requires GoodWorld(w)
    ensures GoodWorld(Do(w, Settle(keys))) && Accounts(w, Settle(keys), u)
  {
    var (db, dues) := SettleTx(w.db, keys);
    SettleTotals(w.db, keys, u);
    TransferTaskTotals(db, dues, u);
    SpawnGood(w, db, TransferTasks(dues));
    SpawnTotals(w, db, TransferTasks(dues), u);
  }

  lemma MarkAccounts(w: World, k: PosKey, ltp: int, u: UserId)
    requires GoodWorld(w)
    ensures GoodWorld(Do(w, Mark(k, ltp))) && Accounts(w, Mark(k, ltp), u)
  {
    SpawnGood(w, MarkTx(w.db, k, ltp), []);
    assert w.tasks + [] == w.tasks;
    if k in w.db.positions {
      TotalUpdate(w.db.positions, PositionMarginOf(u), k, MarkToMarket(w.db.positions[k], ltp));
      TotalUpdate(w.db.positions, PositionRealizedOf(u), k, MarkToMarket(w.db.positions[k], ltp));
    }
  }

  /** What one step does to a user's accounts, whichever step it is. */
  lemma StepAccounts(w: World, e: Event, u: UserId)
    requires Inv(w)
    ensures GoodWorld(Do(w, e)) && Accounts(w, e, u) && Dropped(w, e, u) >= 0
  {
    DroppedNonNegative(w, e, u);
    match e
    case Place(request, reference, leverage) => PlaceAccounts(w, request, reference, leverage, u);
    case Reject(request, id) => RejectAccounts(w, request, id, u);
    case BlockStep(i) => BlockAccounts(w, i, u);
    case CreateStep(i, id, ltp) => CreateAccounts(w, i, id, ltp, u);
    case Scan(id, ltp) => ScanAccounts(w, id, ltp, u);
    case TryFill(i) => TryFillAccounts(w, i, u);
    case ApplyStep(i) => ApplyAccounts(w, i, u);
    case ReleaseStep(_) => SettleUpAccounts(w, e, u);
    case BookStep(_) => SettleUpAccounts(w, e, u);
    case TransferStep(_) => SettleUpAccounts(w, e, u);
    case Cancel(v, id) => CancelAccounts(w, v, id, u);
    case Modify(v, id, c) => ModifyAccounts(w, v, id, c, u);
    case Sweep(exchanges, ids) => SweepAccounts(w, exchanges, ids, u);
    case Close(closes) => CloseAccounts(w, closes, u);
    case Settle(keys) => SettleAccounts(w, keys, u);
    case Mark(k, ltp) => MarkAccounts(w, k, ltp, u);
  }

  lemma DroppedNonNegative(w: World, e: Event, u: UserId)
    requires Inv(w)
    ensures Dropped(w, e, u) >= 0
  {
    if e.ApplyStep? && TaskAt(w, e.task).Filled? {
      assert GoodTask(w.db, w.tasks[e.task]);
    }
  }

  lemma InvStep(w: World, e: Event)
    requires Inv(w)
    ensures Inv(Do(w, e))
  {
    forall u ensures GoodWorld(Do(w, e)) && Leak(Do(w, e), u) >= 0 { StepAccounts(w, e, u); }
    StepAccounts(w, e, 0);
  }

  // ----- whole runs -----

  lemma StartInv(capital: int, initialised: bool)
    ensures Inv(Start(capital, initialised))
  {
  }

  lemma {:induction false} RunInv(w: World, es: seq<Event>)
    requires Inv(w)
    ensures Inv(Run(w, es))
  {
    if es != [] {
      RunInv(w, es[..|es| - 1]);
      InvStep(Run(w, es[..|es| - 1]), es[|es| - 1]);
    }
  }

  /** The margin dropped by the fills of a run. */
  function DroppedIn(w: World, es: seq<Event>, u: UserId): int {
    if es == [] then 0
    else DroppedIn(w, es[..|es| - 1], u) + Dropped(Run(w, es[..|es| - 1]), es[|es| - 1], u)
  }

  /** The margin moved into holdings over a run. */
  function MovedIn(w: World, es: seq<Event>, u: UserId): int {
    if es == [] then 0
    else MovedIn(w, es[..|es| - 1], u) + MovedToHoldings(Run(w, es[..|es| - 1]), es[|es| - 1], u)
  }

  /** The realized P&L on rows deleted by settlements over a run. */
  function RetiredIn(w: World, es: seq<Event>, u: UserId): int {
    if es == [] then 0
    else RetiredIn(w, es[..|es| - 1], u) + Retired(Run(w, es[..|es| - 1]), es[|es| - 1], u)
  }

  lemma {:induction false} RunAccounts(w: World, es: seq<Event>, u: UserId)
    requires Inv(w)
    ensures var v := Run(w, es);
            && Leak(v, u) == Leak(w, u) + DroppedIn(w, es, u)
            && DroppedIn(w, es, u) >= 0
            && Equity(FundOf(v.db, u)) == Equity(FundOf(w.db, u)) - TICKS_PER_PAISA * MovedIn(w, es, u)
            && RealizedGap(v, u) == RealizedGap(w, u) + RetiredIn(w, es, u)
  {
    if es != [] {
      var rest := es[..|es| - 1];
      RunAccounts(w, rest, u);
      RunInv(w, rest);
      StepAccounts(Run(w, rest), es[|es| - 1], u);
    }
  }

  /** Under every interleaving, from an empty book, a user's used margin is the margin of pending orders,
      of positions and of continuations, plus what fills have dropped. */
  lemma UsedMarginExplained(capital: int, initialised: bool, es: seq<Event>, u: UserId)
    ensures var w := Start(capital, initialised);
            var v := Run(w, es);
            && Inv(v)
            && FundOf(v.db, u).used ==
               PendingMargin(v.db, u) + PositionMargin(v.db, u) + Held(v, u) + DroppedIn(w, es, u)
            && DroppedIn(w, es, u) >= 0
  {
    StartInv(capital, initialised);
    RunInv(Start(capital, initialised), es);
    RunAccounts(Start(capital, initialised), es, u);
  }

  /** Under every interleaving, cash and used margin together are the starting capital and the booked P&L,
      less what went into holdings; and the booked P&L, with what is on its way, is the positions' P&L,
      counting the rows settlement deleted. */
  lemma MoneyConserved(capital: int, initialised: bool, es: seq<Event>, u: UserId)
    ensures var w := Start(capital, initialised);
            var v, f := Run(w, es), FundOf(Run(w, es).db, u);
            && f.available + TICKS_PER_PAISA * f.used ==
               f.starting + f.realized - TICKS_PER_PAISA * MovedIn(w, es, u)
            && f.realized + Unbooked(v, u) == PositionRealized(v.db, u) + RetiredIn(w, es, u)
  {
    StartInv(capital, initialised);
    RunAccounts(Start(capital, initialised), es, u);
  }

  /** In every reachable state, whichever release or transfer goes next, `max(0, …)` changes nothing. */
  lemma ClampsNeverFire(capital: int, initialised: bool, es: seq<Event>, i: nat)
    ensures var v := Run(Start(capital, initialised), es);
            && (TaskAt(v, i).Releasing? ==> FundOf(v.db, TaskAt(v, i).user).used >= TaskAt(v, i).margin)
            && (TaskAt(v, i).Transferring? ==> FundOf(v.db, TaskAt(v, i).user).used >= TaskAt(v, i).margin)
  {
    var v := Run(Start(capital, initialised), es);
    StartInv(capital, initialised);
    RunInv(Start(capital, initialised), es);
    if i < |v.tasks| && (v.tasks[i].Releasing? || v.tasks[i].Transferring?) {
      UsedCovers(v, i, v.tasks[i].user);
    }
  }
}
