/** Modifying a pending order: what the service makes of a request, and what becomes of the margin that was
    locked for the order when it was placed. */
module Modifying {
  import opened Rounding
  import opened Rows
  import opened Positions
  import opened Funds
  import opened Books
  import opened Ledger
  import opened LedgerProofs
  import opened OrderLife
  import opened Sequential
  import opened Placement
  import opened SandboxService

  // ----- the request -----

  /** What the service passes on, given what it could parse: an absent quantity, or one of zero, is kept as
      absent; an absent price or trigger becomes zero, which is a price like any other. */
  function Parsed(request: Change): Change {
    Change(if request.quantity == Some(0) then None else request.quantity,
           Some(Get(request.price, 0)), Some(Get(request.trigger, 0)), request.pricetype)
  }

  method ModifyFromRequest(db: Sandbox, u: UserId, id: OrderId, request: Change) returns (found: bool)
    modifies db`orders
    ensures found == old(Cancellable(db.Snapshot(), u, id))
    ensures db.Snapshot() == Get(old(ModifyTx(db.Snapshot(), u, id, Parsed(request))), old(db.Snapshot()))
  {
    var updated := db.ModifyOrder(u, id, Parsed(request));
    found := updated.Some?;
  }

  /** The columns a request leaves out keep their values exactly when they were zero to begin with. */
  lemma LeftOutIsKeptWhen(o: Order, request: Change)
    ensures Modified(o, Parsed(request)) == Modified(o, request) <==>
            && (request.price.None? ==> o.price == 0)
            && (request.trigger.None? ==> o.trigger == 0)
            && (request.quantity == Some(0) ==> o.quantity == 0)
  {
  }

  function QuantityOnly(quantity: int): Change {
    Change(Some(quantity), None, None, None)
  }

  /** A modification, and the next look at the order. */
  function ModifyThenTry(w: World, u: UserId, id: OrderId, request: Change, ltp: int): World {
    Do(Do(Do(w, Modify(u, id, Parsed(request))), Scan(id, ltp)), TryFill(|w.tasks|))
  }

  /** A limit order whose quantity alone is changed has its price set to zero: a sell then trades at zero
      whatever the market pays, and a buy never trades. */
  lemma QuantityOnlyZeroesThePrice(w: World, u: UserId, id: OrderId, quantity: int, ltp: int)
    requires Cancellable(w.db, u, id) && w.db.orders[id].pricetype == LIMIT && w.db.orders[id].filled < quantity
    requires ltp > 0 && quantity > 0
    ensures var o, v := w.db.orders[id], ModifyThenTry(w, u, id, QuantityOnly(quantity), ltp);
            && (o.action == SELL ==>
                  && v.db.trades == w.db.trades + [Trade(id, o.key, SELL, quantity - o.filled, 0)]
                  && v.db.orders[id].status == COMPLETE)
            && (o.action == BUY ==>
                  && v.db.trades == w.db.trades
                  && v.db.orders[id] == o.(quantity := quantity, price := 0, trigger := 0))
  {
    var o := w.db.orders[id];
    var changed := o.(quantity := quantity, price := 0, trigger := 0);
    var x := Do(w, Modify(u, id, Parsed(QuantityOnly(quantity))));
    assert Modified(o, Parsed(QuantityOnly(quantity))) == changed;
    assert x == w.(db := x.db) && x.db == w.db.(orders := w.db.orders[id := changed]);
    var y := Do(x, Scan(id, ltp));
    assert TaskAt(y, |w.tasks|) == Attempt(id, changed, ltp);
    assert FillPrice(changed, ltp) == if o.action == SELL then Some(0) else None;
  }

  // ----- where an order's margin came from -----

  /** The event that started task i. */
  function SpawnedBy(w: World, es: seq<Event>, i: nat): nat {
    if es == [] then 0
    else if i < |Run(w, es[..|es| - 1]).tasks| then SpawnedBy(w, es[..|es| - 1], i)
    else |es| - 1
  }

  /** The event that placed the order. */
  function PlacedBy(w: World, es: seq<Event>, id: OrderId): nat {
    if es == [] then 0
    else
      var rest, e := es[..|es| - 1], es[|es| - 1];
      if id in Run(w, rest).db.orders then PlacedBy(w, rest, id)
      else if e.CreateStep? then SpawnedBy(w, rest, e.task)
      else |rest|
  }

  /** The margin that a quantity would have been sized at by that placement. */
  function SizedFor(w: World, es: seq<Event>, j: nat, quantity: int): int
    requires j < |es| && es[j].Place?
  {
    var e := es[j];
    SizedMargin(Run(w, es[..j]).db, e.request.key, e.request.action, quantity, e.reference, e.leverage)
  }

  /** Event j placed this request, and sized it at this margin. */
  predicate Sizes(w: World, es: seq<Event>, j: nat, request: Order, margin: int) {
    j < |es| && es[j].Place? && es[j].request == request && margin == SizedFor(w, es, j, request.quantity)
  }

  predicate TaskIsSized(w: World, es: seq<Event>, i: nat, t: Task) {
    (t.Sized? || t.Blocked?) ==> Sizes(w, es, SpawnedBy(w, es, i), t.request, t.margin)
  }

  /** The margin of the order is the one its placement sized for the quantity it then asked for. */
  predicate OrderIsSized(w: World, es: seq<Event>, id: OrderId, o: Order) {
    var j := PlacedBy(w, es, id);
    && j < |es| && es[j].Place?
    && o.key == es[j].request.key && o.action == es[j].request.action
    && o.margin == SizedFor(w, es, j, es[j].request.quantity)
  }

  /** And it is the margin of the quantity it asks for now. */
  predicate Covered(w: World, es: seq<Event>, id: OrderId, o: Order) {
    OrderIsSized(w, es, id, o) && o.margin == SizedFor(w, es, PlacedBy(w, es, id), o.quantity)
  }

  lemma SizesPush(w: World, es: seq<Event>, e: Event, j: nat, request: Order, margin: int)
    requires Sizes(w, es, j, request, margin)
    ensures Sizes(w, es + [e], j, request, margin)
  {
    assert (es + [e])[..j] == es[..j];
  }

  lemma OrderPush(w: World, es: seq<Event>, e: Event, id: OrderId, o: Order)
    requires id in Run(w, es).db.orders && OrderIsSized(w, es, id, o)
    ensures OrderIsSized(w, es + [e], id, o)
    ensures Covered(w, es, id, o) <==> Covered(w, es + [e], id, o)
    ensures PlacedBy(w, es + [e], id) == PlacedBy(w, es, id)
    ensures (es + [e])[PlacedBy(w, es, id)] == es[PlacedBy(w, es, id)]
    ensures forall x :: SizedFor(w, es + [e], PlacedBy(w, es, id), x) == SizedFor(w, es, PlacedBy(w, es, id), x)
  {
    assert (es + [e])[..|es|] == es;
    assert (es + [e])[..PlacedBy(w, es, id)] == es[..PlacedBy(w, es, id)];
  }

  lemma {:induction false} ReleasesAreNotSized(dues: seq<Due>)
    ensures forall t :: t in ReleaseTasks(dues) ==> !t.Sized? && !t.Blocked?
  {
    if dues != [] {
      ReleasesAreNotSized(dues[..|dues| - 1]);
    }
  }

  lemma {:induction false} TransfersAreNotSized(dues: seq<Due>)
    ensures forall t :: t in TransferTasks(dues) ==> !t.Sized? && !t.Blocked?
  {
    if dues != [] {
      TransfersAreNotSized(dues[..|dues| - 1]);
    }
  }

  /** A sized request keeps its margin until its order row is written. */
  lemma SizedTaskStep(w: World, e: Event, i: nat)
    requires i < |Do(w, e).tasks|
    ensures |w.tasks| <= |Do(w, e).tasks|
    ensures var t := Do(w, e).tasks[i];
            t.Sized? || t.Blocked? ==>
              if i < |w.tasks| then
                (w.tasks[i].Sized? || w.tasks[i].Blocked?) &&
                w.tasks[i].request == t.request && w.tasks[i].margin == t.margin
              else
                && e.Place? && e.request == t.request
                && t.margin == SizedMargin(w.db, t.request.key, t.request.action, t.request.quantity, e.reference,
                                           e.leverage)
  {
    match e
    case Sweep(exchanges, ids) => ReleasesAreNotSized(SweepTx(w.db, exchanges, ids).1);
    case Close(closes) => ReleasesAreNotSized(CloseTx(w.db, closes).1);
    case Settle(keys) => TransfersAreNotSized(SettleTx(w.db, keys).1);
    case _ =>
  }

  lemma {:induction false} TasksAreSized(w: World, es: seq<Event>, i: nat)
    requires w.tasks == []
    ensures i < |Run(w, es).tasks| ==> TaskIsSized(w, es, i, Run(w, es).tasks[i])
  {
    if es != [] && i < |Run(w, es).tasks| {
      var rest, e := es[..|es| - 1], es[|es| - 1];
      var t := Run(w, es).tasks[i];
      TasksAreSized(w, rest, i);
      SizedTaskStep(Run(w, rest), e, i);
      assert rest + [e] == es;
      if (t.Sized? || t.Blocked?) && i < |Run(w, rest).tasks| {
        SizesPush(w, rest, e, SpawnedBy(w, rest, i), t.request, t.margin);
      }
    }
  }

  predicate ModifiesIt(w: World, e: Event, id: OrderId) {
    e.Modify? && e.id == id && Cancellable(w.db, e.user, id)
  }

  /** The event sets the quantity of a pending order. */
  predicate Resizes(w: World, e: Event, id: OrderId) {
    ModifiesIt(w, e, id) && e.change.quantity.Some?
  }

  predicate ResizedIn(w: World, es: seq<Event>, id: OrderId) {
    es != [] && (ResizedIn(w, es[..|es| - 1], id) || Resizes(Run(w, es[..|es| - 1]), es[|es| - 1], id))
  }

  /** A fill leaves the order complete. */
  lemma TryFillCloses(w: World, i: nat, id: OrderId)
    requires id in w.db.orders && id in DoTryFill(w, i).db.orders && Pending(DoTryFill(w, i).db.orders[id])
    ensures DoTryFill(w, i).db.orders[id] == w.db.orders[id]
  {
  }

  lemma CancelCloses(w: World, u: UserId, oid: OrderId, id: OrderId)
    requires id in w.db.orders && Pending(DoCancel(w, u, oid).db.orders[id])
    ensures DoCancel(w, u, oid).db.orders[id] == w.db.orders[id]
  {
  }

  lemma ModifyOne(w: World, u: UserId, oid: OrderId, c: Change, id: OrderId)
    requires id in w.db.orders
    ensures DoModify(w, u, oid, c).db.orders[id] ==
            if oid == id && Cancellable(w.db, u, id) then Modified(w.db.orders[id], c) else w.db.orders[id]
  {
  }

  lemma CreateKeeps(w: World, i: nat, oid: OrderId, ltp: int, id: OrderId)
    requires id in w.db.orders
    ensures DoCreate(w, i, oid, ltp).db.orders[id] == w.db.orders[id]
  {
  }

  /** An order that stays pending changes only when its owner modifies it. */
  lemma PendingStep(w: World, e: Event, id: OrderId)
    requires id in w.db.orders && id in Do(w, e).db.orders && Pending(Do(w, e).db.orders[id])
    ensures Pending(w.db.orders[id])
    ensures Do(w, e).db.orders[id] ==
            if ModifiesIt(w, e, id) then Modified(w.db.orders[id], e.change) else w.db.orders[id]
  {
    if !Pending(w.db.orders[id]) {
      ClosedStepFrozen(w, e, id);
    }
    match e
    case Sweep(exchanges, ids) => SweepFreezes(w.db, exchanges, ids, id);
    case Close(closes) => CloseKeepsOrders(w.db, closes);
    case Settle(keys) => SettleKeepsOrders(w.db, keys);
    case TryFill(i) => TryFillCloses(w, i, id);
    case CreateStep(i, oid, ltp) => CreateKeeps(w, i, oid, ltp, id);
    case Reject(_, _) =>
    case Cancel(u, oid) => CancelCloses(w, u, oid, id);
    case Modify(u, oid, c) => ModifyOne(w, u, oid, c, id);
    case _ => OthersKeepOrders(w, e);
  }

  lemma ChangesAddNone(w: World, e: Event)
    requires e.TryFill? || e.Cancel? || e.Modify?
    ensures Do(w, e).db.orders.Keys == w.db.orders.Keys
  {
  }

  lemma CreatedFromBlocked(w: World, i: nat, oid: OrderId, ltp: int, id: OrderId)
    requires var c := DoCreate(w, i, oid, ltp).db; id !in w.db.orders && id in c.orders && Pending(c.orders[id])
    ensures TaskAt(w, i).Blocked?
    ensures var t := TaskAt(w, i);
            DoCreate(w, i, oid, ltp).db.orders[id] == NewOrder(t.request, t.margin, InitialStatus(t.request.pricetype))
  {
  }

  /** A new order row comes from a placement, and is pending only if its margin was blocked. */
  lemma NewPending(w: World, e: Event, id: OrderId)
    requires id !in w.db.orders && id in Do(w, e).db.orders && Pending(Do(w, e).db.orders[id])
    ensures e.CreateStep? && TaskAt(w, e.task).Blocked?
    ensures var t := TaskAt(w, e.task);
            Do(w, e).db.orders[id] == NewOrder(t.request, t.margin, InitialStatus(t.request.pricetype))
  {
    match e
    case Sweep(exchanges, ids) => SweepAddsNone(w.db, exchanges, ids);
    case Close(closes) => CloseKeepsOrders(w.db, closes);
    case Settle(keys) => SettleKeepsOrders(w.db, keys);
    case CreateStep(i, oid, ltp) => CreatedFromBlocked(w, i, oid, ltp, id);
    case Reject(_, _) =>
    case TryFill(_) => ChangesAddNone(w, e);
    case Cancel(_, _) => ChangesAddNone(w, e);
    case Modify(_, _, _) => ChangesAddNone(w, e);
    case _ => OthersKeepOrders(w, e);
  }

  /** Over every run: a pending order holds the margin its placement sized for the quantity it then asked
      for; and for the quantity it asks for now, unless that was modified. */
  lemma {:induction false} PendingIsSized(capital: int, initialised: bool, es: seq<Event>, id: OrderId)
    ensures var w := Start(capital, initialised);
            var b := Run(w, es).db;
            id in b.orders && Pending(b.orders[id]) ==>
              && OrderIsSized(w, es, id, b.orders[id])
              && (!ResizedIn(w, es, id) ==> Covered(w, es, id, b.orders[id]))
  {
    var w := Start(capital, initialised);
    var b := Run(w, es).db;
    if es != [] && id in b.orders && Pending(b.orders[id]) {
      var rest, e := es[..|es| - 1], es[|es| - 1];
      var v := Run(w, rest);
      assert rest + [e] == es;
      if id in v.db.orders {
        PendingStep(v, e, id);
        PendingIsSized(capital, initialised, rest, id);
        OrderPush(w, rest, e, id, v.db.orders[id]);
      } else {
        NewPending(v, e, id);
        TasksAreSized(w, rest, e.task);
        var t := TaskAt(v, e.task);
        SizesPush(w, rest, e, SpawnedBy(w, rest, e.task), t.request, t.margin);
      }
    }
  }

  /** Of all the steps that leave the order pending, its margin stops being that of its quantity exactly at
      a modification to a quantity that its placement would have sized differently. */
  lemma CoverIsLostWhen(capital: int, initialised: bool, es: seq<Event>, e: Event, id: OrderId)
    requires var w := Start(capital, initialised);
             var b, c := Run(w, es).db, Do(Run(w, es), e).db;
             && id in b.orders && id in c.orders && Pending(c.orders[id])
             && Covered(w, es, id, b.orders[id])
    ensures var w := Start(capital, initialised);
            var v := Run(w, es);
            var o, j := v.db.orders[id], PlacedBy(w, es, id);
            && Run(w, es + [e]) == Do(v, e)
            && (!Covered(w, es + [e], id, Do(v, e).db.orders[id]) <==>
                Resizes(v, e, id) && SizedFor(w, es, j, e.change.quantity.value) != o.margin)
  {
    var w := Start(capital, initialised);
    var v := Run(w, es);
    assert (es + [e])[..|es|] == es;
    PendingStep(v, e, id);
    OrderPush(w, es, e, id, v.db.orders[id]);
  }

  // ----- in terms of quantities -----

  /** One unit is worth a paisa of margin or more. */
  predicate UnitNeedsMargin(reference: int, leverage: Leverage) {
    if leverage.num <= 0 then reference >= TICKS_PER_PAISA
    else reference * leverage.den >= TICKS_PER_PAISA * leverage.num
  }

  /** More than a whole step apart never rounds to the same place. */
  lemma RoundsApart(a: int, b: int, d: int)
    requires d > 0 && a + d < b
    ensures RoundDiv(a, d) < RoundDiv(b, d)
  {
    var r, s := RoundDiv(a, d), RoundDiv(b, d);
    if s <= r {
      MulMono(d, s, r);
    }
  }

  lemma RoundStrict(u: int, d: int, x: int, y: int)
    requires u >= d > 0 && x < y
    ensures RoundDiv(u * x, d) < RoundDiv(u * y, d)
  {
    if u == d {
      RoundDivExact(x, d);
      RoundDivExact(y, d);
    } else {
      MulMono(u, x + 1, y);
      assert u * (x + 1) == u * x + u;
      RoundsApart(u * x, u * y, d);
    }
  }

  /** The margin as one rounding: what a unit is worth times the quantity, over the grid and the leverage. */
  lemma MarginOfUnits(reference: int, quantity: nat, leverage: Leverage)
    requires UnitNeedsMargin(reference, leverage)
    ensures var u := if leverage.num <= 0 then reference else reference * leverage.den;
            var d := if leverage.num <= 0 then TICKS_PER_PAISA else TICKS_PER_PAISA * leverage.num;
            && u >= d > 0 && reference > 0
            && RequiredMargin(reference, quantity, leverage) == RoundDiv(u * quantity, d)
  {
    if leverage.num > 0 && reference <= 0 {
      MulMono(leverage.den, reference, 0);
    }
    if quantity == 0 {
      RoundDivExact(0, if leverage.num <= 0 then TICKS_PER_PAISA else TICKS_PER_PAISA * leverage.num);
    }
    assert reference * quantity * leverage.den == reference * leverage.den * quantity;
  }

  /** Where a unit needs margin, more units need more. */
  lemma MarginIsStrict(reference: int, x: nat, y: nat, leverage: Leverage)
    requires UnitNeedsMargin(reference, leverage) && x < y
    ensures RequiredMargin(reference, x, leverage) < RequiredMargin(reference, y, leverage)
  {
    var u := if leverage.num <= 0 then reference else reference * leverage.den;
    var d := if leverage.num <= 0 then TICKS_PER_PAISA else TICKS_PER_PAISA * leverage.num;
    MarginOfUnits(reference, x, leverage);
    MarginOfUnits(reference, y, leverage);
    RoundStrict(u, d, x, y);
  }

  lemma SizedAlikeWhen(b: Books, k: PosKey, action: Action, x: int, y: int, reference: int, leverage: Leverage)
    requires UnitNeedsMargin(reference, leverage)
    ensures SizedMargin(b, k, action, x, reference, leverage) <= SizedMargin(b, k, action, y, reference, leverage) <==>
            Opening(PositionOf(b, k).net, action, x) <= Opening(PositionOf(b, k).net, action, y)
  {
    var net := PositionOf(b, k).net;
    var m, n := Opening(net, action, x), Opening(net, action, y);
    SizedIsOpening(b, k, action, x, reference, leverage);
    SizedIsOpening(b, k, action, y, reference, leverage);
    if m < n {
      MarginIsStrict(reference, m, n, leverage);
    } else if n < m {
      MarginIsStrict(reference, n, m, leverage);
    }
  }

  /** At a price where a unit needs margin: a modification leaves the order short exactly when more of it
      would open than its placement counted on, and with margin to spare exactly when less would. */
  lemma ResizedIsShortWhen(capital: int, initialised: bool, es: seq<Event>, e: Event, id: OrderId)
    requires var w := Start(capital, initialised);
             var b := Run(w, es).db;
             && id in b.orders && Covered(w, es, id, b.orders[id]) && Resizes(Run(w, es), e, id)
             && UnitNeedsMargin(es[PlacedBy(w, es, id)].reference, es[PlacedBy(w, es, id)].leverage)
    ensures var w := Start(capital, initialised);
            var o, j, more := Run(w, es).db.orders[id], PlacedBy(w, es, id), e.change.quantity.value;
            var net := PositionOf(Run(w, es[..j]).db, o.key).net;
            && (SizedFor(w, es, j, more) > o.margin <==>
                Opening(net, o.action, more) > Opening(net, o.action, o.quantity))
            && (SizedFor(w, es, j, more) < o.margin <==>
                Opening(net, o.action, more) < Opening(net, o.action, o.quantity))
  {
    var w := Start(capital, initialised);
    var o, j, more := Run(w, es).db.orders[id], PlacedBy(w, es, id), e.change.quantity.value;
    var b, p := Run(w, es[..j]).db, es[j];
    SizedAlikeWhen(b, o.key, o.action, more, o.quantity, p.reference, p.leverage);
    SizedAlikeWhen(b, o.key, o.action, o.quantity, more, p.reference, p.leverage);
  }

  /** The fill of a waiting copy, and its position update. */
  function TryAndApply(w: World, i: nat): World {
    Do(Do(w, TryFill(i)), ApplyStep(i))
  }

  /** What fills is the quantity the order asks for now, and what the row then holds is the margin it was
      placed with. */
  lemma FillOpensOnOldMargin(w: World, i: nat)
    requires Inv(w) && TaskAt(w, i).Attempt? && FillPrice(TaskAt(w, i).copy, TaskAt(w, i).ltp).Some?
    requires Cancellable(w.db, TaskAt(w, i).copy.key.user, TaskAt(w, i).id)
    requires w.db.orders[TaskAt(w, i).id].quantity > w.db.orders[TaskAt(w, i).id].filled
    requires PositionOf(w.db, TaskAt(w, i).copy.key).net == 0
    ensures var o := w.db.orders[TaskAt(w, i).id];
            var p := PositionOf(TryAndApply(w, i).db, o.key);
            p.net == Signed(o.action, o.quantity - o.filled) && p.margin == o.margin
  {
    var t := w.tasks[i];
    assert GoodTask(w.db, t);
    var o := w.db.orders[t.id];
    var v := Do(w, TryFill(i));
    assert v.db.positions == w.db.positions;
    assert TaskAt(v, i) == Filled(t.id, t.copy, o.quantity - o.filled, FillPrice(t.copy, t.ltp).value);
    assert GoodPosition(PositionOf(w.db, t.copy.key));
  }

  /** Place an order, raise its quantity at the same price, and let the market reach it. */
  function PlaceRaiseFill(w: World, request: Order, leverage: Leverage, id: OrderId, more: int, ltp: int): World {
    var placed := CreatedWorld(w, request, request.price, leverage, id, 0);
    var change := Parsed(Change(Some(more), Some(request.price), None, None));
    var raised := Do(placed, Modify(request.key.user, id, change));
    TryAndApply(Do(raised, Scan(id, ltp)), |w.tasks| + 1)
  }

  predicate FreshLimitBuy(b: Books, request: Order, leverage: Leverage, id: OrderId) {
    && id !in b.orders && request.action == BUY && request.pricetype == LIMIT && request.quantity > 0
    && UnitNeedsMargin(request.price, leverage)
    && PositionOf(b, request.key).net == 0
    && FundOf(b, request.key.user).available >=
       TICKS_PER_PAISA * RequiredMargin(request.price, request.quantity, leverage)
  }

  lemma PlacedAndRaised(b: Books, initialised: bool, request: Order, leverage: Leverage, id: OrderId, more: int)
    requires FreshLimitBuy(b, request, leverage, id) && more > 0
    ensures var placed := CreatedWorld(Quiet(b, initialised), request, request.price, leverage, id, 0);
            var change := Parsed(Change(Some(more), Some(request.price), None, None));
            var raised := Do(placed, Modify(request.key.user, id, change));
            var margin := RequiredMargin(request.price, request.quantity, leverage);
            && raised.tasks == [Idle] && raised.db.positions == b.positions
            && id in raised.db.orders
            && raised.db.orders[id] == NewOrder(request, margin, OPEN).(quantity := more, trigger := 0)
  {
    var w := Quiet(b, initialised);
    var margin := RequiredMargin(request.price, request.quantity, leverage);
    var w1 := Do(w, Place(request, request.price, leverage));
    assert w1.tasks == [Sized(request, margin)];
    var w2 := Do(w1, BlockStep(0));
    assert w2.tasks == [Blocked(request, margin)];
    var w3 := Do(w2, CreateStep(0, id, 0));
    assert w3.tasks == [Idle];
    var o := NewOrder(request, margin, OPEN);
    assert w3.db.orders[id] == o && w3.db.positions == b.positions;
    var change := Parsed(Change(Some(more), Some(request.price), None, None));
    assert Cancellable(w3.db, request.key.user, id);
    assert Modified(o, change) == o.(quantity := more, trigger := 0);
    assert Do(w3, Modify(request.key.user, id, change)).tasks == w3.tasks;
  }

  lemma WaitingFillOpens(w: World, i: nat, id: OrderId, copy: Order, quantity: int, price: int)
    requires i < |w.tasks| && w.tasks[i] == Filled(id, copy, quantity, price) && quantity > 0 && copy.action == BUY
    requires PositionOf(w.db, copy.key).net == 0 && PositionOf(w.db, copy.key).margin == 0
    ensures var p := PositionOf(Do(w, ApplyStep(i)).db, copy.key); p.net == quantity && p.margin == copy.margin
  {
  }

  /** So a row can open on less margin than its quantity needs: it holds the raised quantity, on the margin
      of the quantity that was placed. */
  lemma RaisedOrderOpensShort(b: Books, initialised: bool, request: Order, leverage: Leverage, id: OrderId,
                              more: int, ltp: int)
    requires FreshLimitBuy(b, request, leverage, id)
    requires more > request.quantity && 0 < ltp <= request.price
    requires GoodPosition(PositionOf(b, request.key))
    ensures var v := PlaceRaiseFill(Quiet(b, initialised), request, leverage, id, more, ltp);
            var p := PositionOf(v.db, request.key);
            && p.net == more
            && p.margin == RequiredMargin(request.price, request.quantity, leverage)
            && p.margin < RequiredMargin(request.price, more, leverage)
  {
    PlacedAndRaised(b, initialised, request, leverage, id, more);
    MarginIsStrict(request.price, request.quantity, more, leverage);
    var w := Quiet(b, initialised);
    var placed := CreatedWorld(w, request, request.price, leverage, id, 0);
    var change := Parsed(Change(Some(more), Some(request.price), None, None));
    var raised := Do(placed, Modify(request.key.user, id, change));
    var x := Do(raised, Scan(id, ltp));
    assert x.tasks == [Idle, Attempt(id, raised.db.orders[id], ltp)];
    var y := Do(x, TryFill(1));
    assert y.tasks[1] == Filled(id, raised.db.orders[id], more, request.price) && y.db.positions == b.positions;
    WaitingFillOpens(y, 1, id, raised.db.orders[id], more, request.price);
  }
}
