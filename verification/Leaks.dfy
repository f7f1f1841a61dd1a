/** When margin leaks, and what reconciliation can and cannot mend. */
module Leaks {
  import opened Rounding
  import opened Sums
  import opened Rows
  import opened Positions
  import opened Funds
  import opened Books
  import opened Ledger
  import opened LedgerProofs
  import opened Sequential

  predicate Placeable(w: World, request: Order, id: OrderId) {
    !request.action.OtherAction? && request.quantity > 0 && id !in w.db.orders
  }

  /** A fill drops its order's margin exactly when it only reduces or closes, or when it rolls back. */
  lemma DroppedWhen(w: World, i: nat)
    requires TaskAt(w, i).Filled? && TaskAt(w, i).quantity > 0
    ensures var t := TaskAt(w, i);
            var p := PositionOf(w.db, t.copy.key);
            Dropped(w, ApplyStep(i), t.copy.key.user) ==
            if p.net != 0 && (p.net > 0 <==> t.copy.action != BUY) then
              if t.quantity <= Abs(p.net) then t.copy.margin else 0
            else if p.net != 0 && !w.initialised then t.copy.margin else 0
  {
  }

  /** Of all the steps there are, these and no others make the leak of a user grow. */
  lemma LeakGrowsWhen(w: World, e: Event, u: UserId)
    requires Inv(w)
    ensures Leak(Do(w, e), u) >= Leak(w, u)
    ensures Leak(Do(w, e), u) > Leak(w, u) <==>
            && e.ApplyStep? && TaskAt(w, e.task).Filled?
            && var t := TaskAt(w, e.task);
               var p := PositionOf(w.db, t.copy.key);
               && t.copy.key.user == u && t.copy.margin > 0 && p.net != 0
               && (if p.net > 0 <==> t.copy.action != BUY then t.quantity <= Abs(p.net) else !w.initialised)
  {
    StepAccounts(w, e, u);
    if e.ApplyStep? && TaskAt(w, e.task).Filled? {
      assert GoodTask(w.db, w.tasks[e.task]);
      DroppedWhen(w, e.task);
    }
  }

  /** The sized margin is all placed when the order fills at the position it was sized against. */
  lemma SizedIsPlaced(b: Books, k: PosKey, action: Action, quantity: int, reference: int, leverage: Leverage)
    requires !action.OtherAction? && quantity > 0
    ensures var margin := SizedMargin(b, k, action, quantity, reference, leverage);
            Placed(PositionOf(b, k), action, quantity, margin) == margin
  {
  }

  /** The order a sequential placement fills, if it does. */
  function PlacedWorld(w: World, request: Order, reference: int, leverage: Leverage, id: OrderId, ltp: int): World {
    Do(CreatedWorld(w, request, reference, leverage, id, ltp), TryFill(|w.tasks|))
  }

  lemma PlacedTask(w: World, request: Order, reference: int, leverage: Leverage, id: OrderId, ltp: int)
    requires Placeable(w, request, id)
    ensures var v, t := PlacedWorld(w, request, reference, leverage, id, ltp),
            TaskAt(PlacedWorld(w, request, reference, leverage, id, ltp), |w.tasks|);
            && v.db.positions == w.db.positions && v.initialised == w.initialised
            && (t.Idle? || t.Filled?)
            && (t.Filled? ==>
                  && t.copy.key == request.key && t.copy.action == request.action
                  && t.quantity == request.quantity
                  && t.copy.margin ==
                     SizedMargin(w.db, request.key, request.action, request.quantity, reference, leverage))
  {
    CreatedTask(w, request, reference, leverage, id, ltp);
    var v := CreatedWorld(w, request, reference, leverage, id, ltp);
    var t := TaskAt(v, |w.tasks|);
    if t.Attempt? {
      assert v.db.orders[id].quantity - v.db.orders[id].filled == request.quantity;
    }
  }

  lemma CreatedTask(w: World, request: Order, reference: int, leverage: Leverage, id: OrderId, ltp: int)
    requires Placeable(w, request, id)
    ensures var v, i := CreatedWorld(w, request, reference, leverage, id, ltp), |w.tasks|;
            var margin := SizedMargin(w.db, request.key, request.action, request.quantity, reference, leverage);
            var o := NewOrder(request, margin, InitialStatus(request.pricetype));
            && |v.tasks| == i + 1
            && v.db.positions == w.db.positions && v.initialised == w.initialised
            && (v.tasks[i] == Idle || (v.tasks[i] == Attempt(id, o, ltp) && id in v.db.orders && v.db.orders[id] == o))
  {
    var i := |w.tasks|;
    var w1 := Do(w, Place(request, reference, leverage));
    assert w1.tasks[i].Sized?;
    var w2 := Do(w1, BlockStep(i));
    assert w2.tasks[i].Blocked? || w2.tasks[i].Refused?;
  }

  /** An order placed and filled with nothing in between leaks nothing, unless the fill rolls back. */
  lemma PlaceNowLeak(w: World, request: Order, reference: int, leverage: Leverage, id: OrderId, ltp: int, u: UserId)
    requires Inv(w) && Placeable(w, request, id)
    ensures Inv(PlaceNow(w, request, reference, leverage, id, ltp))
    ensures Leak(PlaceNow(w, request, reference, leverage, id, ltp), u) == Leak(w, u) +
            if !w.initialised && u == request.key.user
              && Raises(PositionOf(w.db, request.key), request.action, request.quantity)
               && TaskAt(PlacedWorld(w, request, reference, leverage, id, ltp), |w.tasks|).Filled?
            then SizedMargin(w.db, request.key, request.action, request.quantity, reference, leverage) else 0
  {
    var i := |w.tasks|;
    var w1 := Do(w, Place(request, reference, leverage));
    var w2 := Do(w1, BlockStep(i));
    var w3 := Do(w2, CreateStep(i, id, ltp));
    var w4 := Do(w3, TryFill(i));
    var w5 := Do(w4, ApplyStep(i));
    StepBoth(w, Place(request, reference, leverage), u);
    StepBoth(w1, BlockStep(i), u);
    StepBoth(w2, CreateStep(i, id, ltp), u);
    StepBoth(w3, TryFill(i), u);
    StepBoth(w4, ApplyStep(i), u);
    StepBoth(w5, ReleaseStep(i), u);
    PlacedTask(w, request, reference, leverage, id, ltp);
    SizedIsPlaced(w.db, request.key, request.action, request.quantity, reference, leverage);
    SamePosition(w, w4, request.key);
  }

  lemma SamePosition(w: World, v: World, k: PosKey)
    requires v.db.positions == w.db.positions
    ensures PositionOf(v.db, k) == PositionOf(w.db, k)
  {
  }

  lemma StepBoth(w: World, e: Event, u: UserId)
    requires Inv(w)
    ensures Inv(Do(w, e)) && Leak(Do(w, e), u) == Leak(w, u) + Dropped(w, e, u)
  {
    InvStep(w, e);
    StepAccounts(w, e, u);
  }

  // ----- reconciliation -----

  ghost function OpenMarginOf(u: UserId): (PosKey, Position) -> int {
    (k: PosKey, p: Position) => if k.user == u && p.net != 0 then p.margin else 0
  }

  /** Reconciliation sums open rows only; flat rows hold nothing, so nothing is missed. */
  lemma OpenRowsSuffice(b: Books, u: UserId)
    requires GoodBooks(b)
    ensures Total(b.positions, OpenMarginOf(u)) == PositionMargin(b, u)
  {
    SameWeights(b.positions, OpenMarginOf(u), PositionMarginOf(u));
  }

  lemma {:induction false} SameWeights(m: map<PosKey, Position>, f: (PosKey, Position) -> int,
    g: (PosKey, Position) -> int)
    requires forall k :: k in m ==> f(k, m[k]) == g(k, m[k])
    ensures Total(m, f) == Total(m, g)
    decreases |m|
  {
    if m != map[] {
      var k :| k in m;
      TotalRemove(m, f, k);
      TotalRemove(m, g, k);
      SameWeights(m - {k}, f, g);
    }
  }

  /** The admin call, as a transaction. */
  ghost function ReconcileTx(b: Books, u: UserId, autoFix: bool): Reconciled {
    Reconcile(FundOf(b, u), Total(b.positions, OpenMarginOf(u)), autoFix)
  }

  ghost function Reconciliation(w: World, u: UserId): World {
    w.(db := w.db.(funds := w.db.funds[u := ReconcileTx(w.db, u, true).fund]))
  }

  /** With auto-fix, used margin becomes the positions' margin and not a tick of cash is lost. It frees
      whatever is not on a position, so the ledger survives exactly when nothing was: no pending order
      holds margin and no continuation carries any. */
  lemma ReconcileRestores(w: World, u: UserId)
    requires Inv(w)
    ensures var v, r := Reconciliation(w, u), ReconcileTx(w.db, u, true);
            && r.consistent && r.discrepancy == 0
            && FundOf(v.db, u).used == PositionMargin(v.db, u)
            && FundOf(v.db, u).available + TICKS_PER_PAISA * FundOf(v.db, u).used ==
               FundOf(w.db, u).available + TICKS_PER_PAISA * FundOf(w.db, u).used
            && Leak(v, u) == -(PendingMargin(w.db, u) + Held(w, u))
            && (Inv(v) <==> PendingMargin(w.db, u) == 0 && Held(w, u) == 0)
  {
    OpenRowsSuffice(w.db, u);
    PendingMarginBounds(w.db, u);
    HeldBound(w, u);
    assert Leak(w, u) >= 0;
    var v := Reconciliation(w, u);
    assert v.db.orders == w.db.orders && v.db.positions == w.db.positions && v.tasks == w.tasks;
    forall x | x != u ensures Leak(v, x) == Leak(w, x) && Leak(w, x) >= 0 {}
    forall i | 0 <= i < |v.tasks| ensures GoodTask(v.db, v.tasks[i]) { assert GoodTask(w.db, w.tasks[i]); }
  }

  /** Without auto-fix, or when used margin falls short, nothing is written: the check only reports, and says
      consistent exactly when the two agree. */
  lemma ReconcileReports(b: Books, u: UserId, autoFix: bool)
    requires !autoFix || FundOf(b, u).used <= Total(b.positions, OpenMarginOf(u))
    ensures var r, gap := ReconcileTx(b, u, autoFix), FundOf(b, u).used - Total(b.positions, OpenMarginOf(u));
            r.fund == FundOf(b, u) && r.discrepancy == gap && (r.consistent <==> gap == 0)
  {
  }

  lemma HeldBound(w: World, u: UserId)
    requires GoodWorld(w)
    ensures Held(w, u) >= 0
  {
    forall t | t in w.tasks ensures HeldOf(u)(t) >= 0 { HeldNonNegative(w, t, u); }
    SeqTotalAtLeast(w.tasks, HeldOf(u), 0);
  }

  lemma CancelPays(w: World, u: UserId, id: OrderId)
    requires w.tasks == [] && Cancellable(w.db, u, id) && w.db.orders[id].margin > 0
    ensures FundOf(CancelNow(w, u, id).db, u).available ==
            FundOf(w.db, u).available + TICKS_PER_PAISA * w.db.orders[id].margin
  {
    assert Do(w, Cancel(u, id)).tasks == [Releasing(u, w.db.orders[id].margin, 0)];
  }

  lemma ReconcileFrees(w: World, u: UserId)
    requires Inv(w) && w.tasks == []
    ensures FundOf(Reconciliation(w, u).db, u).available >=
            FundOf(w.db, u).available + TICKS_PER_PAISA * PendingMargin(w.db, u)
  {
    OpenRowsSuffice(w.db, u);
    assert Leak(w, u) >= 0;
    PendingMarginBounds(w.db, u);
  }

  /** Reconciling while an order is pending frees its margin; cancelling it then frees the same margin a
      second time, and the account ends above its starting capital without a trade. */
  lemma ReconcileThenCancelMintsCash(b: Books, u: UserId, id: OrderId)
    requires GoodLedger(b)
    requires id in b.orders && b.orders[id].key.user == u && Pending(b.orders[id]) && b.orders[id].margin > 0
    ensures var c := CancelNow(Reconciliation(Quiet(b, true), u), u, id).db;
            FundOf(c, u).available >=
            FundOf(CancelNow(Quiet(b, true), u, id).db, u).available + TICKS_PER_PAISA * b.orders[id].margin
  {
    QuietInv(b, true);
    ReconcileFrees(Quiet(b, true), u);
    CancelPays(Quiet(b, true), u, id);
    CancelPays(Reconciliation(Quiet(b, true), u), u, id);
    TotalAtLeast(b.orders, PendingMarginOf(u), id);
  }
}
