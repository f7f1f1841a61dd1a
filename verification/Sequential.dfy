/** Whole actions with nothing in between: the schedules of a single-threaded caller. */
module Sequential {
  import opened Rounding
  import opened Sums
  import opened Rows
  import opened Positions
  import opened Funds
  import opened Books
  import opened Ledger
  import opened LedgerProofs

  /** A database with no continuation waiting. */
  function Quiet(b: Books, initialised: bool): World {
    World(b, initialised, [])
  }

  ghost predicate GoodLedger(b: Books) {
    GoodBooks(b) && forall u :: Leak(Quiet(b, true), u) >= 0
  }

  lemma QuietInv(b: Books, initialised: bool)
    requires GoodLedger(b)
    ensures Inv(Quiet(b, initialised))
  {
    forall u ensures Leak(Quiet(b, initialised), u) >= 0 { assert Leak(Quiet(b, true), u) >= 0; }
  }

  /** Try a copy, apply the fill, release: the engine's `_try_fill_order` from end to end. */
  function FillNow(w: World, i: nat): World {
    Do(Do(Do(w, TryFill(i)), ApplyStep(i)), ReleaseStep(i))
  }

  /** Size, block, create. */
  function CreatedWorld(w: World, request: Order, reference: int, leverage: Leverage, id: OrderId, ltp: int): World {
    var i := |w.tasks|;
    Do(Do(Do(w, Place(request, reference, leverage)), BlockStep(i)), CreateStep(i, id, ltp))
  }

  /** And try at once: `place_order` after its gates. */
  function PlaceNow(w: World, request: Order, reference: int, leverage: Leverage, id: OrderId, ltp: int): World {
    FillNow(CreatedWorld(w, request, reference, leverage, id, ltp), |w.tasks|)
  }

  function CancelNow(w: World, u: UserId, id: OrderId): World {
    Do(Do(w, Cancel(u, id)), ReleaseStep(|w.tasks|))
  }

  function PlaceEvents(i: nat, request: Order, reference: int, leverage: Leverage, id: OrderId, ltp: int): seq<Event> {
    [Place(request, reference, leverage), BlockStep(i), CreateStep(i, id, ltp), TryFill(i), ApplyStep(i),
      ReleaseStep(i)]
  }

  lemma RunPush(w: World, es: seq<Event>, e: Event)
    ensures Run(w, es + [e]) == Do(Run(w, es), e)
  {
    assert (es + [e])[..|es|] == es;
  }

  lemma RunThree(w: World, a: Event, b: Event, c: Event)
    ensures Run(w, [a, b, c]) == Do(Do(Do(w, a), b), c)
  {
    assert [] + [a] == [a] && [a] + [b] == [a, b] && [a, b] + [c] == [a, b, c];
    RunPush(w, [], a);
    RunPush(w, [a], b);
    RunPush(w, [a, b], c);
  }

  lemma {:induction false} RunConcat(w: World, es: seq<Event>, fs: seq<Event>)
    ensures Run(w, es + fs) == Run(Run(w, es), fs)
  {
    if fs == [] {
      assert es + fs == es;
    } else {
      var init := fs[..|fs| - 1];
      RunConcat(w, es, init);
      assert (es + fs)[..|es + fs| - 1] == es + init;
    }
  }

  /** The uninterrupted call is one of the ledger's runs. */
  lemma PlaceNowIsARun(w: World, request: Order, reference: int, leverage: Leverage, id: OrderId, ltp: int)
    ensures PlaceNow(w, request, reference, leverage, id, ltp) ==
            Run(w, PlaceEvents(|w.tasks|, request, reference, leverage, id, ltp))
  {
    var i := |w.tasks|;
    var first := [Place(request, reference, leverage), BlockStep(i), CreateStep(i, id, ltp)];
    var second := [TryFill(i), ApplyStep(i), ReleaseStep(i)];
    RunThree(w, first[0], first[1], first[2]);
    RunThree(Run(w, first), second[0], second[1], second[2]);
    RunConcat(w, first, second);
    assert first + second == PlaceEvents(i, request, reference, leverage, id, ltp);
  }
}
