# Sandbox trading ledger, verified

A Dafny model of the paper-trading ("sandbox") ledger in `backend/sandbox` and
`backend/services/sandbox_service.py`, with proofs about it, followed by six smaller algorithms of the
same backend: the max-pain strike, implied volatility by bisection, strike labels, option symbols,
the two "last N trading dates" filters, and the tick cache with its safety gate.

`dafny verify dfyconfig.toml` checks everything.

## What is modelled

**The ledger.** An order locks cash, waits, and then fills or is cancelled. A fill moves the order's
margin onto a position; reduces, closes and reversals release margin pro rata and book realized P&L;
square-off, catch-up and T+1 settlement rewrite the same rows. Every action is a chain of separate
database transactions, run by a tick thread, a poll thread, timers and request threads.

The model has three layers.

1. `Positions`, `Funds`, `Books`: the rows, and each transaction body as a function on the database.
2. `Ledger`: threads over one database. A continuation that still has to run waits in a list of tasks
   and any of them may go next, so `Run` ranges over every interleaving of placing, blocking, creating,
   trying, applying, releasing, cancelling, modifying, sweeping, closing, settling and marking. Amounts
   that have left one row and not reached the next (`Held`, `Unbooked`) are read off the waiting tasks.
   `Sequential` and `Placement` are the schedules with nothing in between.
3. `SandboxService.Sandbox` and the methods of `Squareoff`, `OverdueRows`, `OrderServices`, `Engine`,
   `Modifying` and `Reconciling`: the services as they run, updating tables in place. Each method states
   the database it leaves as a function of layers 1 and 2, and its loops carry the invariants for that.

The main results: used margin is explained to the paisa in every reachable state, with an exact account
of what leaks; money is conserved up to what went into holdings, and the day's
P&L of a fund is that of its rows; no `max(0, …)` clamp ever matters; the
realized P&L of a row is its cash flow less its cost basis, within a bound that counts only the rounding
of average prices, and its total is explained over every history of fills, marks and closes; square-off ends with nothing pending and nothing open; an order leaves the pending
bucket once; batched catch-up is the same as one row at a time; settlement keeps shares, cost and cash.

**Numbers.** Prices, cash and P&L are integers in ticks of 1e-4 INR, margins integers in paise, the
grids the code rounds to; `round` is round-half-to-even on these grids. Rounding is modelled where it
matters: a new average price, a pro-rata margin, a required margin, a merged holding average, the day's
values. Python's binary floating point is taken as exact decimal arithmetic on these grids. The strategy
page, the volatility search and the settlement prices of max pain use real numbers.

**Atomic steps.** Each `session_scope` body is one atomic, serialisable step. That is an assumption about
the database, not something proved here.

**Inputs.** The symbol master, last prices, leverage settings, cut-off times and the clock are parameters
of a call (`Validation.Env`). A last price is absent or positive. Order ids are fresh when created. Which
rows count as stale or expired is a parameter, since the mark-to-market pass also touches `updated_at`.

## Where the code and its description part

- `apply_fill` assigns `remaining` only when the fill works against the position
  (`backend/sandbox/position_manager.py:153`) but reads it after the row is written
  (`backend/sandbox/position_manager.py:223`). A fill that adds to a row already open raises there, and
  its transaction rolls back while the order stays complete. The flag `initialised` says whether
  `remaining` starts at 0, as the module's description needs; `initialised == false` is the code as it
  stands. The ledger theorems hold for both. `ShippedFillCommits` says exactly which fills survive, and
  `DroppedWhen`, `LeakGrowsWhen` count the margin a rollback strands. `PnlIdentity` and `MarginConserved`
  speak of the fills that commit.
- Margin is sized when an order is placed. An order that later fills on the reduce or close branch loses
  it: `LeakGrowsWhen` says that these fills, with the rollbacks above, are the only steps that leak.
- Reconciliation looks at positions only. With a pending order it frees that order's margin, and the
  later cancel frees it again: `ReconcileRestores` gives the exact condition, `ReconcileThenCancelMintsCash`
  the consequence.
- The tick validator compares with `<= 0`, which a NaN passes: `TickKeepsPositive` gives the exact
  condition, `NanIsServed` the input.
- A ticker with digits in it, such as 360ONE, can hide the expiry in its option symbols from
  `parse_expiry_from_symbol`, and any base that is not letters only is not recovered by
  `parse_option_symbol`: `ExpiryReads`, `OptionReads` and `UnderlyingReads` give exact conditions.
- The strategy page reads order rows (`backend/strategy/engine.py:1805-1848`), which stay complete when a
  fill rolls back; the position row also keeps its unrealized figure when a fill closes it, and marking then
  skips it. `RowHistory` replays all that happens to a row, fills, marks and closes, and `LedgerRows` shows
  that every row of every reachable state is the end of such a history. The row's total is its cash flow plus
  what it holds at the last price, and for a flat row whatever the last mark left
  (`RowTotalIsCashPlusMarket`); without that last part exactly when the row is open or the mark left nothing
  (`TotalIsCashExactly`). A round trip marked in between is enough: `MarkedRoundTripKeepsItsMark`. The daily
  snapshot sums these totals.
- So, as documented, page and sandbox agree on total P&L up to the rounding of averages once what flat rows
  have left over is taken off (`BooksAgree`). As it stands they differ by exactly what the two do not share,
  rolled-back fills on one side and closes outside the order path on the other, less that left-over
  (`BooksDifferByWhatIsUnshared`), and are equal if and only if these balance (`ShippedBooksAgreeExactly`); two
  buys in a row are enough (`SecondBuyIsOnlyOnThePage`). Only totals are compared: `SplitsDiffer` says when a
  round trip followed by a second opening is split alike, `FlatBooksAgree` that the realized figures of flat
  books are.
- Modifying a pending order leaves its margin as it was. Until then a pending order holds the margin its
  placement sized for its quantity (`PendingIsSized`); `CoverIsLostWhen` gives the exact step that ends that,
  `ResizedIsShortWhen` the quantities, `RaisedOrderOpensShort` the position that opens on too little.
- The service turns an absent price or trigger of a modification into zero, which is then written:
  `LeftOutIsKeptWhen` says when that does no harm, `QuantityOnlyZeroesThePrice` that a limit sell whose
  quantity alone is changed trades at zero.
- Max pain rounds each strike's pain to paise before comparing. Whatever the open interest, the strike it
  reports is the best at every real settlement price if and only if distinct strikes are at least a paisa
  apart and, where two are exactly a paisa apart, all differences are multiples of four ticks
  (`BestExactlyWhenApart`); strikes in whole paise are so (`WholePaiseIsApart`). In any case it is the best to
  within a paisa.

## Model

| member | source | states |
|---|---|---|
| Rounding.RoundDiv | backend/sandbox/position_manager.py:134-159 | the rounded value is within half a grid step, and an exact tie goes to the even neighbour |
| Rounding.RoundDivUnique | backend/sandbox/position_manager.py:134-159 | those two properties leave one answer only |
| Rounding.RoundShare | backend/sandbox/position_manager.py:156-161 | a pro-rata share of a margin, however rounded, never exceeds the margin |
| Positions.FillMargin | backend/sandbox/position_manager.py:130-189 | margin before plus margin placed equals margin after plus margin released, exactly, on all four branches; nothing goes negative and a flat row has no average and no margin |
| Positions.FillRelease | backend/sandbox/position_manager.py:156-184 | a reduce releases its share to half a paisa and keeps the average; a close or reversal releases everything; a reversal restarts at the fill price with the order's margin |
| Positions.FillUnexplained | backend/sandbox/position_manager.py:130-189 | realized P&L plus cash paid less the change in cost basis is zero on an offsetting fill and at most half a tick per unit held on an accumulating one |
| Positions.PnlIdentity | backend/sandbox/position_manager.py:130-189 | over any sequence of fills, realized plus net cash paid is the cost basis held, within half a tick times the quantities held after accumulating fills, and exactly when the averages are exact |
| Positions.MarginConserved | backend/sandbox/position_manager.py:136-184 | over any sequence of fills, margin placed equals margin on the row plus margin released; from flat to flat the two are equal to the paisa |
| Positions.ShippedFillCommits | backend/sandbox/position_manager.py:153-223 | the code as it stands gives the documented outcome if and only if the fill opens a row or works against it |
| Positions.ShippedFillLosesAnAdd | backend/sandbox/position_manager.py:130-223 | a concrete add to an open row that is lost |
| RowHistory.RowIsItsFlow | backend/sandbox/position_manager.py:111-289 | through any history of fills, marks and closes a row has the quantity, average and realized P&L of the documented replay of the fills that commit and the closes: marks leave no trace there |
| RowHistory.RestIsUnshared | backend/sandbox/position_manager.py:111-241 | the orders' quantity and cash are the row's, plus those of the fills that rolled back, less those of the closes outside the order path |
| RowHistory.HistoryPnlIdentity | backend/sandbox/position_manager.py:130-223 | over any history realized plus net cash paid is the cost basis held: within the rounding bound, exactly when the averages are exact, and always exactly as the code stands, since an open row is never added to |
| RowHistory.UnrealizedIsLastMark | backend/sandbox/mtm_updater.py:74-90 | the unrealized figure is the worth of the last mark that found the row open, however many fills came after, unless a close outside the order path cleared it |
| RowHistory.ShownIsTotal | backend/sandbox/pnl_snapshot.py:64-72 | the `pnl` column that the snapshot sums is realized plus unrealized through any history |
| RowHistory.RowTotalIsCashPlusMarket | backend/sandbox/position_manager.py:130-289 | a row's realized plus unrealized, marked once more, is its money in less money out plus its net at that price, plus the last mark if the row is flat: within the rounding bound as documented, exactly as the code stands |
| RowHistory.TotalIsCashExactly | backend/sandbox/position_manager.py:164-289 | with exact averages, so always as the code stands, that total is cash plus market if and only if the row is open or no unrealized figure was left before the close |
| LedgerRows.RowIsItsHistory | backend/sandbox/execution_engine.py:92-147 | under every interleaving a row is the end of its own history of fills, marks and closes since it was last delivered |
| LedgerRows.ReachableRowTotal | backend/sandbox/pnl_snapshot.py:64-72 | so in every reachable state a row's `pnl` column, marked once more, is explained by its cash flow, what it holds, and what a flat row has left over |
| Positions.DayQuantities | backend/sandbox/position_manager.py:191-203 | the day's quantities are what was bought and sold, their difference is the change of the position, and the `pnl` column is realized plus unrealized |
| Positions.DayValues | backend/sandbox/position_manager.py:194-199 | each of the day's values is that side's turnover to half a paisa a fill |
| StrategyPnl.AggregateOrders | backend/routers/strategy_module.py:776-806 | the dict gets a row exactly for the instruments with a usable order, holding that instrument's totals |
| StrategyPnl.OneOrderCounts | backend/routers/strategy_module.py:777-801 | a complete order counts by its filled quantity, or its whole quantity when none is recorded, at its fill price, and not at all without one |
| StrategyPnl.UnpricedTotal | backend/routers/strategy_module.py:894-906 | without a last price the open remainder counts for nothing |
| StrategyPnl.TotalIsCashPlusMarket | backend/routers/strategy_module.py:882-906 | matched-quantity realized plus unrealized is money in less money out plus the net at the last price, exactly |
| StrategyPnl.BooksDifferByWhatIsUnshared | backend/strategy/engine.py:1805-1848 | over any history, documented or as it stands, the page's total is the row's total, less what a flat row has left over, plus what orders and row do not share at the last price: within the rounding bound, and exactly as the code stands |
| StrategyPnl.ShippedBooksAgreeExactly | backend/routers/strategy_module.py:777-906 | as the code stands, over any history of fills, marks and closes, the two totals are equal if and only if what is unshared is worth what a flat row has left over |
| StrategyPnl.RolledBackFillIsOnlyOnThePage | backend/sandbox/position_manager.py:153-241 | after any history, a fill that rolls back leaves the row's total alone and moves the page's by its whole gain at the last price |
| StrategyPnl.SecondBuyIsOnlyOnThePage | backend/sandbox/position_manager.py:130-223 | two buys in a row: the page is over by the whole gain of the second buy |
| StrategyPnl.SecondBuyIsBeyondRounding | backend/sandbox/position_manager.py:134-149 | that gain is beyond what rounding would allow the documented fill if and only if it is two ticks a unit or more |
| StrategyPnl.MarkedRoundTripKeepsItsMark | backend/sandbox/position_manager.py:164-289 | buy, mark, sell all: nothing rolls back, the page shows the gain, the row the gain and the mark, and no later mark mends it; equal if and only if the mark was at cost |
| StrategyPnl.BooksAgree | backend/routers/strategy_module.py:777-906 | as documented, with `remaining` initialised and every close an order, the page and the row, less what a flat row has left over, agree on the total within the rounding bound, and exactly when averages are exact |
| StrategyPnl.FlatBooksAgree | backend/routers/strategy_module.py:890-898 | when the page is flat and nothing net is unshared, the two realized figures agree, less the cash that is unshared, within the rounding bound, whatever marks came between |
| StrategyPnl.SplitsDiffer | backend/routers/strategy_module.py:890-891 | open, close, open again: both realized figures in closed form, equal if and only if the two openings cost the same |
| Funds.RequiredMarginNonNegative | backend/sandbox/fund_manager.py:99-131 | a required margin is never negative, whatever the price, quantity or leverage setting |
| Funds.RequiredMarginIsValue | backend/sandbox/fund_manager.py:99-131 | a required margin is price times quantity over leverage to half a paisa, never less for a bigger order, and the whole value for a leverage of zero or less |
| Books.SweepTotals | backend/sandbox/squareoff.py:48-67 | what the sweep's dict owes a user is exactly the pending margin it took off that user's orders |
| Books.CloseTotals | backend/sandbox/catch_up.py:80-102 | what the closing pass owes a user is exactly the margin it took off, and the P&L it booked on, that user's rows |
| Books.SettleTotals | backend/sandbox/t1_settle.py:73-130 | what settlement moves for a user is exactly the margin of that user's deleted rows, and the realized P&L that leaves the table is the sum over those rows |
| Ledger.SizedMarginNonNegative | backend/services/sandbox_service.py:159-191 | the position-aware margin an order must lock is never negative |
| LedgerProofs.StepAccounts | backend/sandbox/execution_engine.py:111-140 | whichever step runs: the leak grows by what the step drops, equity falls by what it moves to holdings, and the gap between booked and row P&L grows by what it retires |
| LedgerProofs.InvStep | backend/sandbox/execution_engine.py:92-147 | every step keeps the ledger invariant |
| LedgerProofs.RunAccounts | backend/sandbox/execution_engine.py:92-147 | the three accounts over any run from any good state |
| LedgerProofs.UsedMarginExplained | backend/sandbox/fund_manager.py:134-184 | under every interleaving, used margin is pending-order margins plus position margins plus in-flight amounts plus the margin dropped by fills, which is never negative |
| LedgerProofs.MoneyConserved | backend/sandbox/fund_manager.py:150-184 | under every interleaving, available plus used is starting capital plus booked P&L less margin moved to holdings; booked P&L with what is on its way is the rows' P&L plus the sum over the rows settlement deleted |
| TodayAccount.TodayStep | backend/sandbox/fund_manager.py:150-171 | whichever step runs, the fund's day and its rows' days part only by the rows a settlement deletes |
| TodayAccount.TodayIsBooked | backend/sandbox/position_manager.py:186-189 | under every interleaving, the fund's realized P&L of the day, with what releases still carry, is the sum of its rows' days and of the rows settlement deleted; P&L booked by catch-up is in neither |
| TodayAccount.ResetLeavesCarried | backend/sandbox/daily_reset.py:46-62 | after the daily reset the two days differ by exactly what a waiting release carries |
| TodayAccount.CapitalConserved | backend/sandbox/fund_manager.py:134-184 | under every interleaving, available plus used is the configured capital plus booked P&L less what went into holdings |
| LedgerProofs.ClampsNeverFire | backend/sandbox/fund_manager.py:150-184 | in every reachable state, the next release or transfer is covered by used margin, so its clamp changes nothing |
| OrderLife.ClosedIsForGood | backend/sandbox/order_manager.py:165-290 | complete, cancelled and rejected are absorbing: no column of such an order changes again in any run |
| OrderLife.LeavesAtMostOnce | backend/sandbox/order_manager.py:196-290 | over any run an order leaves the pending bucket at most once |
| OrderLife.OrderLifeOverRuns | backend/sandbox/order_manager.py:165-290 | from an empty book: out of the bucket at most once, by a fill with one trade for the whole quantity or by a cancel with none, and so it stays |
| OrderLife.SecondAttemptFindsItClosed | backend/sandbox/order_manager.py:231-290 | of two threads holding a pending copy of one order, the second changes nothing |
| Sequential.PlaceNowIsARun | backend/services/sandbox_service.py:159-219 | the uninterrupted `place_order` is one of the ledger's runs |
| Leaks.DroppedWhen | backend/sandbox/position_manager.py:164-184 | exactly which fills drop the order's margin, and how much |
| Leaks.LeakGrowsWhen | backend/sandbox/position_manager.py:164-184 | of all steps, a user's leak grows if and only if a fill with margin lands on the reduce or close branch, or rolls back |
| Leaks.SizedIsPlaced | backend/services/sandbox_service.py:159-191 | an order filled at the position it was sized against puts all its margin on the position |
| Leaks.PlaceNowLeak | backend/services/sandbox_service.py:159-219 | placing and filling with nothing in between keeps every user's leak, unless the fill rolls back, and then by exactly the sized margin |
| Leaks.OpenRowsSuffice | backend/sandbox/fund_manager.py:262-276 | summing open rows only misses nothing |
| Leaks.ReconcileRestores | backend/sandbox/fund_manager.py:243-295 | auto-fix makes used margin the positions' margin and keeps available plus used; the ledger survives if and only if no pending order and no in-flight amount held margin |
| Leaks.ReconcileReports | backend/sandbox/fund_manager.py:278-295 | without auto-fix, or with nothing to free, the check writes nothing and says consistent if and only if the two agree |
| Leaks.ReconcileThenCancelMintsCash | backend/sandbox/fund_manager.py:284-288 | reconciling under a pending order and then cancelling it leaves more cash than cancelling alone, by at least that order's margin |
| Modifying.ModifyFromRequest | backend/services/sandbox_service.py:224-239 | the parsed request refines the modify transaction; found exactly when the order is the user's and pending |
| Modifying.LeftOutIsKeptWhen | backend/services/sandbox_service.py:229-236 | what a request leaves out keeps its value if and only if that was zero already |
| Modifying.QuantityOnlyZeroesThePrice | backend/sandbox/execution_engine.py:57-63 | a limit order whose quantity alone is modified: a sell trades at zero at the next try whatever the price, a buy does not trade |
| Modifying.PendingIsSized | backend/services/sandbox_service.py:159-211 | over every run from an empty book a pending order holds the margin its own placement sized for the quantity it asked for then, and, unless its quantity was modified, for the quantity it asks for now |
| Modifying.CoverIsLostWhen | backend/sandbox/order_manager.py:165-193 | of all steps that leave an order pending, its margin stops being that of its quantity if and only if the step modifies it to a quantity its placement would have sized differently |
| Modifying.ResizedIsShortWhen | backend/services/sandbox_service.py:159-183 | where a unit is worth a paisa of margin, such an order is short if and only if more of it would open than its placement counted on, and over-covered if and only if less would |
| Modifying.FillOpensOnOldMargin | backend/sandbox/execution_engine.py:92-147 | on a flat row a fill takes the quantity the order asks for now and the margin it was placed with |
| Modifying.RaisedOrderOpensShort | backend/sandbox/order_manager.py:179-186 | place, raise the quantity, fill: the row holds the raised quantity on the margin of the placed one, which is less than it needs |
| Reconciling.ReconcileMargin | backend/sandbox/fund_manager.py:243-295 | the in-place check leaves the fund row, the verdict and the discrepancy of that transaction, and nothing else changed |
| Reconciling.PositionTotal | backend/sandbox/fund_manager.py:274-276 | the loop's sum is the total over the user's open rows |
| Validation.CutoffBlocksEntriesOnly | backend/sandbox/order_validation.py:229-235 | after the cut-off an intraday order passes if and only if it passes every other gate and works against an open position |
| Validation.PassesExactly | backend/sandbox/order_validation.py:150-237 | the ladder of gates passes exactly for a known symbol in whole lots at quotable prices on a compatible exchange, within the settled holding and the long delivery row for a delivery sale, and against the open position after the cut-off; delivery only on NSE and BSE, carry-forward only off them |
| Validation.AfterSquareoffMeans | backend/sandbox/order_validation.py:131-147 | on the clock's face the block runs from the cut-off round to nine in the morning; a cut-off at nine sharp blocks the whole day |
| Validation.LeverageTable | backend/sandbox/config.py:72-111 | options take a leverage by side, futures one, shares one by product, all else one by product; none configured is none taken |
| Reversal.IntradayReversible | backend/sandbox/squareoff.py:142-159 | the reverse order of an intraday row passes, at any hour, if and only if its symbol is known, it is in whole lots and a price is known |
| Reversal.DeliveryReversible | backend/sandbox/order_validation.py:219-227 | a long delivery row can be sold whenever its symbol and a price are known: what is owned includes the row |
| Reversal.ReversedRowIsFlat | backend/sandbox/position_manager.py:145-189 | the reversed row is flat, all its margin is released and the gain is on the whole quantity |
| Reversal.ReverseGoesThrough | backend/services/sandbox_service.py:159-219 | sized to nothing, blocked as nothing, filled at once at the last price, closed and released: the whole database afterwards |
| SandboxService.Sandbox.constructor | backend/sandbox/fund_manager.py:83-96 | a fresh sandbox is the start of the ledger's runs |
| SandboxService.Sandbox.EnsureFundRow | backend/sandbox/fund_manager.py:83-96 | a missing fund row starts with the configured capital, an existing one is returned as it is |
| SandboxService.Sandbox.BlockMargin | backend/sandbox/fund_manager.py:134-147 | refines the block transaction, refusal included |
| SandboxService.Sandbox.ReleaseMargin | backend/sandbox/fund_manager.py:150-168 | refines the release transaction; the P&L joins the day's bucket too, which `TodayIsBooked` accounts for |
| SandboxService.Sandbox.TransferMarginToHoldings | backend/sandbox/fund_manager.py:171-184 | refines the transfer transaction |
| SandboxService.Sandbox.BookEarlierPnl | backend/sandbox/catch_up.py:117-120 | refines the booking that leaves the day's bucket alone |
| SandboxService.Sandbox.ApplyFill | backend/sandbox/position_manager.py:91-241 | refines the fill transaction, including the rollback when `remaining` has no value |
| SandboxService.Sandbox.AddToRow | backend/sandbox/position_manager.py:130-139 | the accumulate branch on the row |
| SandboxService.Sandbox.OffsetRow | backend/sandbox/position_manager.py:144-189 | the reduce, close and reversal branches on the row, with the P&L and the margin due |
| SandboxService.Sandbox.MarkPosition | backend/sandbox/position_manager.py:266-289 | refines mark-to-market; flat rows and missing prices change nothing |
| SandboxService.Sandbox.CreateOrder | backend/sandbox/order_manager.py:46-85 | a new row under a fresh id with nothing filled |
| SandboxService.Sandbox.CancelOrder | backend/sandbox/order_manager.py:196-211 | refines the cancel transaction; an order not found, not the user's or not pending is refused and nothing changes |
| SandboxService.Sandbox.ModifyOrder | backend/sandbox/order_manager.py:165-193 | writes exactly the columns given, on a pending order of the user; refines the modify transaction, with its refusals |
| SandboxService.Sandbox.FillOrder | backend/sandbox/order_manager.py:231-290 | refines the fill of an order row and its trade, with the same refusals |
| SandboxService.Sandbox.TryFillOrder | backend/sandbox/execution_engine.py:92-147 | fill, apply and release in turn; it raises only in the code as it stands, on a fill that adds to an open row |
| Placement.TriedIsFillNow | backend/sandbox/execution_engine.py:92-147 | that chain is the ledger's uninterrupted fill |
| Placement.PlacementHolds | backend/services/sandbox_service.py:109-219 | a placement is rejected if and only if a gate refuses it, a market or SL-M order finds no quote, or cash does not reach; otherwise the order holds the worth of its opening part over its leverage to half a paisa, at the quote for market and SL-M and at its own price for limit and SL, and the fund has moved exactly that; a fill on a flat row opens it at that price on that margin, a close or reversal returns the row's margin with the gain |
| Placement.SizedIsOpening | backend/services/sandbox_service.py:151-183 | what is sized is the part of the order beyond what it takes off the position |
| SandboxService.Sandbox.PlaceOrder | backend/services/sandbox_service.py:53-221 | the gates, the reference price and the rest: refines the ledger's uninterrupted placement, and does to fund, row and order what `PlacementHolds` says, in terms of the order's own price or the quoted one; rejected exactly when the row says so, and raises only on an add as the code stands |
| SandboxService.Sandbox.PlaceSized | backend/services/sandbox_service.py:159-219 | sizing, blocking, creating and the immediate try refine the ledger's schedule; it raises only on an add as the code stands |
| SandboxService.Sandbox.CreateSized | backend/services/sandbox_service.py:159-211 | blocks the sized margin and records the order, or records the rejection when cash does not reach |
| Placement.CreatedThen | backend/services/sandbox_service.py:159-211 | those are the first three steps of the ledger's placement |
| SandboxService.Sandbox.SizeMargin | backend/services/sandbox_service.py:159-183 | the branchy sizing code computes the position-aware margin |
| SandboxService.Sandbox.CancelOrderAndRelease | backend/services/sandbox_service.py:242-249 | cancel then release refines the ledger's uninterrupted cancel |
| Engine.FillPriceIsFair | backend/sandbox/execution_engine.py:43-89 | an order fills if and only if its limit and trigger conditions hold; never through its limit, at the last price when it has none |
| Engine.OnTick | backend/sandbox/execution_engine.py:152-169 | a tick fills exactly the pending orders on its instrument whose condition it meets, once and in whole, and changes no other order; the whole database is what trying them in turn leaves; the ledger stays good and every user's equity is kept; only a fill that raises ends the pass early |
| Engine.TryKeepsLedger | backend/sandbox/execution_engine.py:92-147 | one try keeps the ledger good and every user's equity |
| Squareoff.Enumerate | backend/sandbox/squareoff.py:49-59 | a query lists each selected row once, in an order nothing depends on |
| Squareoff.CancelPendingMisOrders | backend/sandbox/squareoff.py:37-83 | cancels exactly the pending intraday orders of the exchanges and releases each user's margin |
| Squareoff.ReverseRow | backend/sandbox/squareoff.py:142-176 | one reverse order: the row is closed if its order passes, and otherwise only a rejected order is recorded |
| Squareoff.ReverseRows | backend/sandbox/squareoff.py:141-177 | the loop closes every listed row that can be closed, touches no other row, records one new order for each, and counts the accepted ones |
| Squareoff.EachExchangeHasItsBucket | backend/sandbox/squareoff.py:28-34 | NSE, NFO, BSE and BFO, then CDS and BCD, then MCX: each of the seven is in its one bucket and no other exchange is in any |
| Squareoff.SquareoffBucket | backend/sandbox/squareoff.py:118-177 | end to end, by the exchanges' names: no pending intraday order is left in the bucket, every closable row is flat and released with its gain at the quote, no other position or holding changes, an unknown bucket changes nothing, nothing leaks and equity is kept |
| Squareoff.RowOverBuckets | backend/sandbox/squareoff.py:118-177 | whatever buckets run, in whatever order, a row is flat and released if one of them reaches it and as it was otherwise |
| Squareoff.ThreeBucketsCloseTheDay | backend/sandbox/squareoff.py:28-34 | once all three have run, in any order, no intraday row of the seven exchanges that could be closed is open, and rows of other products and exchanges are as they were |
| Squareoff.ReverseListed | backend/services/sandbox_service.py:265-286 | every open row of the user whose reverse order passes is closed, no other row changes, equity is kept; the list names one new order for each open row, rejected ones too |
| Batches.CatchUpFunds | backend/sandbox/catch_up.py:80-122 | each user is paid exactly the margin that left the rows and the P&L they booked; the day's bucket is untouched |
| Batches.BatchIsOneByOne | backend/sandbox/catch_up.py:80-122 | batched or one row at a time, the same rows and the same funds |
| Batches.ClosePointwise | backend/sandbox/catch_up.py:182-231 | a selected open row is closed at its price, every other row is untouched |
| Batches.CloseRowIsFlat | backend/sandbox/catch_up.py:82-95 | a closed row is flat with no margin, its gain is booked, its day bucket is not |
| Batches.SecondCatchUpIsIdle | backend/sandbox/catch_up.py:80-122 | a second pass over the same rows closes and pays nothing |
| Batches.SettleAllFunds | backend/sandbox/t1_settle.py:60-138 | used margin falls by exactly the delivered rows' margin; cash and P&L do not move |
| Batches.MergeKeepsCost | backend/sandbox/t1_settle.py:100-113 | a merge adds the quantities, its cost is within half a tick per share, its last price is the row's or else the row's average, and its P&L is the gain at that price to half a paisa |
| Batches.SettlementKeepsShares | backend/sandbox/t1_settle.py:60-130 | held plus long delivery quantity per user and instrument is unchanged, and cost within half a tick per share of the merged holding |
| OverdueRows.CloseListed | backend/sandbox/catch_up.py:80-122 | the loop over rows, its per-user dict and the payments refine the catch-up transaction |
| OverdueRows.CloseStaleIntraday | backend/sandbox/catch_up.py:55-126 | every overdue intraday row is closed, no other row changes, users are paid exactly, none is left: the gain runs to the quoted price, and is nothing without one; the day's bucket is untouched |
| OverdueRows.CloseExpired | backend/sandbox/catch_up.py:147-247 | expired intraday and carried contracts of the five derivative exchanges are flat and released, no other row changes: an option has lost its whole cost, a future has gained up to its row's last price, or up to the quote where the row has none, or nothing where there is neither |
| OverdueRows.MergeRow | backend/sandbox/t1_settle.py:82-115 | the merge of a delivered row into a holding |
| OverdueRows.DeliverRows | backend/sandbox/t1_settle.py:73-138 | the settlement loop, its dict and the transfers refine the settlement transaction |
| OverdueRows.SettleCncToHoldings | backend/sandbox/t1_settle.py:35-142 | exactly the due long delivery rows leave the position book; shares, cost and cash are kept and used margin falls by their margin |
| OrderServices.CancelAllOrders | backend/services/sandbox_service.py:252-260 | none of the user's orders stays pending, every other order is as it was, used margin falls by exactly the pending margin, equity is kept |
| OrderServices.CloseAllPositions | backend/services/sandbox_service.py:263-287 | the listing settles every expired contract first, outside the order path and with the gains of `CloseExpired`, and what is then open is flattened; no expired contract is left open, and no row of the user whose reverse order passes |
| OrderServices.PlacedNet | backend/services/sandbox_service.py:159-219 | a placement that completes moves the position by the whole order, any other by nothing |
| OrderServices.PlaceSmartOrder | backend/services/sandbox_service.py:389-420 | nothing happens exactly when the position is at its target; a completed order brings it there |
| MaxPain.BuildPainCurve | backend/services/max_pain_service.py:29-63 | one sorted row per strike with the rounded loss at that strike |
| MaxPain.InterestIsLastRow | backend/services/max_pain_service.py:34-43 | a strike's interest is what its last chain row gives, nothing for a side left out |
| MaxPain.CallsLoseAbove | backend/services/max_pain_service.py:47-53 | above every strike only call writers lose, below every strike only put writers |
| MaxPain.OneStrikeLoses | backend/services/max_pain_service.py:47-53 | what writers of one strike's calls, or puts, lose at a settlement price |
| MaxPain.SomeStrikeIsNoWorse | backend/services/max_pain_service.py:45-54 | at any real settlement price some listed strike loses no more |
| MaxPain.PainIsLinear | backend/services/max_pain_service.py:45-54 | between strikes the loss is a straight line |
| MaxPain.MaxPainStrike | backend/services/max_pain_service.py:103-108 | least rounded pain among the strikes, the lowest on a tie; no real settlement price does better when strikes are apart, nor by more than a paisa in any case |
| MaxPain.BestExactlyWhenApart | backend/services/max_pain_service.py:45-108 | for distinct strikes the reported one is the best settlement price under every open interest if and only if the strikes are apart |
| MaxPain.WholePaiseIsApart | backend/services/max_pain_service.py:55-60 | strikes in whole paise are apart |
| MaxPain.SupportAfter | backend/services/max_pain_service.py:45-54 | the loss is convex: above a strike it stays over the line of the slope just above it |
| MaxPain.NeighbourLosesLess | backend/services/max_pain_service.py:45-54 | if some strike loses less than another, the other's neighbour on that side loses less by at least the gap |
| MaxPain.CloseStrikesMislead | backend/services/max_pain_service.py:55-108 | two strikes less than a paisa apart: a chain on which the lower one is reported though the higher loses less |
| ImpliedVol.Bisect | backend/services/option_greeks_service.py:178-187 | the bracket always holds the target and halves each round, so the result prices within tolerance or is the midpoint of the last bracket |
| ImpliedVol.ImpliedVolatility | backend/services/option_greeks_service.py:167-187 | no answer exactly when the price is at intrinsic or outside what volatilities of 1e-6 and 5 give; otherwise one that prices to 1e-6 or is the midpoint of the range halved 80 times |
| ImpliedVol.BracketHoldsRoot | backend/services/option_greeks_service.py:178-186 | for an increasing price a bracket holds every volatility that prices the target |
| ImpliedVol.RootIsUnique | backend/services/option_greeks_service.py:178-186 | there is only one |
| ImpliedVol.AnswerIsNearTheRoot | backend/services/option_greeks_service.py:178-187 | the answer prices within tolerance, or is within half the last bracket of the true volatility |
| Digits.ParsePrint | backend/services/option_chain_service.py:43-48 | decimal printing is read back |
| Digits.PyIntPrint | backend/services/option_symbol_service.py:188-191 | `int` reads back a printed number through sign, space and underscore handling |
| Digits.PyIntSigned | backend/services/option_symbol_service.py:188-191 | `int` reads one sign through, and refuses two |
| StrikeLabels.LabelRow | backend/services/option_chain_service.py:40-49 | the branch of the label loop for one strike |
| StrikeLabels.LabelStrikes | backend/services/option_chain_service.py:26-50 | the labelled rows of the window in strike order, every strike when no count is given, or every strike unlabelled when the money is not listed |
| StrikeLabels.LabelsMirror | backend/services/option_chain_service.py:40-49 | a row's call and put labels name the same distance, in the money for one and out for the other, and the distance counts strikes |
| StrikeLabels.LabelsResolve | backend/services/option_symbol_service.py:177-199 | every label of either side, printed and parsed, resolves to its own row's strike |
| StrikeLabels.BeyondTheList | backend/services/option_symbol_service.py:187-199 | a label resolves to nothing if and only if its distance runs off the end of the list on its side |
| StrikeLabels.LabelsAreDistinct | backend/services/option_chain_service.py:40-49 | no two rows share a label on one side |
| StrikeLabels.WindowShape | backend/services/option_chain_service.py:31-37 | the window is contiguous, holds the money, has at most 2·count+1 rows and stops short only at the ends of the list |
| StrikeLabels.FindAtm | backend/services/option_symbol_service.py:171-174 | a nearest strike, the first of equals; none only for an empty list |
| OptionSymbols.StrikeReads | backend/services/option_symbol_service.py:202-203 | a printed strike, whole or decimal, is read back exactly by `float` |
| StrikeText.StrikeIsPlain | backend/services/option_symbol_service.py:202-203 | the strike's text is all digits if and only if the strike is whole, has no leading zero but in 0 and before the point, and with a fraction has one point and no zero at the end |
| StrikeText.OnlyOneText | backend/services/option_symbol_service.py:202-203 | it is the only such text that `float` reads as the strike |
| OptionSymbols.CodesAndHours | backend/sandbox/catch_up.py:269-274 | the twelve month codes, the six exchanges whose symbols carry an expiry, and the minute of the day options expire on each |
| OptionSymbols.OnlyOneReading | backend/services/option_greeks_service.py:289-292 | the pattern can fall on a symbol in one way only, the one the parser takes |
| OptionSymbols.OptionReads | backend/services/option_greeks_service.py:281-320 | base, date, strike and type are recovered if and only if the base is letters only |
| OptionSymbols.ExpiryReads | backend/sandbox/catch_up.py:277-303 | the expiry is recovered for every date if and only if the base holds no place where a date pattern can begin |
| OptionSymbols.UnderlyingReads | backend/services/symbol_service.py:40 | the underlying is recovered if and only if the base is letters and digits with no earlier place for the prefix to end |
| OptionSymbols.DigitsInTickerHideExpiry | backend/sandbox/catch_up.py:277-303 | option symbols of 360ONE yield no expiry, though the underlying is found |
| OptionSymbols.LettersRoundTrip | backend/services/option_symbol_service.py:315 | for letters-only bases all three readers invert the builder |
| TradingDates.DateHolds | backend/services/straddle_chart_service.py:246-267 | a local date is the 24 hours that hold the shifted time |
| TradingDates.DateSetIsLastDates | backend/services/iv_chart_service.py:257-266 | the date-set filter keeps exactly the rows with fewer than n distinct later dates |
| TradingDates.CapByCutoff | backend/services/straddle_chart_service.py:246-267 | the backward scan and the cutoff filter compute the scan's function |
| TradingDates.ScanIsLastDates | backend/services/straddle_chart_service.py:246-267 | when the last rows of the dates are in order, the scan keeps the same rows as that definition |
| TradingDates.CapsAgree | backend/services/iv_chart_service.py:257-266 | on a series in time order, which is what the callers build, the two filters agree for every count |
| TradingDates.CapsAgreeExactly | backend/services/straddle_chart_service.py:246-267 | on any series the two filters agree for every count if and only if the last row of each date comes before the last row of every later date |
| TradingDates.CapsDifferOutOfOrder | backend/services/straddle_chart_service.py:252-267 | the least series on which they differ |
| TradingDates.LastDatesIsTail | backend/services/straddle_chart_service.py:246-267 | what is kept is a tail of the series holding min(n, all) dates, all later than any dropped |
| MarketCache.KeyTellsApart | backend/services/market_data_cache.py:240-242 | two ticks share a cache entry if and only if they are of the same symbol and exchange |
| MarketCache.AcceptsMeans | backend/services/market_data_cache.py:102-154 | a named depth tick with levels is refused only for text as a price; every other named tick needs a number that does not compare as zero or less |
| MarketCache.TicksAreCounted | backend/services/market_data_cache.py:224-301 | over any run every tick is counted once, as an update or as an error |
| MarketCache.CachedPriceIsPositive | backend/services/market_data_cache.py:224-301 | after any run the cached price is the last accepted LTP or Quote price of its key, and positive unless it is a NaN |
| MarketCache.TickKeepsPositive | backend/services/market_data_cache.py:102-154 | a tick keeps every cached price positive if and only if it is not a NaN LTP or Quote tick |
| MarketCache.NanIsServed | backend/services/market_data_cache.py:125-130 | a NaN is accepted and then served |
| MarketCache.PauseFollowsStatus | backend/services/market_data_cache.py:383-402 | over any run stale implies paused, connected or authenticated implies not paused |
| MarketCache.StaleIsOld | backend/services/market_data_cache.py:541-555 | a feed found stale has had no tick for over the limit |
| MarketCache.GateIgnoresPause | backend/services/market_data_cache.py:419-429 | the gate opens if and only if authenticated with a tick under 30 s old: the pause flag never decides |
| MarketCache.GateSaysWhatHappened | backend/services/market_data_cache.py:419-429 | with a clock that does not run back, the gate opens if and only if the latest connection change was a login and the latest accepted tick is under 30 s old, whatever health checks ran |
| MarketCache.AudienceMeans | backend/services/market_data_cache.py:478-500 | those told of a tick are exactly the subscribers whose event and filter match |
| MarketCache.AudienceInOrder | backend/services/market_data_cache.py:478-500 | they are told by priority, then in order of subscription, and nobody twice |
| MarketCache.QuotesPassLtpSubscribersBy | backend/services/market_data_cache.py:326-333 | a Quote tick replaces the cached price, yet no subscriber to LTP events is told |
| MarketCache.MarketDataCache.constructor | backend/services/market_data_cache.py:178-208 | a fresh cache is the start of the runs |
| MarketCache.MarketDataCache.ProcessMarketData | backend/services/market_data_cache.py:224-301 | refines one tick of the feed and tells exactly its audience; a rejected tick only counts an error |
| MarketCache.MarketDataCache.GetLtp | backend/services/market_data_cache.py:345-352 | reads the price that the run theorems speak of |
| MarketCache.MarketDataCache.SetConnected | backend/services/market_data_cache.py:383-402 | refines a connection change |
| MarketCache.MarketDataCache.CheckHealth | backend/services/market_data_cache.py:541-555 | refines one pass of the health loop |
| MarketCache.MarketDataCache.IsTradeManagementSafe | backend/services/market_data_cache.py:419-429 | the gate, with the reason it gives when shut |
| MarketCache.MarketDataCache.Subscribe | backend/services/market_data_cache.py:305-324 | adds one subscriber under a new id and keeps ids unique and in order |
| MarketCache.MarketDataCache.Broadcast | backend/services/market_data_cache.py:478-500 | the two loops compute the audience |

## Left out

- The database, HTTP, WebSocket, Redis, Telegram, broker calls, event bus and logging.
- Binary floating point: decimal arithmetic is exact here, so drift below the rounding grids is not modelled; a NaN last price reaching a fill is not either.
- Threads inside one transaction: a `session_scope` body is one step, and catch-up's fund update, which runs outside the per-user lock, is one step too.
- OrderLife.OrderLifeOverRuns: fills are the engine's, which always take all that is left of an order; a partial fill through `fill(quantity=…)` has no caller and is not modelled.
- Modifying.ModifyFromRequest: the request's fields as the service could parse them, absent where it could not; a missing order id, and the text parsing itself.
- SandboxService.Sandbox.PlaceOrder: the two price lookups of one call share an answer, in square-off too; the ledger's runs let them differ. The request arrives parsed, with action, product and price type as enumerations; text coercion is not modelled.
- LedgerRows.RowIsItsHistory: a delivered row starts a new history, with its realized P&L gone from the table, while the strategy page goes on counting its orders. The daily reset of the day's columns and of the today figures touches no column these histories speak of.
- TodayAccount.TodayIsBooked: between two daily resets; the reset itself is `ResetLeavesCarried`, not a step of the runs.
- Squareoff.SquareoffBucket: sequential, as one timer callback with no order placed meanwhile; the interleaved case is covered by the ledger theorems only.
- Engine.OnTick: one pass with nothing in between; competing passes are covered by the ledger theorems.
- OverdueRows.CloseStaleIntraday: which rows are overdue is a parameter, and likewise for expired contracts and due deliveries.
- OverdueRows.MergeRow: `pnlpercent` and `settlement_date` of a holding.
- StrategyPnl.AggregateOrders: one dict key per instrument, the product of a strategy being fixed; lifetime totals, which repeat the same sums, and display rounding.
- OptionSymbols.OptionReads: the caller's own expiry time, and Unicode digits, which Python's `\d` also matches.
- Digits.PyIntPrint: Unicode digits and spaces in `int`.
- TradingDates.CapByCutoff: every row carries a time; the scan's skipping of rows without one is not modelled, and the other filter has no such case.
- MarketCache.MarketDataCache.ProcessMarketData: last-price history and timestamps of the validator, which only feed warnings; quote and depth payloads other than the price; hit counters; unsubscribing.
- ImpliedVol.ImpliedVolatility: the Black-76 formula stays an arbitrary price function.
- `reject_order`, `credit_sale_proceeds`, fund resets and weekly wipes, which no modelled path calls.
- The underlyings loop of `get_option_underlyings` around its pattern, split and basket orders, live broker paths, other routers and the frontend.
