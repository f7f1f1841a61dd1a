/** The fund row: margin is blocked from cash, released back with P&L, or moved into holdings. */
module Funds {
  import opened Rounding
  import opened Rows

  type Positive = x: int | x > 0 witness 1

  /** A configured leverage, num / den. */
  datatype Leverage = Leverage(num: int, den: Positive)

  /** The margin in paise that an order of this size needs; a leverage of zero or less counts as 1. */
  function RequiredMargin(price: int, quantity: int, leverage: Leverage): int {
    if price <= 0 || quantity <= 0 then 0
    else if leverage.num <= 0 then RoundDiv(price * quantity, TICKS_PER_PAISA)
    else RoundDiv(price * quantity * leverage.den, TICKS_PER_PAISA * leverage.num)
  }

  lemma RequiredMarginNonNegative(price: int, quantity: int, leverage: Leverage)
    ensures RequiredMargin(price, quantity, leverage) >= 0
  {
    if price > 0 && quantity > 0 {
      MulMono(price, 0, quantity);
      MulMono(price * quantity, 0, leverage.den);
      RoundNonNegative(price * quantity, TICKS_PER_PAISA);
      if leverage.num > 0 {
        RoundNonNegative(price * quantity * leverage.den, TICKS_PER_PAISA * leverage.num);
      }
    }
  }

  /** The margin is the order's value over the leverage, to half a paisa; a bigger order never needs less,
      and a leverage of zero or less asks for the whole value. */
  lemma RequiredMarginIsValue(price: int, quantity: int, leverage: Leverage, more: int)
    requires price > 0 && 0 < quantity <= more
    ensures var m := RequiredMargin(price, quantity, leverage);
            && (leverage.num > 0 ==>
                  var scale := TICKS_PER_PAISA * leverage.num;
                  -scale <= 2 * (price * quantity * leverage.den - scale * m) <= scale)
            && (leverage.num <= 0 ==> m == RequiredMargin(price, quantity, Leverage(1, 1)))
            && m <= RequiredMargin(price, more, leverage)
  {
    MulMono(price, quantity, more);
    if leverage.num > 0 {
      MulMono(leverage.den, price * quantity, price * more);
      RoundDivMono(price * quantity * leverage.den, price * more * leverage.den, TICKS_PER_PAISA * leverage.num);
    } else {
      RoundDivMono(price * quantity, price * more, TICKS_PER_PAISA);
    }
  }

  lemma RoundNonNegative(n: int, d: int)
    requires n >= 0 && d > 0
    ensures RoundDiv(n, d) >= 0
  {
    var r := RoundDiv(n, d);
    if r < 0 {
      MulMono(d, r, -1);
    }
  }

  function FreshFund(capital: int): Fund {
    Fund(capital, capital, 0, 0, 0)
  }

  function Block(f: Fund, amount: int): Option<Fund> {
    if amount <= 0 then Some(f)
    else if f.available < TICKS_PER_PAISA * amount then None
    else Some(f.(available := f.available - TICKS_PER_PAISA * amount, used := f.used + amount))
  }

  function Release(f: Fund, amount: int, pnl: int): Fund {
    var g :=
      if amount > 0 then f.(used := Max(0, f.used - amount), available := f.available + TICKS_PER_PAISA * amount)
      else f;
    g.(available := g.available + pnl, realized := g.realized + pnl, today := g.today + pnl)
  }

  function TransferToHoldings(f: Fund, amount: int): Fund {
    if amount <= 0 then f else f.(used := Max(0, f.used - amount))
  }

  /** Catch-up books P&L from an earlier session: the day's bucket is not touched. */
  function BookEarlier(f: Fund, pnl: int): Fund {
    f.(realized := f.realized + pnl, available := f.available + pnl)
  }

  /** What the row holds in cash and locked margin beyond its starting capital and its booked P&L. */
  function Equity(f: Fund): int {
    f.available + TICKS_PER_PAISA * f.used - f.realized - f.starting
  }

  datatype Reconciled = Reconciled(fund: Fund, consistent: bool, discrepancy: int)

  /** Compare used margin with the margin on open positions; free a surplus when asked to. */
  function Reconcile(f: Fund, positionTotal: int, autoFix: bool): Reconciled {
    var discrepancy := f.used - positionTotal;
    if discrepancy == 0 then Reconciled(f, true, 0)
    else if autoFix && discrepancy > 0 then
      Reconciled(f.(used := positionTotal, available := f.available + TICKS_PER_PAISA * discrepancy), true, 0)
    else Reconciled(f, false, discrepancy)
  }
}
