/** The admin check of used margin against the open positions, as it runs. */
module Reconciling {
  import opened Rounding
  import opened Sums
  import opened Rows
  import opened Funds
  import opened Books
  import opened Ledger
  import opened Leaks
  import opened Sequential
  import opened SandboxService

  /** Sum the open rows of the user, compare, and free a surplus when asked to. */
  method ReconcileMargin(db: Sandbox, u: UserId, autoFix: bool) returns (consistent: bool, discrepancy: int)
    modifies db`funds
    ensures db.Snapshot() == old(db.Snapshot()).(funds := db.funds)
    ensures db.funds == old(db.funds)[u := old(ReconcileTx(db.Snapshot(), u, autoFix)).fund]
    ensures consistent == old(ReconcileTx(db.Snapshot(), u, autoFix)).consistent
    ensures discrepancy == old(ReconcileTx(db.Snapshot(), u, autoFix)).discrepancy
  {
    var row := db.EnsureFundRow(u);
    var total := PositionTotal(db.positions, u);
    discrepancy := row.used - total;
    if discrepancy == 0 {
      return true, 0;
    }
    if autoFix && discrepancy > 0 {
      db.funds := db.funds[u := row.(used := total, available := row.available + TICKS_PER_PAISA * discrepancy)];
      return true, 0;
    }
    return false, discrepancy;
  }

  method PositionTotal(positions: map<PosKey, Position>, u: UserId) returns (total: int)
    ensures total == Total(positions, OpenMarginOf(u))
  {
    total := 0;
    var rest := positions;
    while rest != map[]
      invariant total + Total(rest, OpenMarginOf(u)) == Total(positions, OpenMarginOf(u))
      decreases |rest|
    {
      var k :| k in rest;
      TotalRemove(rest, OpenMarginOf(u), k);
      if k.user == u && rest[k].net != 0 {
        total := total + rest[k].margin;
      }
      rest := rest - {k};
    }
  }
}
