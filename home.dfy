/** The mobile home screen's per-group figures. */
module Home {
  import opened Wrappers
  import opened Ledger
  import opened Balance
  import GroupDetails

  /**
   * `calculateGroupBalance(group)`: returns 0 early for a missing or empty
   * list, which the sum gives anyway, so it is the other screens' paid balance.
   */
  function HomeBalance(txs: Option<seq<Transaction>>): (b: real)
    ensures b == PaidBalance(txs)
  {
    if txs.None? || |txs.value| == 0 then 0.0 else Net(Filter(txs.value, IsPaid))
  }

  /** `getPendingRequestsCount(group)`: the same number the group screen shows. */
  function PendingRequestsCount(txs: Option<seq<Transaction>>): (n: nat)
    ensures n == GroupDetails.PendingCount(txs)
    ensures txs.Some? ==> n <= |txs.value|
  {
    if txs.None? then 0 else |Filter(txs.value, StatusIs(Pending))|
  }
}
