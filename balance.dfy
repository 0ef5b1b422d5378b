/**
 * The two group balances the clients compute. The mobile app counts only
 * transactions whose money has moved (`paid`); the older `group-wallet` app
 * counts the ones that were voted through (`approved`). They are different
 * functions and disagree on most ledgers.
 */
module Balance {
  import opened Wrappers
  import opened Ledger

  predicate IsPaid(t: Transaction) {
    t.status == Paid
  }

  predicate IsApprovedStatus(t: Transaction) {
    t.status == Approved
  }

  predicate IsPaidDeposit(t: Transaction) {
    t.status == Paid && t.kind == Deposit
  }

  predicate IsPaidOther(t: Transaction) {
    t.status == Paid && t.kind != Deposit
  }

  /** The mobile app's `calculateGroupBalance`: 0 without a list, else the signed sum of the paid transactions. */
  function PaidBalance(txs: Option<seq<Transaction>>): (b: real)
    ensures txs.None? ==> b == 0.0
  {
    match txs
    case None => 0.0
    case Some(s) => Net(Filter(s, IsPaid))
  }

  /** The older app's `calculateCurrentBalance`/`calculateGroupBalance`: the same sum over approved transactions. */
  function ApprovedBalance(txs: Option<seq<Transaction>>): (b: real)
    ensures txs.None? ==> b == 0.0
  {
    match txs
    case None => 0.0
    case Some(s) => Net(Filter(s, IsApprovedStatus))
  }

  /** The paid balance is what was paid in minus what was paid out by any other type. */
  lemma PaidBalanceSplit(s: seq<Transaction>)
    ensures PaidBalance(Some(s)) == Total(Filter(s, IsPaidDeposit)) - Total(Filter(s, IsPaidOther))
  {
    var paid := Filter(s, IsPaid);
    NetIsDepositsMinusOthers(paid);
    FilterFilter(s, IsPaid, IsDeposit, IsPaidDeposit);
    FilterFilter(s, IsPaid, IsNotDeposit, IsPaidOther);
  }

  /**
   * Adding a transaction anywhere in the list moves the paid balance by its
   * signed amount if it is paid, and not at all otherwise.
   */
  lemma PaidBalanceInsert(a: seq<Transaction>, t: Transaction, b: seq<Transaction>)
    ensures PaidBalance(Some(a + [t] + b)) == PaidBalance(Some(a + b)) + (if t.status == Paid then Signed(t) else 0.0)
  {
    FilterAppend(a + [t], b, IsPaid);
    FilterAppend(a, [t], IsPaid);
    FilterAppend(a, b, IsPaid);
    NetAppend(Filter(a, IsPaid) + Filter([t], IsPaid), Filter(b, IsPaid));
    NetAppend(Filter(a, IsPaid), Filter([t], IsPaid));
    NetAppend(Filter(a, IsPaid), Filter(b, IsPaid));
    assert Filter([t], IsPaid) == if t.status == Paid then [t] else [];
  }

  /** The same for the approved balance and approved transactions. */
  lemma ApprovedBalanceInsert(a: seq<Transaction>, t: Transaction, b: seq<Transaction>)
    ensures ApprovedBalance(Some(a + [t] + b))
            == ApprovedBalance(Some(a + b)) + (if t.status == Approved then Signed(t) else 0.0)
  {
    FilterAppend(a + [t], b, IsApprovedStatus);
    FilterAppend(a, [t], IsApprovedStatus);
    FilterAppend(a, b, IsApprovedStatus);
    NetAppend(Filter(a, IsApprovedStatus) + Filter([t], IsApprovedStatus), Filter(b, IsApprovedStatus));
    NetAppend(Filter(a, IsApprovedStatus), Filter([t], IsApprovedStatus));
    NetAppend(Filter(a, IsApprovedStatus), Filter(b, IsApprovedStatus));
    assert Filter([t], IsApprovedStatus) == if t.status == Approved then [t] else [];
  }

  /** A deposit that was approved but not yet paid shows in the older app's balance and not in the mobile app's. */
  lemma BalancesDisagree(t: Transaction)
    requires t.status == Approved && t.kind == Deposit && t.amount > 0.0
    ensures ApprovedBalance(Some([t])) == t.amount
    ensures PaidBalance(Some([t])) == 0.0
  {
    assert Filter([t], IsApprovedStatus) == [t];
    assert Net([t]) == Signed(t) + Net([]);
    assert Filter([t], IsPaid) == [];
  }
}
