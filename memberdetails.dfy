/**
 * The member screens of the mobile app: a member's totals and recent
 * requests, the request summary with its status filter, and the withdrawal
 * history. A member's transactions are those whose creator is the member's
 * name or phone.
 */
module MemberDetails {
  import opened Wrappers
  import opened Ledger
  import opened Balance
  import GroupDetails
  import Palette

  /** `t => t.createdBy === member.name || t.createdBy === member.phone`. */
  function ByMember(m: Member): Transaction -> bool {
    (t: Transaction) => t.createdBy == m.name || t.createdBy == m.phone
  }

  predicate IsPaidWithdrawal(t: Transaction) {
    t.status == Paid && t.kind == Withdrawal
  }

  /** What `calculateMemberStats` returns: a bare empty recent list when the group has no transaction list. */
  datatype MemberStats =
    | NoTransactions
    | Stats(totalDeposit: real, totalWithdrawal: real, netAmount: real,
            totalRequests: nat, approvedRequests: nat, pendingRequests: nat, rejectedRequests: nat,
            paidRequests: nat, recentTransactions: seq<Transaction>)
  {
    function Recent(): seq<Transaction> {
      if NoTransactions? then [] else recentTransactions
    }
  }

  /** The paid withdrawals' total as the screen takes it: type `withdrawal` among the paid ones. */
  lemma PaidWithdrawalsArePaidOthers(s: seq<Transaction>)
    ensures Filter(Filter(s, IsPaid), IsWithdrawal) == Filter(s, IsPaidOther)
  {
    FilterFilter(s, IsPaid, IsWithdrawal, IsPaidWithdrawal);
    FilterExt(s, IsPaidWithdrawal, IsPaidOther);
  }

  /**
   * `calculateMemberStats`. Money sums count only paid transactions, the net
   * is the member's share of the paid balance, the four status counts split
   * the member's requests, and the recent list is the member's five newest.
   */
  function CalculateMemberStats(txs: Option<seq<Transaction>>, m: Member): (r: MemberStats)
    ensures txs.None? <==> r.NoTransactions?
    ensures r.Stats? ==>
              var mine := Filter(txs.value, ByMember(m));
              && r.totalRequests == |mine|
              && r.pendingRequests == CountStatus(mine, Pending)
              && r.approvedRequests == CountStatus(mine, Approved)
              && r.rejectedRequests == CountStatus(mine, Rejected)
              && r.paidRequests == CountStatus(mine, Paid)
              && r.paidRequests + r.pendingRequests + r.approvedRequests + r.rejectedRequests == r.totalRequests
              && r.totalDeposit == Total(Filter(mine, IsPaidDeposit))
              && r.totalWithdrawal == Total(Filter(mine, IsPaidOther))
              && r.netAmount == PaidBalance(Some(mine))
    ensures |r.Recent()| <= 5
    ensures SortedDesc(r.Recent(), GroupDetails.CreatedKey)
    ensures r.Stats? ==> multiset(r.Recent()) <= multiset(Filter(txs.value, ByMember(m)))
  {
    match txs
    case None => NoTransactions
    case Some(s) =>
      var mine := Filter(s, ByMember(m));
      var paid := Filter(mine, StatusIs(Paid));
      var paidDeposits := Filter(paid, IsDeposit);
      var paidWithdrawals := Filter(paid, IsWithdrawal);
      var totalDeposit := Total(paidDeposits);
      var totalWithdrawal := Total(paidWithdrawals);
      FilterExt(mine, StatusIs(Paid), IsPaid);
      FilterFilter(mine, IsPaid, IsDeposit, IsPaidDeposit);
      PaidWithdrawalsArePaidOthers(mine);
      PaidBalanceSplit(mine);
      StatusCountsPartition(mine);
      var recent := Take(SortDesc(mine, GroupDetails.CreatedKey), 5);
      NewestFive(mine);
      Stats(totalDeposit, totalWithdrawal, totalDeposit - totalWithdrawal,
            |mine|, CountStatus(mine, Approved), CountStatus(mine, Pending), CountStatus(mine, Rejected),
            |paid|, recent)
  }

  /** The five newest of a list are at most five, newest first, and drawn from the list. */
  lemma NewestFive(mine: seq<Transaction>)
    ensures var recent := Take(SortDesc(mine, GroupDetails.CreatedKey), 5);
            |recent| <= 5 && SortedDesc(recent, GroupDetails.CreatedKey) && multiset(recent) <= multiset(mine)
  {
    TopIsLargest(mine, GroupDetails.CreatedKey, 5);
  }

  /** A request the recent list leaves out is no newer than any it shows, and the list is full. */
  lemma RecentAreNewest(s: seq<Transaction>, m: Member, t: Transaction)
    requires t in Filter(s, ByMember(m)) && t !in CalculateMemberStats(Some(s), m).Recent()
    ensures |CalculateMemberStats(Some(s), m).Recent()| == 5
    ensures forall u :: u in CalculateMemberStats(Some(s), m).Recent() ==>
              GroupDetails.CreatedKey(u) >= GroupDetails.CreatedKey(t)
  {
    TakeLeavesSmaller(Filter(s, ByMember(m)), GroupDetails.CreatedKey, 5, t);
  }

  lemma TakeLeavesSmaller<T>(s: seq<T>, key: T -> real, n: nat, x: T)
    requires x in s && x !in Take(SortDesc(s, key), n)
    ensures |Take(SortDesc(s, key), n)| == n
    ensures forall u :: u in Take(SortDesc(s, key), n) ==> key(u) >= key(x)
  {
    var sorted := SortDesc(s, key);
    var top := Take(sorted, n);
    TopIsLargest(s, key, n);
    SortDescFacts(s, key);
    assert x in multiset(sorted);
    var j :| 0 <= j < |sorted| && sorted[j] == x;
    if |sorted| <= n {
      assert false;
    }
    if j < n {
      assert false;
    }
    forall u | u in top ensures key(u) >= key(x) {
      var i :| 0 <= i < |top| && top[i] == u;
      assert key(top[i]) >= key(sorted[j]);
    }
  }

  /** `isAdmin`: the member is the group's creator. */
  function MemberIsAdmin(m: Member, g: Option<Group>): (r: bool)
    ensures r <==> g.Some? && g.value.createdBy == m.phone
  {
    g.Some? && m.phone == g.value.createdBy
  }

  /**
   * The net card is green when the member's paid net is not negative and red
   * otherwise. Without a transaction list the net is `undefined`, and
   * `undefined >= 0` is false, so that card is red too.
   */
  function NetColor(stats: MemberStats): (c: string)
    ensures c == Palette.Green <==> stats.Stats? && stats.netAmount >= 0.0
    ensures c == Palette.Red <==> stats.NoTransactions? || stats.netAmount < 0.0
  {
    if stats.Stats? && stats.netAmount >= 0.0 then Palette.Green else Palette.Red
  }

  // --------------------------------------------------------------- status labels

  const DepositCompleted := "\U{2705} COMPLETED"
  const BareCompleted := " COMPLETED"
  const CrossCompleted := "\U{274C} COMPLETED"
  const ApprovedLabel := "\U{2705} APPROVED"
  const NotEnoughBalance := "\U{274C} NOT ENOUGH BALANCE"
  const RejectedLabel := "\U{274C} REJECTED"
  const PendingLabel := "\U{23F3} PENDING"

  /** The labels are pairwise different. */
  lemma LabelsDiffer()
    ensures DepositCompleted != BareCompleted && DepositCompleted != CrossCompleted && DepositCompleted != ApprovedLabel
    ensures DepositCompleted != NotEnoughBalance && DepositCompleted != RejectedLabel && DepositCompleted != PendingLabel
    ensures BareCompleted != CrossCompleted && BareCompleted != ApprovedLabel && BareCompleted != NotEnoughBalance
    ensures BareCompleted != RejectedLabel && BareCompleted != PendingLabel
    ensures CrossCompleted != ApprovedLabel && CrossCompleted != NotEnoughBalance && CrossCompleted != RejectedLabel
    ensures CrossCompleted != PendingLabel
    ensures ApprovedLabel != NotEnoughBalance && ApprovedLabel != RejectedLabel && ApprovedLabel != PendingLabel
    ensures NotEnoughBalance != RejectedLabel && NotEnoughBalance != PendingLabel && RejectedLabel != PendingLabel
  {
    assert |DepositCompleted| == 11 && |BareCompleted| == 10 && |CrossCompleted| == 11;
    assert |ApprovedLabel| == 10 && |NotEnoughBalance| == 20 && |RejectedLabel| == 10 && |PendingLabel| == 9;
    assert DepositCompleted[0] != CrossCompleted[0];
    assert BareCompleted[0] != ApprovedLabel[0] && BareCompleted[0] != RejectedLabel[0];
    assert ApprovedLabel[2] != RejectedLabel[2];
  }

  /** The reason the backend and the payment screens give when a withdrawal finds too little money. */
  const NotEnoughBalanceReason := "Not enough balance"

  /** The rejected label, which names the one known rejection reason. */
  function RejectedDisplay(t: Transaction): string {
    if t.rejectionReason == Some(NotEnoughBalanceReason) then NotEnoughBalance else RejectedLabel
  }

  /** `getStatusDisplay` of the member screen: a paid transaction other than a deposit has no mark. */
  function StatusDisplay(t: Transaction): (r: string)
    ensures r == DepositCompleted <==> t.status == Paid && t.kind == Deposit
    ensures r == BareCompleted <==> t.status == Paid && t.kind != Deposit
    ensures r == ApprovedLabel <==> t.status == Approved
    ensures r == NotEnoughBalance <==> t.status == Rejected && t.rejectionReason == Some(NotEnoughBalanceReason)
    ensures r == RejectedLabel <==> t.status == Rejected && t.rejectionReason != Some(NotEnoughBalanceReason)
    ensures r == PendingLabel <==> t.status == Pending
  {
    LabelsDiffer();
    match t.status
    case Paid => (if t.kind == Deposit then DepositCompleted else BareCompleted)
    case Approved => ApprovedLabel
    case Rejected => RejectedDisplay(t)
    case Pending => PendingLabel
  }

  /** The colour of a recent request's label: every paid one is green, whatever its type. */
  function RecentStatusColor(t: Transaction): (c: string)
    ensures c == Palette.Green <==> t.status == Paid || t.status == Approved
    ensures c == Palette.Red <==> t.status == Rejected
    ensures c == Palette.Orange <==> t.status == Pending
  {
    Palette.ColoursDiffer();
    match t.status
    case Paid => Palette.Green
    case Approved => Palette.Green
    case Rejected => Palette.Red
    case Pending => Palette.Orange
  }

  /** The label tells the status: transactions with the same label have the same status. */
  lemma LabelIdentifiesStatus(t: Transaction, u: Transaction)
    requires StatusDisplay(t) == StatusDisplay(u)
    ensures t.status == u.status
  {
    var r := StatusDisplay(t);
    assert r in {DepositCompleted, BareCompleted, ApprovedLabel, NotEnoughBalance, RejectedLabel, PendingLabel};
  }
}

/** The request summary screen: the member's requests under one of five status filters. */
module RequestSummary {
  import opened Wrappers
  import opened Ledger
  import opened MemberDetails
  import Palette

  /** The filter keys the screen offers. */
  const FilterKeys: seq<string> := ["all", "completed", "approved", "pending", "rejected"]

  /** `allTransactions`: the member's requests, or none without a list. */
  function MemberRequests(txs: Option<seq<Transaction>>, m: Member): (r: seq<Transaction>)
    ensures txs.None? ==> r == []
    ensures forall t :: t in r <==> txs.Some? && t in txs.value && ByMember(m)(t)
  {
    match txs
    case None => []
    case Some(s) => FilterMemberAll(s, ByMember(m)); Filter(s, ByMember(m))
  }

  /** The filter test: `all` keeps everything, `completed` keeps paid ones, any other key names a status. */
  function Matches(filter: string): Transaction -> bool {
    (t: Transaction) =>
      if filter == "all" then true
      else if filter == "completed" then t.status == Paid
      else StatusName(t.status) == filter
  }

  function Filtered(s: seq<Transaction>, filter: string): seq<Transaction> {
    Filter(s, Matches(filter))
  }

  /** What each selectable key shows: everything, the paid ones, or those with the named status. */
  lemma FilterKeysMeaning(s: seq<Transaction>)
    ensures Filtered(s, "all") == s
    ensures Filtered(s, "completed") == Filter(s, StatusIs(Paid))
    ensures Filtered(s, "approved") == Filter(s, StatusIs(Approved))
    ensures Filtered(s, "pending") == Filter(s, StatusIs(Pending))
    ensures Filtered(s, "rejected") == Filter(s, StatusIs(Rejected))
  {
    FilterAll(s, Matches("all"));
    FilterExt(s, Matches("completed"), StatusIs(Paid));
    forall st: Status ensures StatusName(st) == "approved" <==> st == Approved {
      StatusNameInjective(st, Approved);
    }
    forall st: Status ensures StatusName(st) == "pending" <==> st == Pending {
      StatusNameInjective(st, Pending);
    }
    forall st: Status ensures StatusName(st) == "rejected" <==> st == Rejected {
      StatusNameInjective(st, Rejected);
    }
    FilterExt(s, Matches("approved"), StatusIs(Approved));
    FilterExt(s, Matches("pending"), StatusIs(Pending));
    FilterExt(s, Matches("rejected"), StatusIs(Rejected));
  }

  /** Every filter shows some of the member's requests, in their order. */
  lemma FilteredIsSublist(s: seq<Transaction>, filter: string)
    ensures Sublist(Filtered(s, filter), s)
  {
    FilterSublist(s, Matches(filter));
  }

  /** `getStatusDisplay` here: a paid transaction other than a deposit is marked with a cross. */
  function StatusDisplay(t: Transaction): (r: string)
    ensures r == DepositCompleted <==> t.status == Paid && t.kind == Deposit
    ensures r == CrossCompleted <==> t.status == Paid && t.kind != Deposit
    ensures t.status != Paid ==> r == MemberDetails.StatusDisplay(t)
  {
    match t.status
    case Paid => (if t.kind == Deposit then DepositCompleted else CrossCompleted)
    case Approved => ApprovedLabel
    case Rejected => RejectedDisplay(t)
    case Pending => PendingLabel
  }

  /** `getStatusColor`: green for money in or a request voted through, red for money out or a refusal. */
  function StatusColor(t: Transaction): (c: string)
    ensures c == Palette.Green <==> (t.status == Paid && t.kind == Deposit) || t.status == Approved
    ensures c == Palette.Red <==> (t.status == Paid && t.kind != Deposit) || t.status == Rejected
    ensures c == Palette.Orange <==> t.status == Pending
  {
    Palette.ColoursDiffer();
    match t.status
    case Paid => (if t.kind == Deposit then Palette.Green else Palette.Red)
    case Approved => Palette.Green
    case Rejected => Palette.Red
    case Pending => Palette.Orange
  }

  /** The member screen and the summary label every request alike except a paid withdrawal. */
  lemma DisplaysDifferOnlyOnPaidWithdrawals(t: Transaction)
    ensures StatusDisplay(t) != MemberDetails.StatusDisplay(t) <==> t.status == Paid && t.kind != Deposit
    ensures StatusColor(t) != RecentStatusColor(t) <==> t.status == Paid && t.kind != Deposit
  {
    Palette.ColoursDiffer();
  }
}

/** The withdrawal history screen: the member's withdrawals under the same five filters. */
module WithdrawHistory {
  import opened Wrappers
  import opened Ledger
  import opened MemberDetails
  import RequestSummary
  import Palette

  /** `t => (t.createdBy === member.name || t.createdBy === member.phone) && t.type === 'withdrawal'`. */
  function ByMemberWithdrawal(m: Member): Transaction -> bool {
    (t: Transaction) => (t.createdBy == m.name || t.createdBy == m.phone) && t.kind == Withdrawal
  }

  /** `withdrawals`: none without a list. */
  function Withdrawals(txs: Option<seq<Transaction>>, m: Member): (r: seq<Transaction>)
    ensures txs.None? ==> r == []
  {
    match txs
    case None => []
    case Some(s) => Filter(s, ByMemberWithdrawal(m))
  }

  /** The history is the withdrawals among the requests the summary lists. */
  lemma WithdrawalsAmongRequests(txs: Option<seq<Transaction>>, m: Member)
    ensures Withdrawals(txs, m) == Filter(RequestSummary.MemberRequests(txs, m), IsWithdrawal)
  {
    if txs.Some? {
      FilterFilter(txs.value, ByMember(m), IsWithdrawal, ByMemberWithdrawal(m));
    }
  }

  /** The history's filtered view is the summary's filtered view narrowed to withdrawals. */
  lemma FilteredWithdrawals(txs: Option<seq<Transaction>>, m: Member, filter: string)
    ensures RequestSummary.Filtered(Withdrawals(txs, m), filter)
            == Filter(RequestSummary.Filtered(RequestSummary.MemberRequests(txs, m), filter), IsWithdrawal)
  {
    var s := RequestSummary.MemberRequests(txs, m);
    WithdrawalsAmongRequests(txs, m);
    FilterSwap(s, IsWithdrawal, RequestSummary.Matches(filter));
  }

  lemma FilterSwap<T>(s: seq<T>, p: T -> bool, q: T -> bool)
    ensures Filter(Filter(s, p), q) == Filter(Filter(s, q), p)
  {
    var both := (x: T) => p(x) && q(x);
    FilterFilter(s, p, q, both);
    FilterFilter(s, q, p, both);
  }

  /** `getStatusDisplay` here: a paid withdrawal is a bare ` COMPLETED`. */
  function StatusDisplay(t: Transaction): (r: string)
    ensures t.status == Paid ==> r == BareCompleted
    ensures t.status != Paid ==> r == MemberDetails.StatusDisplay(t)
  {
    match t.status
    case Paid => BareCompleted
    case Approved => ApprovedLabel
    case Rejected => RejectedDisplay(t)
    case Pending => PendingLabel
  }

  /** `getStatusColor` here: a paid withdrawal is red, money having left the wallet. */
  function StatusColor(t: Transaction): (c: string)
    ensures c == Palette.Green <==> t.status == Approved
    ensures c == Palette.Red <==> t.status == Paid || t.status == Rejected
    ensures c == Palette.Orange <==> t.status == Pending
  {
    Palette.ColoursDiffer();
    match t.status
    case Paid => Palette.Red
    case Approved => Palette.Green
    case Rejected => Palette.Red
    case Pending => Palette.Orange
  }

  /** On a withdrawal the history agrees with the member screen's label and the summary's colour. */
  lemma HistoryAgreesOnWithdrawals(t: Transaction)
    requires t.kind == Withdrawal
    ensures StatusDisplay(t) == MemberDetails.StatusDisplay(t)
    ensures StatusColor(t) == RequestSummary.StatusColor(t)
  {
  }
}
