/**
 * The mobile group screen's derivations: the paid balance, the pending and
 * awaiting-payment counts, the newest-first list, who may still vote, the
 * status colours and which buttons a transaction shows.
 */
module GroupDetails {
  import opened Wrappers
  import opened Ledger
  import opened Voting
  import Palette

  /** `group?.transactions?.filter(t => t.status === 'pending').length || 0`. */
  function PendingCount(txs: Option<seq<Transaction>>): (r: nat)
    ensures txs.Some? ==> r <= |txs.value|
    ensures r == 0 <==> txs.None? || forall t :: t in txs.value ==> t.status != Pending
  {
    match txs
    case None => 0
    case Some(s) =>
      var f := Filter(s, StatusIs(Pending));
      FilterMemberAll(s, StatusIs(Pending));
      assert f != [] ==> f[0] in f;
      CountStatus(s, Pending)
  }

  predicate IsApprovedDeposit(t: Transaction) {
    t.status == Approved && t.kind == Deposit
  }

  /** `getApprovedDepositsCount`: approved deposits, i.e. those waiting to be paid. */
  function ApprovedDepositsCount(txs: Option<seq<Transaction>>): (r: nat)
    ensures txs.Some? ==> r <= |txs.value|
    ensures r == 0 <==> txs.None? || forall t :: t in txs.value ==> !IsApprovedDeposit(t)
  {
    match txs
    case None => 0
    case Some(s) =>
      var f := Filter(s, IsApprovedDeposit);
      FilterMemberAll(s, IsApprovedDeposit);
      assert f != [] ==> f[0] in f;
      |f|
  }

  /** Approved deposits are some of the approved transactions. */
  lemma ApprovedDepositsAmongApproved(s: seq<Transaction>)
    ensures ApprovedDepositsCount(Some(s)) <= CountStatus(s, Approved)
  {
    FilterFilter(s, StatusIs(Approved), IsDeposit, IsApprovedDeposit);
  }

  /** The sort key `new Date(t.createdAt || 0)`. */
  function CreatedKey(t: Transaction): real {
    t.createdAt as real
  }

  /** `getAllTransactions`: a sorted copy, newest first, holding exactly the group's transactions. */
  function AllTransactions(txs: Option<seq<Transaction>>): (r: seq<Transaction>)
    ensures txs.None? ==> r == []
    ensures txs.Some? ==> multiset(r) == multiset(txs.value) && |r| == |txs.value|
    ensures SortedDesc(r, CreatedKey)
  {
    match txs
    case None => []
    case Some(s) => SortDescFacts(s, CreatedKey); SortDesc(s, CreatedKey)
  }

  /** `canUserApprove`: a pending transaction the user has not voted on yet. */
  function CanUserApprove(t: Transaction, phone: string): (r: bool)
    ensures r <==> t.status == Pending && phone !in t.approvals && phone !in t.rejections
  {
    if t.status != Pending then false
    else if phone in t.approvals then false
    else if phone in t.rejections then false
    else true
  }

  /**
   * The screen offers a vote exactly when approving would be the user's first
   * vote: the backend would add one approval and leave the rejections as they are.
   */
  lemma CanApproveIffFirstVote(t: Transaction, phone: string, totalMembers: nat, threshold: int, now: int)
    requires t.status == Pending
    ensures var u := CastVote(t, phone, true, totalMembers, threshold, now).value.0;
            CanUserApprove(t, phone) <==> |u.approvals| == |t.approvals| + 1 && u.rejections == t.rejections
  {
    WithoutFacts(t.rejections, phone);
  }

  /** `getStatusColor(status, type)`: an approved deposit, which still has to be paid, is the one orange case. */
  function StatusColor(status: Status, kind: Kind): (c: string)
    ensures c == Palette.Orange <==> status == Approved && kind == Deposit
    ensures c == Palette.Green <==> status == Paid || (status == Approved && kind != Deposit)
    ensures c == Palette.Red <==> status == Rejected
    ensures c == Palette.Blue <==> status == Pending
  {
    if status == Paid then Palette.Green
    else if status == Approved && kind == Deposit then Palette.Orange
    else if status == Approved then Palette.Green
    else if status == Rejected then Palette.Red
    else if status == Pending then Palette.Blue
    else Palette.Grey
  }

  /** The approve/reject buttons of a list item. */
  predicate VoteButtonsShown(t: Transaction, phone: string) {
    t.status == Pending && CanUserApprove(t, phone)
  }

  /** The "You've voted" note of a list item. */
  predicate VotedNoteShown(t: Transaction, phone: string) {
    t.status == Pending && (phone in t.approvals || phone in t.rejections)
  }

  /** A pending item shows exactly one of the buttons and the note; any other item shows neither. */
  lemma VoteDisplaysPartition(t: Transaction, phone: string)
    ensures t.status == Pending ==> (VoteButtonsShown(t, phone) <==> !VotedNoteShown(t, phone))
    ensures t.status != Pending ==> !VoteButtonsShown(t, phone) && !VotedNoteShown(t, phone)
  {
  }

  /** "Pay Now": only on the creator's own approved deposit. */
  predicate PayNowShown(t: Transaction, phone: string) {
    t.createdBy == phone && t.status == Approved && t.kind == Deposit
  }

  /** "Withdraw Now": only on the creator's own approved withdrawal. */
  predicate WithdrawNowShown(t: Transaction, phone: string) {
    t.createdBy == phone && t.status == Approved && t.kind == Withdrawal
  }
}
