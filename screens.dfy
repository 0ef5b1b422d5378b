/**
 * The mobile app's list of approved deposits still to be paid, with a "Pay
 * Now" button on the viewer's own and a waiting note on everyone else's.
 */
module PendingPayments {
  import opened Wrappers
  import opened Ledger
  import GroupDetails

  /** `item.createdBy === currentUser?.phone`: false while no user is loaded. */
  predicate IsCreator(t: Transaction, user: Option<string>) {
    user.Some? && t.createdBy == user.value
  }

  /** `getPendingPayments`: the approved deposits, in list order; none without a list. */
  function PendingPayments(txs: Option<seq<Transaction>>): (r: seq<Transaction>)
    ensures txs.None? ==> r == []
    ensures txs.Some? ==> Sublist(r, txs.value)
    ensures forall i :: 0 <= i < |r| ==> r[i].status == Approved && r[i].kind == Deposit
    ensures txs.Some? ==> forall t :: t in txs.value && t.status == Approved && t.kind == Deposit ==> t in r
    ensures |r| == GroupDetails.ApprovedDepositsCount(txs)
  {
    match txs
    case None => []
    case Some(s) =>
      FilterSublist(s, GroupDetails.IsApprovedDeposit);
      FilterMemberAll(s, GroupDetails.IsApprovedDeposit);
      Filter(s, GroupDetails.IsApprovedDeposit)
  }

  /** What the right-hand side of an item offers. */
  datatype PaymentAction = PayNow | WaitingForPayment

  /** The "By:" line and the action of one listed deposit. */
  function ItemView(t: Transaction, user: Option<string>): (r: (string, PaymentAction))
    ensures r.1 == PayNow <==> IsCreator(t, user)
    ensures r.0 == (if IsCreator(t, user) then "You" else t.createdBy)
  {
    var isCreator := user.Some? && t.createdBy == user.value;
    (if isCreator then "You" else t.createdBy, if isCreator then PayNow else WaitingForPayment)
  }

  /**
   * A listed deposit offers "Pay Now" to exactly the viewer the group screen
   * shows its "Pay Now" button to.
   */
  lemma PayNowAgreesWithGroupScreen(txs: seq<Transaction>, t: Transaction, phone: string)
    requires t in PendingPayments(Some(txs))
    ensures ItemView(t, Some(phone)).1 == PayNow <==> GroupDetails.PayNowShown(t, phone)
  {
    var r := PendingPayments(Some(txs));
    var i :| 0 <= i < |r| && r[i] == t;
  }
}

/**
 * The mobile app's list of pending transactions with the viewer's voting
 * controls: buttons while they have not voted, a note once they have.
 */
module PendingVotes {
  import opened Wrappers
  import opened Ledger
  import GroupDetails
  import Palette

  /** `getPendingTransactions`: the pending transactions, in list order; none without a list. */
  function PendingTransactions(txs: Option<seq<Transaction>>): (r: seq<Transaction>)
    ensures txs.None? ==> r == []
    ensures txs.Some? ==> Sublist(r, txs.value)
    ensures forall i :: 0 <= i < |r| ==> r[i].status == Pending
    ensures txs.Some? ==> forall t :: t in txs.value && t.status == Pending ==> t in r
    ensures |r| == GroupDetails.PendingCount(txs)
  {
    match txs
    case None => []
    case Some(s) =>
      FilterSublist(s, StatusIs(Pending));
      FilterMemberAll(s, StatusIs(Pending));
      Filter(s, StatusIs(Pending))
  }

  /** Everything one list item shows about the vote. */
  datatype VoteView = VoteView(
    approvals: nat,
    rejections: nat,
    threshold: int,
    totalMembers: nat,
    yourVote: Option<bool>,
    buttons: bool,
    votedNote: bool,
    closedColor: Option<string>)

  /**
   * `renderTransactionItem`: the vote counts, the member count (0 when the
   * group has no member list), the viewer's own vote (approval wins when they
   * appear in both lists), the buttons or the note, and for a closed item the
   * status colour.
   */
  function ItemView(t: Transaction, members: Option<seq<Member>>, threshold: int, phone: string): (v: VoteView)
    ensures v.approvals == |t.approvals| && v.rejections == |t.rejections| && v.threshold == threshold
    ensures members.None? ==> v.totalMembers == 0
    ensures members.Some? ==> v.totalMembers == |members.value|
    ensures v.yourVote == Some(true) <==> phone in t.approvals
    ensures v.yourVote == Some(false) <==> phone !in t.approvals && phone in t.rejections
    ensures v.yourVote.None? <==> phone !in t.approvals && phone !in t.rejections
    ensures v.buttons <==> t.status == Pending && v.yourVote.None?
    ensures v.votedNote <==> t.status == Pending && v.yourVote.Some?
    ensures v.buttons <==> GroupDetails.VoteButtonsShown(t, phone)
    ensures v.votedNote <==> GroupDetails.VotedNoteShown(t, phone)
    ensures !(v.buttons && v.votedNote)
    ensures v.closedColor.None? <==> t.status == Pending
    ensures v.closedColor == Some(Palette.Green) <==> t.status == Approved
    ensures v.closedColor == Some(Palette.Red) <==> t.status == Rejected || t.status == Paid
  {
    Palette.ColoursDiffer();
    var totalMembers := if members.Some? then |members.value| else 0;
    var userApproved := phone in t.approvals;
    var userRejected := phone in t.rejections;
    VoteView(
      |t.approvals|,
      |t.rejections|,
      threshold,
      totalMembers,
      if userApproved || userRejected then Some(userApproved) else None,
      t.status == Pending && !userApproved && !userRejected,
      t.status == Pending && (userApproved || userRejected),
      if t.status != Pending then Some(if t.status == Approved then Palette.Green else Palette.Red) else None)
  }

  /** Every item of the pending list shows exactly one of the buttons and the note, and no status colour. */
  lemma ListedItemsShowOneControl(txs: Option<seq<Transaction>>, members: Option<seq<Member>>, threshold: int, phone: string)
    ensures forall t :: t in PendingTransactions(txs) ==>
              var v := ItemView(t, members, threshold, phone);
              (v.buttons <==> !v.votedNote) && v.closedColor.None?
  {
    var r := PendingTransactions(txs);
    forall t | t in r
      ensures var v := ItemView(t, members, threshold, phone);
              (v.buttons <==> !v.votedNote) && v.closedColor.None?
    {
      var i :| 0 <= i < |r| && r[i] == t;
    }
  }
}

/**
 * The mobile app's transaction page: the status badge, the voting card while
 * pending, and one of four cards once approved, chosen by the type and by
 * whether the viewer created the transaction.
 */
module TransactionDetails {
  import opened Wrappers
  import opened JsText
  import opened Ledger
  import GroupDetails
  import PendingPayments

  const WaitingForPaymentText := "APPROVED - Waiting for Payment"
  const ReadyForWithdrawalText := "APPROVED - Ready for Withdrawal"

  /** `getStatusText`: an approved transaction names what it waits for; any other shows its status in capitals. */
  function StatusText(t: Transaction): (r: string)
    ensures t.status == Approved && t.kind == Deposit ==> r == WaitingForPaymentText
    ensures t.status == Approved && t.kind == Withdrawal ==> r == ReadyForWithdrawalText
    ensures t.status != Approved ==> r == Upper(StatusName(t.status))
  {
    if t.status == Approved && t.kind == Deposit then WaitingForPaymentText
    else if t.status == Approved && t.kind == Withdrawal then ReadyForWithdrawalText
    else Upper(StatusName(t.status))
  }

  /**
   * The badge text tells the statuses apart, and for an approved transaction
   * also its type: two transactions get the same text exactly when they agree
   * on those.
   */
  lemma StatusTextIdentifies(a: Transaction, b: Transaction)
    ensures StatusText(a) == StatusText(b)
            <==> a.status == b.status && (a.status == Approved ==> a.kind == b.kind)
  {
    assert |WaitingForPaymentText| == 30 && |ReadyForWithdrawalText| == 31;
    assert |StatusName(Pending)| == 7 && |StatusName(Rejected)| == 8 && |StatusName(Paid)| == 4;
    if a.status == b.status && (a.status == Approved ==> a.kind == b.kind) {
      match a.status
      case Approved => {
        match a.kind
        case Deposit =>
        case Withdrawal =>
      }
      case _ =>
    }
  }

  /** `transaction?.createdBy === currentUser?.phone`. */
  predicate IsCreator(t: Transaction, user: Option<string>) {
    PendingPayments.IsCreator(t, user)
  }

  /** The voting card. */
  predicate VotingCardShown(t: Transaction) {
    t.status == Pending
  }

  /** "Complete Payment": the creator's approved deposit. */
  predicate PaymentSectionShown(t: Transaction, user: Option<string>) {
    IsCreator(t, user) && t.status == Approved && t.kind == Deposit
  }

  /** "Complete Withdrawal": the creator's approved withdrawal. */
  predicate WithdrawalSectionShown(t: Transaction, user: Option<string>) {
    IsCreator(t, user) && t.status == Approved && t.kind == Withdrawal
  }

  /** "Waiting for Payment": someone else's approved deposit. */
  predicate WaitingForPaymentShown(t: Transaction, user: Option<string>) {
    !IsCreator(t, user) && t.status == Approved && t.kind == Deposit
  }

  /** "Waiting for Withdrawal": someone else's approved withdrawal. */
  predicate WaitingForWithdrawalShown(t: Transaction, user: Option<string>) {
    !IsCreator(t, user) && t.status == Approved && t.kind == Withdrawal
  }

  function Shown(b: bool): nat {
    if b then 1 else 0
  }

  /**
   * An approved transaction shows exactly one of the four cards, any other
   * none; the voting card shows only while pending, so never beside them; and
   * the creator cards appear for exactly the viewer the group screen gives
   * "Pay Now" or "Withdraw Now".
   */
  lemma SectionsPartition(t: Transaction, user: Option<string>)
    ensures t.status == Approved ==>
              Shown(PaymentSectionShown(t, user)) + Shown(WithdrawalSectionShown(t, user))
              + Shown(WaitingForPaymentShown(t, user)) + Shown(WaitingForWithdrawalShown(t, user)) == 1
    ensures t.status != Approved ==>
              !PaymentSectionShown(t, user) && !WithdrawalSectionShown(t, user)
              && !WaitingForPaymentShown(t, user) && !WaitingForWithdrawalShown(t, user)
    ensures VotingCardShown(t) <==> t.status == Pending
    ensures WaitingForPaymentShown(t, user) <==> t.status == Approved && t.kind == Deposit && !PaymentSectionShown(t, user)
    ensures WaitingForWithdrawalShown(t, user)
            <==> t.status == Approved && t.kind == Withdrawal && !WithdrawalSectionShown(t, user)
    ensures user.Some? ==> (PaymentSectionShown(t, user) <==> GroupDetails.PayNowShown(t, user.value))
    ensures user.Some? ==> (WithdrawalSectionShown(t, user) <==> GroupDetails.WithdrawNowShown(t, user.value))
  {
    match t.kind
    case Deposit =>
    case Withdrawal =>
  }

  /** Who the waiting text names: `createdBy === currentUser?.phone ? 'you' : createdBy`. */
  function WaitingParty(t: Transaction, user: Option<string>): string {
    if IsCreator(t, user) then "you" else t.createdBy
  }

  /** The waiting cards only show to non-creators, so their text always names the creator and never says "you". */
  lemma WaitingCardNamesCreator(t: Transaction, user: Option<string>)
    requires WaitingForPaymentShown(t, user) || WaitingForWithdrawalShown(t, user)
    ensures WaitingParty(t, user) == t.createdBy
  {
  }
}

/** The mobile app's instant payment of an approved deposit. */
module Payment {
  import opened Wrappers
  import opened JsText
  import opened Ledger
  import PendingPayments

  /** How `handleInstantPayment` ends before or at the backend call. */
  datatype PaymentOutcome =
    | InvalidTransaction
    | NotReadyForPayment
    | CompletePayment(paymentId: string, razorpayOrderId: string)

  /**
   * `handleInstantPayment`: the type is checked first, then the status, and
   * only a loaded, approved deposit reaches `completePayment`. Its two ids
   * each carry a clock reading of their own (`Date.now()` is called twice),
   * `paidAt` for the payment id and `orderedAt` for the order id.
   */
  function InstantPayment(tx: Option<Transaction>, paidAt: nat, orderedAt: nat): (r: PaymentOutcome)
    ensures r == InvalidTransaction <==> tx.None? || tx.value.kind != Deposit
    ensures r == NotReadyForPayment <==> tx.Some? && tx.value.kind == Deposit && tx.value.status != Approved
    ensures r.CompletePayment? <==> tx.Some? && tx.value.kind == Deposit && tx.value.status == Approved
    ensures r.CompletePayment? ==>
              r.paymentId == "instant_payment_" + NatToString(paidAt)
              && r.razorpayOrderId == "instant_order_" + NatToString(orderedAt)
  {
    if tx.None? || tx.value.kind != Deposit then InvalidTransaction
    else if tx.value.status != Approved then NotReadyForPayment
    else CompletePayment("instant_payment_" + NatToString(paidAt), "instant_order_" + NatToString(orderedAt))
  }

  /** A group's transaction can be paid exactly when the pending-payments list shows it. */
  lemma PayableIffListed(txs: seq<Transaction>, t: Transaction, paidAt: nat, orderedAt: nat)
    requires t in txs
    ensures InstantPayment(Some(t), paidAt, orderedAt).CompletePayment? <==> t in PendingPayments.PendingPayments(Some(txs))
  {
    var r := PendingPayments.PendingPayments(Some(txs));
    if t in r {
      var i :| 0 <= i < |r| && r[i] == t;
    }
  }
}

/** The mobile app's withdrawal to a UPI (Unified Payments Interface) id. */
module Withdrawal {
  import opened Wrappers
  import opened JsText
  import opened Ledger

  /** A character of the class `[a-zA-Z0-9.\-_]`. */
  predicate IsUpiNameChar(c: char) {
    IsAsciiLetter(c) || IsDigit(c) || c == '.' || c == '-' || c == '_'
  }

  predicate AllUpiNameChars(s: string) {
    forall i :: 0 <= i < |s| ==> IsUpiNameChar(s[i])
  }

  predicate AllLetters(s: string) {
    forall i :: 0 <= i < |s| ==> IsAsciiLetter(s[i])
  }

  /**
   * What `^[a-zA-Z0-9.\-_]{2,256}@[a-zA-Z]{2,64}$` matches: the text splits at
   * some '@' into 2 to 256 name characters and 2 to 64 letters.
   */
  ghost predicate UpiPattern(s: string) {
    exists i :: 0 <= i < |s| && s[i] == '@' && 2 <= i <= 256 && AllUpiNameChars(s[..i])
                && 2 <= |s| - i - 1 <= 64 && AllLetters(s[i + 1..])
  }

  /** `validateUpiId`, reading the text once: the split is at the first '@'. */
  function ValidateUpiId(upi: string): bool {
    var at := IndexOf(upi, '@');
    at < |upi| && 2 <= at <= 256 && AllUpiNameChars(upi[..at])
    && 2 <= |upi| - at - 1 <= 64 && AllLetters(upi[at + 1..])
  }

  /** No name character is '@', so an '@' after a run of them is the first one. */
  lemma FirstAtAfterName(upi: string, i: nat)
    requires i < |upi| && upi[i] == '@' && AllUpiNameChars(upi[..i])
    ensures IndexOf(upi, '@') == i
  {
  }

  /** The check accepts exactly the ids the pattern matches. */
  lemma ValidateUpiIdMatchesPattern(upi: string)
    ensures ValidateUpiId(upi) <==> UpiPattern(upi)
  {
    if UpiPattern(upi) {
      var i :| 0 <= i < |upi| && upi[i] == '@' && 2 <= i <= 256 && AllUpiNameChars(upi[..i])
               && 2 <= |upi| - i - 1 <= 64 && AllLetters(upi[i + 1..]);
      FirstAtAfterName(upi, i);
    }
    if ValidateUpiId(upi) {
      var at := IndexOf(upi, '@');
      assert upi[at] == '@';
    }
  }

  /** How `handleCompleteWithdrawal` ends before or at the backend call. */
  datatype WithdrawalOutcome =
    | InvalidUpiId
    | InvalidWithdrawal
    | NotReadyForWithdrawal
    | CompleteWithdrawal(upiId: string, paymentId: string)

  /**
   * `handleCompleteWithdrawal`: the UPI id is checked before the transaction
   * is looked at, then the type, then the status; the backend receives the id
   * exactly as typed.
   */
  function HandleCompleteWithdrawal(upi: string, tx: Option<Transaction>, now: nat): (r: WithdrawalOutcome)
    ensures r == InvalidUpiId <==> !UpiPattern(upi)
    ensures r == InvalidWithdrawal <==> UpiPattern(upi) && (tx.None? || tx.value.kind != Withdrawal)
    ensures r == NotReadyForWithdrawal
            <==> UpiPattern(upi) && tx.Some? && tx.value.kind == Withdrawal && tx.value.status != Approved
    ensures r.CompleteWithdrawal?
            <==> UpiPattern(upi) && tx.Some? && tx.value.kind == Withdrawal && tx.value.status == Approved
    ensures r.CompleteWithdrawal? ==> r.upiId == upi && r.paymentId == "withdrawal_" + NatToString(now)
  {
    ValidateUpiIdMatchesPattern(upi);
    if !ValidateUpiId(upi) then InvalidUpiId
    else if tx.None? || tx.value.kind != Withdrawal then InvalidWithdrawal
    else if tx.value.status != Approved then NotReadyForWithdrawal
    else CompleteWithdrawal(upi, "withdrawal_" + NatToString(now))
  }
}
