/**
 * The mobile members screen: the admin-only threshold editor and the
 * delete-group gate, which refuses while the paid balance is not zero.
 */
module MobileMembers {
  import opened Wrappers
  import opened JsText
  import opened JsNumber
  import opened Ledger
  import opened Balance
  import Server

  /** What the as-written threshold check lets through; `AcceptedNaN` is a `parseInt` result of NaN. */
  datatype ThresholdEntryAsWritten = AcceptedValue(threshold: int) | AcceptedNaN | RefusedInvalid | RefusedTooLarge

  /**
   * The threshold check as written: `!t.trim() || isNaN(t) || parseInt(t) < 1`,
   * then `threshold > members.length`. Both comparisons are false for NaN.
   */
  function ThresholdInputAsWritten(text: string, members: nat): (r: ThresholdEntryAsWritten)
    ensures r == AcceptedNaN <==> Trim(text) != [] && !NumberIsNaN(text) && ParseInt(text).None?
    ensures r.AcceptedValue? <==> Trim(text) != [] && !NumberIsNaN(text) && ParseInt(text).Some?
                                  && 1 <= ParseInt(text).value <= members
    ensures r.AcceptedValue? ==> r.threshold == ParseInt(text).value
  {
    var parsed := ParseInt(text);
    if Trim(text) == [] || NumberIsNaN(text) || (parsed.Some? && parsed.value < 1) then RefusedInvalid
    else if parsed.None? then AcceptedNaN
    else if parsed.value > members then RefusedTooLarge
    else AcceptedValue(parsed.value)
  }

  /** `.5` is a number to `isNaN` but not to `parseInt`, so the as-written check accepts NaN as the threshold. */
  lemma NaNThresholdAccepted(members: nat)
    ensures ThresholdInputAsWritten(".5", members) == AcceptedNaN
    ensures ThresholdInput(".5", members) == Err(NotAWholeNumber)
  {
    var t := ".5";
    assert TrimStart(t) == t && TrimEnd(t) == t && Trim(t) == t;
    assert SplitSign(t) == (false, t);
    assert DigitRun(t) == [];
    assert ParseInt(t) == None;
    assert t[1..] == "5" && DigitRun("5") == "5";
    assert IsDecimalLiteral(t);
    assert !NumberIsNaN(t);
  }

  datatype ThresholdRefusal = NotAWholeNumber | MoreThanMembers(members: nat)

  /**
   * The threshold check as intended: the text must be a number whose integer
   * part is at least 1, and at most the member count.
   */
  function ThresholdInput(text: string, members: nat): (r: Result<int, ThresholdRefusal>)
    ensures r.Ok? <==> Trim(text) != [] && !NumberIsNaN(text) && ParseInt(text).Some?
                       && 1 <= ParseInt(text).value <= members
    ensures r.Ok? ==> r.value == ParseInt(text).value && 1 <= r.value <= members
  {
    var parsed := ParseInt(text);
    if Trim(text) == [] || NumberIsNaN(text) || parsed.None? || parsed.value < 1 then Err(NotAWholeNumber)
    else if parsed.value > members then Err(MoreThanMembers(members))
    else Ok(parsed.value)
  }

  /** The two checks differ only on text `parseInt` cannot read. */
  lemma ThresholdChecksAgree(text: string, members: nat)
    requires ParseInt(text).Some?
    ensures ThresholdInput(text, members).Ok? <==> ThresholdInputAsWritten(text, members).AcceptedValue?
    ensures ThresholdInput(text, members).Ok? ==>
              ThresholdInputAsWritten(text, members) == AcceptedValue(ThresholdInput(text, members).value)
  {
  }

  /** Typing a member count from 1 up is accepted as that threshold. */
  lemma WholeThresholdAccepted(n: nat, members: nat)
    requires 1 <= n <= members
    ensures ThresholdInput(NatToString(n), members) == Ok(n as int)
  {
    ParseIntOfNatToString(n);
    DigitsNotNaN(NatToString(n));
    TrimDigits(NatToString(n));
  }

  /** How `updateThreshold` ends; `SavedNaN` is a save of `parseInt`'s NaN. */
  datatype ThresholdOutcome = Saved(threshold: int) | SavedNaN | Refused(reason: ThresholdRefusal) | SaveFailed

  /**
   * `updateThreshold` as written: the value the as-written check lets through
   * is sent to the backend (`saved` is whether that call succeeded) and only
   * then copied into the screen's group. NaN is sent and saved too; a group's
   * threshold here is an integer, so the group is left as it was in that case.
   */
  function UpdateThresholdAsWritten(g: Group, text: string, saved: bool): (r: (Group, ThresholdOutcome))
    ensures r.1 == SavedNaN <==> saved && ThresholdInputAsWritten(text, |g.members|) == AcceptedNaN
    ensures r.1.Saved? <==> saved && ThresholdInputAsWritten(text, |g.members|).AcceptedValue?
    ensures r.1.Saved? ==> r.0 == g.(approvalThreshold := r.1.threshold) && 1 <= r.1.threshold <= |g.members|
    ensures r.1 == SaveFailed <==>
              !saved && (ThresholdInputAsWritten(text, |g.members|) == AcceptedNaN
                         || ThresholdInputAsWritten(text, |g.members|).AcceptedValue?)
    ensures !r.1.Saved? ==> r.0 == g
  {
    match ThresholdInputAsWritten(text, |g.members|)
    case RefusedInvalid => (g, Refused(NotAWholeNumber))
    case RefusedTooLarge => (g, Refused(MoreThanMembers(|g.members|)))
    case AcceptedNaN => if saved then (g, SavedNaN) else (g, SaveFailed)
    case AcceptedValue(t) => if saved then (g.(approvalThreshold := t), Saved(t)) else (g, SaveFailed)
  }

  /** On `.5` the screen as written saves NaN, where the corrected flow refuses. */
  lemma NaNThresholdSaved(g: Group)
    ensures UpdateThresholdAsWritten(g, ".5", true).1 == SavedNaN
    ensures UpdateThreshold(g, ".5", true).1 == Refused(NotAWholeNumber)
  {
    NaNThresholdAccepted(|g.members|);
  }

  /** On text `parseInt` can read, the screen as written and the corrected flow end alike. */
  lemma UpdatesAgreeOnReadableText(g: Group, text: string, saved: bool)
    requires ParseInt(text).Some?
    ensures UpdateThresholdAsWritten(g, text, saved) == UpdateThreshold(g, text, saved)
  {
  }

  /**
   * The body `api.updateGroup` sends, `JSON.stringify({ approvalThreshold })`:
   * NaN is written as `null`, and the vote routes' `approvalCount >= null`
   * compares the count with 0, so the stored threshold reads as 0.
   */
  function SentThreshold(o: ThresholdOutcome): (p: Server.GroupPatch)
    requires o.Saved? || o == SavedNaN
    ensures p.approvalThreshold == Some(if o.Saved? then o.threshold else 0)
    ensures p.name.None? && p.code.None? && p.members.None? && p.transactions.None?
  {
    Server.GroupPatch(None, None, None, Some(if o.Saved? then o.threshold else 0), None, None, None, None)
  }

  /**
   * The save goes through `api.updateGroup`, the backend's PUT route with the
   * body `{approvalThreshold}`: on the stored group that route makes the same
   * change the screen makes to its copy, and it checks neither the requester
   * nor the bounds.
   */
  lemma SavedThresholdGoesThroughPut(groups: seq<Group>, gi: nat, text: string)
    requires gi < |groups| && Server.GroupIndex(groups, groups[gi].id) == Some(gi)
    requires UpdateThresholdAsWritten(groups[gi], text, true).1.Saved?
    ensures var r := UpdateThresholdAsWritten(groups[gi], text, true);
            Server.UpdateOn(groups, groups[gi].id, SentThreshold(r.1)).0 == Ok(r.0)
  {
  }

  /**
   * Once the screen as written has saved NaN, the backend approves a pending
   * transaction of that group on its next vote, even when that vote is a
   * rejection.
   */
  lemma NaNSaveApprovesEveryVote(groups: seq<Group>, gi: nat, text: string, ti: nat,
                                 voter: string, approve: bool, now: int)
    requires gi < |groups| && Server.GroupIndex(groups, groups[gi].id) == Some(gi)
    requires UpdateThresholdAsWritten(groups[gi], text, true).1 == SavedNaN
    requires ti < |groups[gi].transactions| && groups[gi].transactions[ti].status == Pending
    requires Server.TransactionIndex(groups[gi].transactions, groups[gi].transactions[ti].id) == Some(ti)
    ensures var stored := Server.UpdateOn(groups, groups[gi].id, SentThreshold(SavedNaN)).1;
            var r := Server.VoteOn(stored, groups[gi].id, groups[gi].transactions[ti].id, voter, approve, now);
            && r.0.Ok?
            && r.0.value.transaction.status == Approved
            && voter in (if approve then r.0.value.transaction.approvals else r.0.value.transaction.rejections)
  {
    var id := groups[gi].id;
    var stored := Server.UpdateOn(groups, id, SentThreshold(SavedNaN)).1;
    assert stored[gi].id == id;
    assert Server.GroupIndex(stored, id) == Some(gi);
    assert stored[gi].transactions == groups[gi].transactions;
    assert stored[gi].approvalThreshold == 0;
  }

  /**
   * `updateThreshold` with the threshold check corrected: the checked value is
   * sent to the backend (`saved` is whether that call succeeded) and only then
   * copied into the screen's group.
   */
  function UpdateThreshold(g: Group, text: string, saved: bool): (r: (Group, ThresholdOutcome))
    ensures r.1.Saved? <==> saved && ThresholdInput(text, |g.members|).Ok?
    ensures r.1.Saved? ==> r.0 == g.(approvalThreshold := r.1.threshold) && 1 <= r.1.threshold <= |g.members|
    ensures !r.1.Saved? ==> r.0 == g
  {
    match ThresholdInput(text, |g.members|)
    case Err(e) => (g, Refused(e))
    case Ok(t) => if saved then (g.(approvalThreshold := t), Saved(t)) else (g, SaveFailed)
  }

  /** How `handleDeleteGroup` ends. */
  datatype DeleteStep = BalanceNotZero(balance: real) | Cancelled | DeleteRequested

  /** The delete gate: refused on a non-zero paid balance; otherwise deleted once the user confirms. */
  function DeleteGroupFlow(txs: Option<seq<Transaction>>, confirmed: bool): (r: DeleteStep)
    ensures r == DeleteRequested <==> PaidBalance(txs) == 0.0 && confirmed
    ensures r.BalanceNotZero? <==> PaidBalance(txs) != 0.0
    ensures r.BalanceNotZero? ==> r.balance == PaidBalance(txs)
  {
    var balance := PaidBalance(txs);
    if balance != 0.0 then BalanceNotZero(balance)
    else if confirmed then DeleteRequested
    else Cancelled
  }

  /** `isAdmin = group.createdBy === currentUser.phone`: shows the settings section. */
  predicate ViewerIsAdmin(g: Group, phone: string) {
    g.createdBy == phone
  }

  /**
   * The screen shows the settings to exactly the requester the backend's admin
   * threshold route accepts. The screen itself saves through the PUT route,
   * which checks no requester (`Server.UpdateBypassesThresholdChecks`).
   */
  lemma AdminMatchesBackend(groups: seq<Group>, gi: nat, phone: string, newThreshold: int)
    requires gi < |groups| && Server.GroupIndex(groups, groups[gi].id) == Some(gi)
    ensures ViewerIsAdmin(groups[gi], phone)
            <==> Server.SetThresholdOn(groups, groups[gi].id, newThreshold, phone).0 != Err(Server.NotAdmin)
  {
  }
}

/**
 * The older app's members screen: the same threshold editor, and a delete
 * gate on the approved-only balance.
 */
module LegacyMembers {
  import opened Wrappers
  import opened Ledger
  import opened Balance
  import opened MobileMembers

  /** The older app's delete gate. */
  function LegacyDeleteGroupFlow(txs: Option<seq<Transaction>>, confirmed: bool): (r: DeleteStep)
    ensures r == DeleteRequested <==> ApprovedBalance(txs) == 0.0 && confirmed
    ensures r.BalanceNotZero? <==> ApprovedBalance(txs) != 0.0
    ensures r.BalanceNotZero? ==> r.balance == ApprovedBalance(txs)
  {
    var balance := ApprovedBalance(txs);
    if balance != 0.0 then BalanceNotZero(balance)
    else if confirmed then DeleteRequested
    else Cancelled
  }

  /** On a group whose only transaction is an approved, unpaid deposit, the older app refuses the delete the mobile app allows. */
  lemma DeleteGatesDisagree(t: Transaction)
    requires t.status == Approved && t.kind == Deposit && t.amount > 0.0
    ensures DeleteGroupFlow(Some([t]), true) == DeleteRequested
    ensures LegacyDeleteGroupFlow(Some([t]), true) == BalanceNotZero(t.amount)
  {
    BalancesDisagree(t);
  }
}
