/**
 * The older `group-wallet` app's new-transaction form. It checks the amount,
 * refuses a withdrawal larger than the approved-only balance, and appends the
 * new pending request to its own copy of the list before sending the whole
 * list to the backend.
 */
module LegacyTransactions {
  import opened Wrappers
  import opened JsText
  import opened JsNumber
  import opened Ledger
  import opened Balance

  /** `!amount.trim() || isNaN(parseFloat(amount)) || parseFloat(amount) <= 0`, negated. */
  predicate AmountAccepted(text: string) {
    Trim(text) != [] && ParseFloat(text).Some? && ParseFloat(text).value > 0.0
  }

  /** A blank amount already fails to parse, so the blank test never decides on its own. */
  lemma BlankAmountUnparsable(text: string)
    requires Trim(text) == []
    ensures ParseFloat(text).None?
  {
    BlankIffAllSpace(text);
    TrimStartOfSpaces(text);
  }

  /** Text made of white space is consumed entirely by `trimStart`. */
  lemma {:induction false} TrimStartOfSpaces(text: string)
    requires AllSpace(text)
    ensures TrimStart(text) == []
  {
    if text != [] {
      TrimStartOfSpaces(text[1..]);
    }
  }

  /** How `handleCreateTransaction` ends. */
  datatype CreateOutcome =
    | InvalidAmount
    | InsufficientBalance(requested: real, available: real)
    | Created(transactions: seq<Transaction>)

  /**
   * The record the form builds: pending, no votes, the trimmed description,
   * the user's name as creator. The id and the creation time come from two
   * clock readings (`Date.now()` and `new Date()`), `idAt` and `createdAt`.
   */
  function NewRequest(kind: Kind, amount: real, description: string, userName: string,
                      idAt: nat, createdAt: nat): Transaction
  {
    Transaction(NatToString(idAt), kind, amount, Trim(description), Pending, userName, createdAt,
                [], [], None, None, None, None)
  }

  /**
   * `handleCreateTransaction`: `idAt` and `createdAt` are the two clock
   * readings behind the id and the creation time. Only a withdrawal is compared with the balance, and an
   * amount equal to the balance passes.
   */
  function CreateTransaction(txs: Option<seq<Transaction>>, kind: Kind, amountText: string,
                             description: string, userName: string, idAt: nat, createdAt: nat): (r: CreateOutcome)
    ensures r == InvalidAmount <==> !AmountAccepted(amountText)
    ensures r.InsufficientBalance? <==>
              AmountAccepted(amountText) && kind == Withdrawal && ParseFloat(amountText).value > ApprovedBalance(txs)
    ensures r.InsufficientBalance? ==>
              r.requested == ParseFloat(amountText).value && r.available == ApprovedBalance(txs)
    ensures r.Created? ==>
              var before := txs.GetOr([]);
              && |r.transactions| == |before| + 1
              && r.transactions[..|before|] == before
              && var t := r.transactions[|before|];
              && t.status == Pending && t.approvals == [] && t.rejections == []
              && t.kind == kind && t.amount == ParseFloat(amountText).value
              && t.description == Trim(description) && t.createdBy == userName
              && t.id == NatToString(idAt) && t.createdAt == createdAt
  {
    if !AmountAccepted(amountText) then InvalidAmount
    else
      var amount := ParseFloat(amountText).value;
      if kind == Withdrawal && amount > ApprovedBalance(txs) then InsufficientBalance(amount, ApprovedBalance(txs))
      else
        var before := txs.GetOr([]);
        assert (before + [NewRequest(kind, amount, description, userName, idAt, createdAt)])[..|before|] == before;
        Created(before + [NewRequest(kind, amount, description, userName, idAt, createdAt)])
  }

  /** A deposit with a valid amount is always created; a withdrawal of the whole balance is too. */
  lemma BalanceGateOnlyOnWithdrawals(txs: Option<seq<Transaction>>, amountText: string, description: string,
                                     userName: string, idAt: nat, createdAt: nat)
    requires AmountAccepted(amountText)
    ensures CreateTransaction(txs, Deposit, amountText, description, userName, idAt, createdAt).Created?
    ensures ParseFloat(amountText).value == ApprovedBalance(txs) ==>
              CreateTransaction(txs, Withdrawal, amountText, description, userName, idAt, createdAt).Created?
  {
  }

  /** Appending a pending request leaves the approved-only balance as it was. */
  lemma AppendPendingKeepsBalance(before: seq<Transaction>, t: Transaction)
    requires t.status == Pending
    ensures ApprovedBalance(Some(before + [t])) == ApprovedBalance(Some(before))
  {
    ApprovedBalanceInsert(before, t, []);
    assert before + [t] + [] == before + [t];
    assert before + [] == before;
  }

  /**
   * A new request is pending, so it leaves the approved-only balance where it
   * was: a withdrawal that passes the gate cannot push that balance below zero
   * until it is approved.
   */
  lemma CreatingKeepsBalance(txs: Option<seq<Transaction>>, kind: Kind, amountText: string,
                             description: string, userName: string, idAt: nat, createdAt: nat)
    requires CreateTransaction(txs, kind, amountText, description, userName, idAt, createdAt).Created?
    ensures ApprovedBalance(Some(CreateTransaction(txs, kind, amountText, description, userName, idAt, createdAt).transactions))
            == ApprovedBalance(txs)
  {
    var r := CreateTransaction(txs, kind, amountText, description, userName, idAt, createdAt);
    var before := txs.GetOr([]);
    var t := r.transactions[|before|];
    assert r.transactions == before + [t];
    AppendPendingKeepsBalance(before, t);
    if txs.None? {
      assert Filter(before, IsApprovedStatus) == [];
    }
  }
}

/**
 * The older app's group-creation form: a random six-character join code, a
 * name and a threshold check, and the payload sent to the backend.
 */
module LegacyCreateGroup {
  import opened Wrappers
  import opened JsText
  import opened JsNumber
  import opened Ledger
  import Server

  const CodeChars := "ABCDEFGHIJKLMNOPQRSTUVWXYZ0123456789"

  /** A value `Math.random()` can return. */
  predicate IsDraw(d: real) {
    0.0 <= d < 1.0
  }

  /** `Math.floor(d * chars.length)`. */
  function CharIndex(d: real): (k: nat)
    requires IsDraw(d)
    ensures k < |CodeChars|
  {
    (d * 36.0).Floor
  }

  /** The code a sequence of draws produces, one character per draw. */
  function CodeFor(draws: seq<real>): (code: string)
    requires forall i :: 0 <= i < |draws| ==> IsDraw(draws[i])
  {
    seq(|draws|, i requires 0 <= i < |draws| => CodeChars[CharIndex(draws[i])])
  }

  /** The code alphabet is the capital letters followed by the digits. */
  lemma CodeCharsSpan()
    ensures forall k :: 0 <= k < 26 ==> CodeChars[k] == ('A' as int + k) as char
    ensures forall k :: 26 <= k < 36 ==> CodeChars[k] == ('0' as int + k - 26) as char
  {
  }

  /**
   * `generateGroupCode`: six draws from the random source, each picking one
   * character of the alphabet.
   */
  method GenerateGroupCode(draws: seq<real>) returns (code: string)
    requires |draws| == 6 && forall i :: 0 <= i < 6 ==> IsDraw(draws[i])
    ensures code == CodeFor(draws)
    ensures |code| == 6 && forall i :: 0 <= i < 6 ==> ('A' <= code[i] <= 'Z' || IsDigit(code[i]))
  {
    CodeCharsSpan();
    code := "";
    var i := 0;
    while i < 6
      invariant 0 <= i <= 6
      invariant |code| == i
      invariant forall j :: 0 <= j < i ==> code[j] == CodeChars[CharIndex(draws[j])]
    {
      code := code + [CodeChars[CharIndex(draws[i])]];
      i := i + 1;
    }
  }

  /** The draw that picks the character at index `k`. */
  function DrawFor(k: nat): (d: real)
    requires k < 36
    ensures IsDraw(d) && CharIndex(d) == k
  {
    k as real / 36.0
  }

  /** Every six-character code over the alphabet comes out of some draws. */
  lemma EveryCodeReachable(code: string)
    requires |code| == 6 && forall i :: 0 <= i < 6 ==> code[i] in CodeChars
    ensures var draws := seq(6, i requires 0 <= i < 6 => DrawFor(IndexOf(CodeChars, code[i])));
            (forall i :: 0 <= i < 6 ==> IsDraw(draws[i])) && CodeFor(draws) == code
  {
    var draws := seq(6, i requires 0 <= i < 6 => DrawFor(IndexOf(CodeChars, code[i])));
    assert forall i :: 0 <= i < 6 ==> IsDraw(draws[i]);
    forall i | 0 <= i < 6
      ensures CodeFor(draws)[i] == code[i]
    {
      var k := IndexOf(CodeChars, code[i]);
      assert CodeChars[k] == code[i];
    }
  }

  /** What `handleCreateGroup` sends. */
  datatype GroupPayload = GroupPayload(
    name: string,
    code: string,
    approvalThreshold: int,
    members: seq<Member>,
    createdBy: string)

  datatype CreateGroupError = NameRequired | ThresholdBelowOne

  /** The selection the form starts with: the signed-in user alone. */
  function InitialSelection(user: Member): seq<Member> {
    [user]
  }

  /**
   * `handleCreateGroup`: a name that is blank once trimmed is refused, then a
   * threshold that is not a number or is below 1. Nothing bounds the threshold
   * by the number of selected members.
   */
  function HandleCreateGroup(groupName: string, thresholdText: string, code: string,
                             selected: seq<Member>, user: Member): (r: Result<GroupPayload, CreateGroupError>)
    ensures r == Err(NameRequired) <==> Trim(groupName) == []
    ensures r == Err(ThresholdBelowOne) <==>
              Trim(groupName) != [] && (ParseInt(thresholdText).None? || ParseInt(thresholdText).value < 1)
    ensures r.Ok? ==>
              && r.value.name == Trim(groupName) && r.value.code == code
              && r.value.approvalThreshold == ParseInt(thresholdText).value >= 1
              && r.value.members == selected && r.value.createdBy == user.phone
  {
    if Trim(groupName) == [] then Err(NameRequired)
    else
      var threshold := ParseInt(thresholdText);
      if threshold.None? || threshold.value < 1 then Err(ThresholdBelowOne)
      else Ok(GroupPayload(Trim(groupName), code, threshold.value, selected, user.phone))
  }

  /** A threshold above the member count passes the form. */
  lemma ThresholdUnbounded(groupName: string, n: nat, selected: seq<Member>, user: Member)
    requires Trim(groupName) != [] && n >= 1
    ensures HandleCreateGroup(groupName, NatToString(n), "", selected, user).Ok?
  {
    ParseIntOfNatToString(n);
  }

  /** The backend request the payload becomes, the threshold travelling as its decimal text. */
  function AsRequest(p: GroupPayload): Server.GroupRequest
    requires p.approvalThreshold >= 1
  {
    Server.GroupRequest(p.name, p.code, Some(NatToString(p.approvalThreshold)), Some(p.members), p.createdBy)
  }

  /**
   * A payload the form accepts, sent with a code no group uses, creates a group
   * with exactly the form's name, code, threshold, members and creator, and an
   * empty ledger.
   */
  lemma AcceptedPayloadCreatesGroup(groups: seq<Group>, groupName: string, thresholdText: string, code: string,
                                    selected: seq<Member>, user: Member, freshId: string, now: int)
    requires HandleCreateGroup(groupName, thresholdText, code, selected, user).Ok?
    requires !Server.CodeInUse(groups, code)
    ensures var p := HandleCreateGroup(groupName, thresholdText, code, selected, user).value;
            var r := Server.CreateGroupOn(groups, AsRequest(p), freshId, now);
            && r.0.Ok?
            && r.0.value.name == p.name && r.0.value.code == code
            && r.0.value.approvalThreshold == p.approvalThreshold
            && r.0.value.members == selected && r.0.value.createdBy == user.phone
            && r.0.value.transactions == []
  {
    var p := HandleCreateGroup(groupName, thresholdText, code, selected, user).value;
    Server.ThresholdKeepsPositive(p.approvalThreshold);
  }
}
