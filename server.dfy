/**
 * The backend's in-memory store: a list of groups, each holding its members
 * and transactions, and the live route handlers that read and change it.
 * Each handler is specified by a function from the old list of groups to its
 * response and the new list; `GroupStore`'s methods carry the handlers out
 * step by step and are proved to end in exactly that state. HTTP status codes
 * become the constructors of `Error`.
 */
module Server {
  import opened Wrappers
  import opened JsText
  import opened JsNumber
  import opened Ledger
  import opened Voting

  datatype Error =
    | GroupNotFound                      // 404
    | TransactionNotFound                // 404
    | VoteRefused(reason: VoteError)     // 400
    | InvalidType                        // 400
    | InvalidAmount                      // 400
    | CodeExists                         // 400
    | AlreadyMember                      // 400
    | NotAdmin                           // 403
    | ThresholdOutOfRange(members: nat)  // 400 "Threshold must be between 1 and <members>"

  /** `groups.find(g => g.id === id)` / `groups.findIndex(...)`. */
  function GroupIndex(groups: seq<Group>, id: string): Option<nat> {
    FirstIndex(groups, (g: Group) => g.id == id)
  }

  /** `group.transactions.find(t => t.id === id)`. */
  function TransactionIndex(txs: seq<Transaction>, id: string): Option<nat> {
    FirstIndex(txs, (t: Transaction) => t.id == id)
  }

  /** The groups other than the one at `gi` are as they were. */
  predicate OnlyGroupChanged(before: seq<Group>, after: seq<Group>, gi: nat) {
    |after| == |before| && gi < |before| && forall i :: 0 <= i < |before| && i != gi ==> after[i] == before[i]
  }

  /** Every vote list in the store is well-formed. */
  predicate StoreWellFormed(groups: seq<Group>) {
    forall i, j :: 0 <= i < |groups| && 0 <= j < |groups[i].transactions| ==> WellFormedVotes(groups[i].transactions[j])
  }

  // ---------------------------------------------------------------- voting routes

  datatype VoteResponse = VoteResponse(transaction: Transaction, votingStatus: VotingStatus)

  /**
   * The live approve (`approve`) or reject route: the response, and the store
   * after it. The first group with the id and, in it, the first transaction
   * with the id are the ones voted on.
   */
  function VoteOn(groups: seq<Group>, groupId: string, transactionId: string, voter: string, approve: bool, now: int)
    : (r: (Result<VoteResponse, Error>, seq<Group>))
    ensures r.0.Err? ==> r.1 == groups
    ensures GroupIndex(groups, groupId).None? <==> r.0 == Err(GroupNotFound)
    ensures r.0 == Err(TransactionNotFound) <==>
              GroupIndex(groups, groupId).Some?
              && TransactionIndex(groups[GroupIndex(groups, groupId).value].transactions, transactionId).None?
    ensures r.0.Ok? <==>
              GroupIndex(groups, groupId).Some?
              && var g := groups[GroupIndex(groups, groupId).value];
              && TransactionIndex(g.transactions, transactionId).Some?
              && g.transactions[TransactionIndex(g.transactions, transactionId).value].status == Pending
    ensures r.0.Ok? ==>
              var gi := GroupIndex(groups, groupId).value;
              var g := groups[gi];
              TransactionIndex(g.transactions, transactionId).Some? &&
              var ti := TransactionIndex(g.transactions, transactionId).value;
              && OnlyGroupChanged(groups, r.1, gi)
              && r.1[gi] == g.(transactions := g.transactions[ti := r.0.value.transaction])
              && g.transactions[ti].status == Pending
              && Ok((r.0.value.transaction, r.0.value.votingStatus))
                 == CastVote(g.transactions[ti], voter, approve, |g.members|, g.approvalThreshold, now)
  {
    match GroupIndex(groups, groupId)
    case None => (Err(GroupNotFound), groups)
    case Some(gi) =>
      var g := groups[gi];
      match TransactionIndex(g.transactions, transactionId)
      case None => (Err(TransactionNotFound), groups)
      case Some(ti) =>
        match CastVote(g.transactions[ti], voter, approve, |g.members|, g.approvalThreshold, now)
        case Err(e) => (Err(VoteRefused(e)), groups)
        case Ok((u, vs)) => (Ok(VoteResponse(u, vs)), groups[gi := g.(transactions := g.transactions[ti := u])])
  }

  /** A vote on a transaction that is no longer pending is refused with its status and changes nothing. */
  lemma VoteOnFinalIsRefused(groups: seq<Group>, groupId: string, transactionId: string, voter: string, approve: bool, now: int)
    requires GroupIndex(groups, groupId).Some?
    requires TransactionIndex(groups[GroupIndex(groups, groupId).value].transactions, transactionId).Some?
    requires var g := groups[GroupIndex(groups, groupId).value];
             g.transactions[TransactionIndex(g.transactions, transactionId).value].status != Pending
    ensures var g := groups[GroupIndex(groups, groupId).value];
            var t := g.transactions[TransactionIndex(g.transactions, transactionId).value];
            VoteOn(groups, groupId, transactionId, voter, approve, now) == (Err(VoteRefused(NotPending(t.status))), groups)
  {
  }

  /** Votes keep every vote list in the store well-formed. */
  lemma VoteOnPreservesStore(groups: seq<Group>, groupId: string, transactionId: string, voter: string, approve: bool, now: int)
    requires StoreWellFormed(groups)
    ensures StoreWellFormed(VoteOn(groups, groupId, transactionId, voter, approve, now).1)
  {
    var r := VoteOn(groups, groupId, transactionId, voter, approve, now);
    if r.0.Ok? {
      var gi := GroupIndex(groups, groupId).value;
      var g := groups[gi];
      var ti := TransactionIndex(g.transactions, transactionId).value;
      VotePreservesWellFormed(g.transactions[ti], voter, approve, |g.members|, g.approvalThreshold, now);
      assert WellFormedVotes(r.1[gi].transactions[ti]);
    }
  }

  // ---------------------------------------------------------------- transactions

  /** The body of a create-transaction request; `amount` is absent when the body has none. */
  datatype TransactionRequest = TransactionRequest(
    kind: string,
    amount: Option<real>,
    description: Option<string>,
    createdBy: string)

  /** `['deposit', 'withdrawal'].includes(type)`. */
  function ParseKind(s: string): (r: Option<Kind>)
    ensures r == Some(Deposit) <==> s == "deposit"
    ensures r == Some(Withdrawal) <==> s == "withdrawal"
  {
    if s == "deposit" then Some(Deposit) else if s == "withdrawal" then Some(Withdrawal) else None
  }

  /** `!amount || amount <= 0` rejects a missing, zero or negative amount. */
  predicate ValidAmount(amount: Option<real>) {
    amount.Some? && amount.value > 0.0
  }

  /** The record the route appends: pending, with no votes, stamped with the id and time it is given. */
  function NewTransaction(req: TransactionRequest, kind: Kind, id: string, now: int): (t: Transaction)
    requires ValidAmount(req.amount)
    ensures t.status == Pending && t.approvals == [] && t.rejections == [] && WellFormedVotes(t)
    ensures t.kind == kind && t.amount == req.amount.value && t.createdBy == req.createdBy && t.id == id
    ensures t.description == (if req.description.Some? then req.description.value else "")
  {
    Transaction(id, kind, req.amount.value, req.description.GetOr(""), Pending, req.createdBy, now,
                [], [], None, None, None, None)
  }

  /** The create-transaction route: the group, then the type, then the amount are checked, in that order. */
  function CreateTransactionOn(groups: seq<Group>, groupId: string, req: TransactionRequest, freshId: string, now: int)
    : (r: (Result<Transaction, Error>, seq<Group>))
    ensures r.0.Err? ==> r.1 == groups
    ensures GroupIndex(groups, groupId).None? ==> r.0 == Err(GroupNotFound)
    ensures GroupIndex(groups, groupId).Some? && ParseKind(req.kind).None? ==> r.0 == Err(InvalidType)
    ensures GroupIndex(groups, groupId).Some? && ParseKind(req.kind).Some? && !ValidAmount(req.amount)
            ==> r.0 == Err(InvalidAmount)
    ensures r.0.Ok? <==> GroupIndex(groups, groupId).Some? && ParseKind(req.kind).Some? && ValidAmount(req.amount)
    ensures r.0.Ok? ==>
              var gi := GroupIndex(groups, groupId).value;
              && OnlyGroupChanged(groups, r.1, gi)
              && r.1[gi] == groups[gi].(transactions := groups[gi].transactions + [r.0.value])
              && r.0.value == NewTransaction(req, ParseKind(req.kind).value, freshId, now)
  {
    match GroupIndex(groups, groupId)
    case None => (Err(GroupNotFound), groups)
    case Some(gi) =>
      match ParseKind(req.kind)
      case None => (Err(InvalidType), groups)
      case Some(kind) =>
        if !ValidAmount(req.amount) then (Err(InvalidAmount), groups)
        else
          var t := NewTransaction(req, kind, freshId, now);
          (Ok(t), groups[gi := groups[gi].(transactions := groups[gi].transactions + [t])])
  }

  /** Creating a transaction keeps the earlier ones, in order, and the store's vote lists well-formed. */
  lemma CreateTransactionKeepsHistory(groups: seq<Group>, groupId: string, req: TransactionRequest, freshId: string, now: int)
    requires StoreWellFormed(groups)
    ensures var r := CreateTransactionOn(groups, groupId, req, freshId, now);
            StoreWellFormed(r.1)
            && (r.0.Ok? ==> var gi := GroupIndex(groups, groupId).value;
                            |r.1[gi].transactions| == |groups[gi].transactions| + 1
                            && r.1[gi].transactions[..|groups[gi].transactions|] == groups[gi].transactions)
  {
    var r := CreateTransactionOn(groups, groupId, req, freshId, now);
    if r.0.Ok? {
      var gi := GroupIndex(groups, groupId).value;
      assert r.1[gi].transactions[..|groups[gi].transactions|] == groups[gi].transactions;
      forall i, j | 0 <= i < |r.1| && 0 <= j < |r.1[i].transactions|
        ensures WellFormedVotes(r.1[i].transactions[j])
      {
        if i == gi && j == |groups[gi].transactions| {
          assert r.1[i].transactions[j] == r.0.value;
        }
      }
    }
  }

  // ---------------------------------------------------------------- groups

  /** The body of a create-group request; `approvalThreshold` is the text of the value sent, if any. */
  datatype GroupRequest = GroupRequest(
    name: string,
    code: string,
    approvalThreshold: Option<string>,
    members: Option<seq<Member>>,
    createdBy: string)

  /** `parseInt(x) || 2`: a missing, unparsable or zero threshold becomes 2. */
  function ThresholdOrDefault(x: Option<string>): (r: int)
    ensures r != 0
  {
    if x.None? then 2
    else match ParseInt(x.value)
      case None => 2
      case Some(n) => if n == 0 then 2 else n
  }

  /** A missing, blank or zero threshold becomes the default of 2. */
  lemma ThresholdDefaultCases()
    ensures ThresholdOrDefault(None) == 2
    ensures ThresholdOrDefault(Some("0")) == 2
    ensures ThresholdOrDefault(Some("")) == 2
  {
    assert TrimStart("") == "" && SplitSign("") == (false, "") && DigitRun("") == [];
    assert ParseInt("") == None;
    ParseDigits("0");
    assert DigitsValue("0") == 0;
    assert ParseInt("0") == Some(0);
  }

  /** A positive integer's text is kept as the threshold. */
  lemma ThresholdKeepsPositive(n: nat)
    requires n >= 1
    ensures ThresholdOrDefault(Some(NatToString(n))) == n
  {
    ParseIntOfNatToString(n);
  }

  /** A negative integer passes through too: `parseInt("-n") || 2` is `-n`. */
  lemma ThresholdKeepsNegative(n: nat)
    requires n >= 1
    ensures ThresholdOrDefault(Some("-" + NatToString(n))) == -(n as int)
  {
    var s := NatToString(n);
    NatToStringRoundTrip(n);
    assert TrimStart("-" + s) == "-" + s;
    assert SplitSign("-" + s) == (true, s);
    DigitRunOfDigits(s);
  }

  function NewGroup(req: GroupRequest, id: string, now: int): (g: Group)
    ensures g.transactions == [] && g.code == req.code && g.createdBy == req.createdBy
    ensures g.members == req.members.GetOr([]) && g.approvalThreshold == ThresholdOrDefault(req.approvalThreshold)
  {
    Group(id, req.name, req.code, ThresholdOrDefault(req.approvalThreshold), req.members.GetOr([]), [], now, req.createdBy)
  }

  predicate CodeInUse(groups: seq<Group>, code: string) {
    exists i :: 0 <= i < |groups| && groups[i].code == code
  }

  /** No two groups share a code. */
  predicate UniqueCodes(groups: seq<Group>) {
    forall i, j :: 0 <= i < j < |groups| ==> groups[i].code != groups[j].code
  }

  /** The create-group route: a code already in use is refused; otherwise the new group goes last. */
  function CreateGroupOn(groups: seq<Group>, req: GroupRequest, freshId: string, now: int)
    : (r: (Result<Group, Error>, seq<Group>))
    ensures r.0.Err? <==> CodeInUse(groups, req.code)
    ensures r.0.Err? ==> r.0.error == CodeExists && r.1 == groups
    ensures r.0.Ok? ==> r.1 == groups + [r.0.value] && r.0.value == NewGroup(req, freshId, now)
    ensures UniqueCodes(groups) ==> UniqueCodes(r.1)
  {
    if CodeInUse(groups, req.code) then (Err(CodeExists), groups)
    else
      var g := NewGroup(req, freshId, now);
      (Ok(g), groups + [g])
  }

  /** The user sent with a join request. */
  datatype JoinUser = JoinUser(id: Option<string>, name: string, phone: string)

  predicate HasPhone(members: seq<Member>, phone: string) {
    exists i :: 0 <= i < |members| && members[i].phone == phone
  }

  /** No two members of a group share a phone. */
  predicate UniquePhones(members: seq<Member>) {
    forall i, j :: 0 <= i < j < |members| ==> members[i].phone != members[j].phone
  }

  /** The member record a join appends: `user.id || uuid`, never an admin. */
  function JoinedMember(user: JoinUser, freshId: string): (m: Member)
    ensures m.name == user.name && m.phone == user.phone && !m.isAdmin
    ensures m.id == (if user.id.Some? && user.id.value != "" then user.id.value else freshId)
  {
    Member(if user.id.Some? && user.id.value != "" then user.id.value else freshId, user.name, user.phone, false)
  }

  /** The join route: first group with the code; a phone already among its members is refused. */
  function JoinOn(groups: seq<Group>, code: string, user: JoinUser, freshId: string)
    : (r: (Result<Group, Error>, seq<Group>))
    ensures r.0.Err? ==> r.1 == groups
    ensures FirstIndex(groups, (g: Group) => g.code == code).None? <==> r.0 == Err(GroupNotFound)
    ensures r.0 == Err(AlreadyMember) <==>
              (var gi := FirstIndex(groups, (g: Group) => g.code == code);
               gi.Some? && HasPhone(groups[gi.value].members, user.phone))
    ensures r.0.Ok? <==>
              (var gi := FirstIndex(groups, (g: Group) => g.code == code);
               gi.Some? && !HasPhone(groups[gi.value].members, user.phone))
    ensures r.0.Ok? ==>
              var gi := FirstIndex(groups, (g: Group) => g.code == code).value;
              && OnlyGroupChanged(groups, r.1, gi)
              && r.1[gi] == r.0.value
              && r.0.value == groups[gi].(members := groups[gi].members + [JoinedMember(user, freshId)])
              && (UniquePhones(groups[gi].members) ==> UniquePhones(r.0.value.members))
  {
    match FirstIndex(groups, (g: Group) => g.code == code)
    case None => (Err(GroupNotFound), groups)
    case Some(gi) =>
      if HasPhone(groups[gi].members, user.phone) then (Err(AlreadyMember), groups)
      else
        var g := groups[gi].(members := groups[gi].members + [JoinedMember(user, freshId)]);
        (Ok(g), groups[gi := g])
  }

  /**
   * A PUT body: each field present replaces the group's own, like the object
   * spread `{...group, ...body}`; `id`, `createdAt` and `createdBy` are then
   * put back.
   */
  datatype GroupPatch = GroupPatch(
    id: Option<string>,
    name: Option<string>,
    code: Option<string>,
    approvalThreshold: Option<int>,
    members: Option<seq<Member>>,
    transactions: Option<seq<Transaction>>,
    createdAt: Option<int>,
    createdBy: Option<string>)

  function Merge(g: Group, patch: GroupPatch): (u: Group)
    ensures u.id == g.id && u.createdAt == g.createdAt && u.createdBy == g.createdBy
    ensures u.name == patch.name.GetOr(g.name) && u.code == patch.code.GetOr(g.code)
    ensures u.approvalThreshold == patch.approvalThreshold.GetOr(g.approvalThreshold)
    ensures u.members == patch.members.GetOr(g.members)
    ensures u.transactions == patch.transactions.GetOr(g.transactions)
  {
    Group(g.id, patch.name.GetOr(g.name), patch.code.GetOr(g.code),
          patch.approvalThreshold.GetOr(g.approvalThreshold), patch.members.GetOr(g.members),
          patch.transactions.GetOr(g.transactions), g.createdAt, g.createdBy)
  }

  /** The PUT route: replaces the first group with the id by its merge with the body. */
  function UpdateOn(groups: seq<Group>, id: string, patch: GroupPatch): (r: (Result<Group, Error>, seq<Group>))
    ensures r.0.Err? <==> GroupIndex(groups, id).None?
    ensures r.0.Err? ==> r.0.error == GroupNotFound && r.1 == groups
    ensures r.0.Ok? ==>
              var gi := GroupIndex(groups, id).value;
              OnlyGroupChanged(groups, r.1, gi) && r.1[gi] == r.0.value && r.0.value == Merge(groups[gi], patch)
    ensures forall i :: 0 <= i < |groups| ==>
              r.1[i].id == groups[i].id && r.1[i].createdAt == groups[i].createdAt && r.1[i].createdBy == groups[i].createdBy
  {
    match GroupIndex(groups, id)
    case None => (Err(GroupNotFound), groups)
    case Some(gi) =>
      var u := Merge(groups[gi], patch);
      (Ok(u), groups[gi := u])
  }

  /** The delete route: removes the first group with the id, whatever its balance. */
  function DeleteOn(groups: seq<Group>, id: string): (r: (Result<(), Error>, seq<Group>))
    ensures r.0.Err? <==> GroupIndex(groups, id).None?
    ensures r.0.Err? ==> r.0.error == GroupNotFound && r.1 == groups
    ensures r.0.Ok? ==>
              var gi := GroupIndex(groups, id).value;
              r.1 == groups[..gi] + groups[gi + 1..] && |r.1| == |groups| - 1
  {
    match GroupIndex(groups, id)
    case None => (Err(GroupNotFound), groups)
    case Some(gi) => (Ok(()), groups[..gi] + groups[gi + 1..])
  }

  /** Deleting keeps every other group, in order, and removes exactly one group with the id. */
  lemma DeleteRemovesOne(groups: seq<Group>, id: string)
    requires GroupIndex(groups, id).Some?
    ensures var after := DeleteOn(groups, id).1;
            multiset(after) + multiset{groups[GroupIndex(groups, id).value]} == multiset(groups)
            && Sublist(after, groups)
  {
    var gi := GroupIndex(groups, id).value;
    var after := DeleteOn(groups, id).1;
    assert groups == groups[..gi] + [groups[gi]] + groups[gi + 1..];
    SublistSkip(groups, gi);
  }

  lemma {:induction false} SublistSkip<T>(s: seq<T>, k: nat)
    requires k < |s|
    ensures Sublist(s[..k] + s[k + 1..], s)
    decreases |s|
  {
    if k == 0 {
      assert s[..0] + s[1..] == s[1..];
      SublistSelf(s[1..]);
    } else {
      SublistSkip(s[1..], k - 1);
      var r := s[..k] + s[k + 1..];
      assert r[0] == s[0];
      assert r[1..] == s[1..][..k - 1] + s[1..][k..];
    }
  }

  lemma {:induction false} SublistSelf<T>(s: seq<T>)
    ensures Sublist(s, s)
    decreases |s|
  {
    if s != [] {
      SublistSelf(s[1..]);
    }
  }

  /**
   * The admin threshold route: the group, then the requester (must be the
   * creator), then the bounds `[1, |members|]` are checked, in that order.
   */
  function SetThresholdOn(groups: seq<Group>, groupId: string, newThreshold: int, adminUserId: string)
    : (r: (Result<Group, Error>, seq<Group>))
    ensures r.0.Err? ==> r.1 == groups
    ensures GroupIndex(groups, groupId).None? <==> r.0 == Err(GroupNotFound)
    ensures r.0 == Err(NotAdmin) <==>
              GroupIndex(groups, groupId).Some? && groups[GroupIndex(groups, groupId).value].createdBy != adminUserId
    ensures r.0.Err? && r.0.error.ThresholdOutOfRange? <==>
              GroupIndex(groups, groupId).Some?
              && var g := groups[GroupIndex(groups, groupId).value];
              && g.createdBy == adminUserId && !(1 <= newThreshold <= |g.members|)
    ensures r.0.Err? && r.0.error.ThresholdOutOfRange? ==>
              r.0.error.members == |groups[GroupIndex(groups, groupId).value].members|
    ensures r.0.Ok? <==>
              GroupIndex(groups, groupId).Some?
              && var g := groups[GroupIndex(groups, groupId).value];
              && g.createdBy == adminUserId && 1 <= newThreshold <= |g.members|
    ensures r.0.Ok? ==>
              var gi := GroupIndex(groups, groupId).value;
              && groups[gi].createdBy == adminUserId
              && 1 <= newThreshold <= |groups[gi].members|
              && OnlyGroupChanged(groups, r.1, gi)
              && r.1[gi] == r.0.value && r.0.value == groups[gi].(approvalThreshold := newThreshold)
  {
    match GroupIndex(groups, groupId)
    case None => (Err(GroupNotFound), groups)
    case Some(gi) =>
      var g := groups[gi];
      if g.createdBy != adminUserId then (Err(NotAdmin), groups)
      else if newThreshold < 1 || newThreshold > |g.members| then (Err(ThresholdOutOfRange(|g.members|)), groups)
      else
        var u := g.(approvalThreshold := newThreshold);
        (Ok(u), groups[gi := u])
  }

  /**
   * The PUT route sets any threshold for anyone: where the admin route refuses
   * a threshold of 0, PUT stores it.
   */
  lemma UpdateBypassesThresholdChecks(groups: seq<Group>, id: string, anyone: string)
    requires GroupIndex(groups, id).Some?
    ensures SetThresholdOn(groups, id, 0, anyone).0.Err?
    ensures var patch := GroupPatch(None, None, None, Some(0), None, None, None, None);
            UpdateOn(groups, id, patch).0.Ok? && UpdateOn(groups, id, patch).0.value.approvalThreshold == 0
  {
  }

  // ---------------------------------------------------------------- reads

  /** `group.members.some(m => m.phone === phone)`. */
  predicate IsMember(g: Group, phone: string) {
    HasPhone(g.members, phone)
  }

  /** The `approval-status` response. */
  datatype ApprovalSnapshot = ApprovalSnapshot(
    current: nat,
    required: int,
    isApproved: bool,
    isRejected: bool,
    approvals: seq<string>)

  class GroupStore {
    /** The module-level `groups` array. */
    var groups: seq<Group>

    constructor()
      ensures groups == []
    {
      groups := [];
    }

    /** The live approve route. */
    method Approve(groupId: string, transactionId: string, userId: string, now: int)
      returns (r: Result<VoteResponse, Error>)
      modifies this
      ensures (r, groups) == VoteOn(old(groups), groupId, transactionId, userId, true, now)
    {
      r := Vote(groupId, transactionId, userId, true, now);
    }

    /** The live reject route. */
    method Reject(groupId: string, transactionId: string, userId: string, now: int)
      returns (r: Result<VoteResponse, Error>)
      modifies this
      ensures (r, groups) == VoteOn(old(groups), groupId, transactionId, userId, false, now)
    {
      r := Vote(groupId, transactionId, userId, false, now);
    }

    /** The steps both live voting routes take, on the voter's side of the vote. */
    method Vote(groupId: string, transactionId: string, userId: string, approve: bool, now: int)
      returns (r: Result<VoteResponse, Error>)
      modifies this
      ensures (r, groups) == VoteOn(old(groups), groupId, transactionId, userId, approve, now)
    {
      var gi := GroupIndex(groups, groupId);
      if gi.None? {
        return Err(GroupNotFound);
      }
      var group := groups[gi.value];
      var ti := TransactionIndex(group.transactions, transactionId);
      if ti.None? {
        return Err(TransactionNotFound);
      }
      var t := group.transactions[ti.value];
      if t.status != Pending {
        return Err(VoteRefused(NotPending(t.status)));
      }
      if approve {
        t := t.(rejections := Without(t.rejections, userId));
        if userId !in t.approvals {
          t := t.(approvals := t.approvals + [userId]);
        }
      } else {
        t := t.(approvals := Without(t.approvals, userId));
        if userId !in t.rejections {
          t := t.(rejections := t.rejections + [userId]);
        }
      }
      var approvalCount, rejectionCount := |t.approvals|, |t.rejections|;
      var totalMembers, requiredApprovals := |group.members|, group.approvalThreshold;
      if approvalCount >= requiredApprovals {
        t := t.(status := Approved, approvedAt := Some(now));
      } else if approvalCount + rejectionCount >= totalMembers {
        t := t.(status := Rejected, rejectedAt := Some(now));
      }
      groups := groups[gi.value := group.(transactions := group.transactions[ti.value := t])];
      r := Ok(VoteResponse(t, VotingStatus(approvalCount, rejectionCount, totalMembers, requiredApprovals,
                                           t.status == Approved, t.status == Rejected)));
    }

    /** The create-transaction route. */
    method CreateTransaction(groupId: string, req: TransactionRequest, freshId: string, now: int)
      returns (r: Result<Transaction, Error>)
      modifies this
      ensures (r, groups) == CreateTransactionOn(old(groups), groupId, req, freshId, now)
    {
      var gi := GroupIndex(groups, groupId);
      if gi.None? {
        return Err(GroupNotFound);
      }
      var kind := ParseKind(req.kind);
      if kind.None? {
        return Err(InvalidType);
      }
      if req.amount.None? || req.amount.value <= 0.0 {
        return Err(InvalidAmount);
      }
      var t := NewTransaction(req, kind.value, freshId, now);
      var group := groups[gi.value];
      groups := groups[gi.value := group.(transactions := group.transactions + [t])];
      r := Ok(t);
    }

    /** The create-group route. */
    method CreateGroup(req: GroupRequest, freshId: string, now: int) returns (r: Result<Group, Error>)
      modifies this
      ensures (r, groups) == CreateGroupOn(old(groups), req, freshId, now)
    {
      if CodeInUse(groups, req.code) {
        return Err(CodeExists);
      }
      var g := NewGroup(req, freshId, now);
      groups := groups + [g];
      r := Ok(g);
    }

    /** The join route. */
    method Join(code: string, user: JoinUser, freshId: string) returns (r: Result<Group, Error>)
      modifies this
      ensures (r, groups) == JoinOn(old(groups), code, user, freshId)
    {
      var gi := FirstIndex(groups, (g: Group) => g.code == code);
      if gi.None? {
        return Err(GroupNotFound);
      }
      var group := groups[gi.value];
      if HasPhone(group.members, user.phone) {
        return Err(AlreadyMember);
      }
      group := group.(members := group.members + [JoinedMember(user, freshId)]);
      groups := groups[gi.value := group];
      r := Ok(group);
    }

    /** The PUT route. */
    method Update(id: string, patch: GroupPatch) returns (r: Result<Group, Error>)
      modifies this
      ensures (r, groups) == UpdateOn(old(groups), id, patch)
    {
      var gi := GroupIndex(groups, id);
      if gi.None? {
        return Err(GroupNotFound);
      }
      var updated := Merge(groups[gi.value], patch);
      groups := groups[gi.value := updated];
      r := Ok(updated);
    }

    /** The delete route (`splice(groupIndex, 1)`). */
    method Delete(id: string) returns (r: Result<(), Error>)
      modifies this
      ensures (r, groups) == DeleteOn(old(groups), id)
    {
      var gi := GroupIndex(groups, id);
      if gi.None? {
        return Err(GroupNotFound);
      }
      groups := groups[..gi.value] + groups[gi.value + 1..];
      r := Ok(());
    }

    /** The admin threshold route. */
    method UpdateThreshold(groupId: string, newThreshold: int, adminUserId: string) returns (r: Result<Group, Error>)
      modifies this
      ensures (r, groups) == SetThresholdOn(old(groups), groupId, newThreshold, adminUserId)
    {
      var gi := GroupIndex(groups, groupId);
      if gi.None? {
        return Err(GroupNotFound);
      }
      var group := groups[gi.value];
      if group.createdBy != adminUserId {
        return Err(NotAdmin);
      }
      if newThreshold < 1 || newThreshold > |group.members| {
        return Err(ThresholdOutOfRange(|group.members|));
      }
      group := group.(approvalThreshold := newThreshold);
      groups := groups[gi.value := group];
      r := Ok(group);
    }

    /** The get-group route. */
    function GetGroup(id: string): (r: Option<Group>)
      reads this
      ensures r.None? <==> forall i :: 0 <= i < |groups| ==> groups[i].id != id
      ensures r.Some? ==> r.value in groups && r.value.id == id
      ensures r.Some? ==>
                exists i :: 0 <= i < |groups| && groups[i] == r.value
                            && forall j :: 0 <= j < i ==> groups[j].id != id
    {
      match GroupIndex(groups, id)
      case None => None
      case Some(gi) => Some(groups[gi])
    }

    /** The user-groups route: the groups, in store order, that list the phone among their members. */
    function UserGroups(phone: string): (r: seq<Group>)
      reads this
      ensures Sublist(r, groups)
      ensures forall g :: g in r <==> g in groups && IsMember(g, phone)
    {
      FilterSublist(groups, (g: Group) => IsMember(g, phone));
      assert forall g :: g in Filter(groups, (g: Group) => IsMember(g, phone)) <==> g in groups && IsMember(g, phone) by {
        forall g ensures g in Filter(groups, (g: Group) => IsMember(g, phone)) <==> g in groups && IsMember(g, phone) {
          FilterMember(groups, (g: Group) => IsMember(g, phone), g);
        }
      }
      Filter(groups, (g: Group) => IsMember(g, phone))
    }

    /** The approval-status route: the counts and flags of the transaction as stored. */
    function ApprovalStatus(groupId: string, transactionId: string): (r: Result<ApprovalSnapshot, Error>)
      reads this
      ensures GroupIndex(groups, groupId).None? <==> r == Err(GroupNotFound)
      ensures r == Err(TransactionNotFound) <==>
                GroupIndex(groups, groupId).Some?
                && TransactionIndex(groups[GroupIndex(groups, groupId).value].transactions, transactionId).None?
      ensures r.Ok? <==>
                GroupIndex(groups, groupId).Some?
                && TransactionIndex(groups[GroupIndex(groups, groupId).value].transactions, transactionId).Some?
      ensures r.Ok? ==>
                var g := groups[GroupIndex(groups, groupId).value];
                TransactionIndex(g.transactions, transactionId).Some? &&
                var t := g.transactions[TransactionIndex(g.transactions, transactionId).value];
                && r.value.current == |t.approvals| && r.value.approvals == t.approvals
                && r.value.required == g.approvalThreshold
                && r.value.isApproved == (t.status == Approved) && r.value.isRejected == (t.status == Rejected)
      ensures r.Err? ==> r.error in {GroupNotFound, TransactionNotFound}
    {
      match GroupIndex(groups, groupId)
      case None => Err(GroupNotFound)
      case Some(gi) =>
        var g := groups[gi];
        match TransactionIndex(g.transactions, transactionId)
        case None => Err(TransactionNotFound)
        case Some(ti) =>
          var t := g.transactions[ti];
          Ok(ApprovalSnapshot(|t.approvals|, g.approvalThreshold, t.status == Approved, t.status == Rejected, t.approvals))
    }
  }
}
