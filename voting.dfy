/**
 * The backend's voting rules on one transaction, apart from the store that
 * holds it: the live approve and reject handlers move the voter between the
 * two vote lists and then recompute the status; the shadowed copies of the
 * same routes (never reached, because the first registration of a path
 * always answers) refuse a duplicate approval and reject on one vote.
 */
module Voting {
  import opened Wrappers
  import opened Ledger

  /** Why a vote is refused. */
  datatype VoteError =
    | NotPending(status: Status)   // "Transaction is already <status>"
    | AlreadyApproved              // the shadowed handler's "You have already approved this transaction"

  predicate NoDuplicates(s: seq<string>) {
    forall i, j :: 0 <= i < j < |s| ==> s[i] != s[j]
  }

  /** Nobody is listed twice, and nobody is listed both for and against. */
  predicate WellFormedVotes(t: Transaction) {
    NoDuplicates(t.approvals) && NoDuplicates(t.rejections)
    && forall v :: v in t.approvals ==> v !in t.rejections
  }

  /** `s.filter(id => id !== v)`. */
  function Without(s: seq<string>, v: string): seq<string> {
    Filter(s, x => x != v)
  }

  /** `if (!s.includes(v)) s.push(v)`. */
  function AddOnce(s: seq<string>, v: string): seq<string> {
    if v in s then s else s + [v]
  }

  lemma {:induction false} WithoutFacts(s: seq<string>, v: string)
    ensures forall x :: x in Without(s, v) <==> x in s && x != v
    ensures NoDuplicates(s) ==> NoDuplicates(Without(s, v))
    ensures v in s && NoDuplicates(s) ==> |Without(s, v)| == |s| - 1
    ensures v in s ==> |Without(s, v)| < |s|
    ensures v !in s ==> Without(s, v) == s
    decreases |s|
  {
    forall x ensures x in Without(s, v) <==> x in s && x != v {
      FilterMember(s, x => x != v, x);
    }
    if s != [] {
      WithoutFacts(s[1..], v);
      var rest := Without(s[1..], v);
      if s[0] != v {
        assert Without(s, v) == [s[0]] + rest;
        if NoDuplicates(s) {
          assert s[0] !in s[1..];
          assert s[0] !in rest;
        }
      } else {
        assert Without(s, v) == rest;
        if NoDuplicates(s) {
          assert v !in s[1..];
        }
      }
    }
  }

  /** The vote lists after `voter` votes for (`approve`) or against the transaction. */
  function Ballot(t: Transaction, voter: string, approve: bool): Transaction {
    if approve then t.(rejections := Without(t.rejections, voter), approvals := AddOnce(t.approvals, voter))
    else t.(approvals := Without(t.approvals, voter), rejections := AddOnce(t.rejections, voter))
  }

  /** The list a ballot puts the voter on, and the one it takes the voter off. */
  function Chosen(t: Transaction, approve: bool): seq<string> {
    if approve then t.approvals else t.rejections
  }

  function Opposite(t: Transaction, approve: bool): seq<string> {
    if approve then t.rejections else t.approvals
  }

  /**
   * After a ballot the voter is on the chosen list exactly once and off the
   * other one, every other voter stays where they were, and well-formed vote
   * lists stay well-formed.
   */
  lemma BallotFacts(t: Transaction, voter: string, approve: bool)
    ensures voter in Chosen(Ballot(t, voter, approve), approve)
    ensures voter !in Opposite(Ballot(t, voter, approve), approve)
    ensures forall v :: v != voter ==>
              (v in Ballot(t, voter, approve).approvals <==> v in t.approvals)
              && (v in Ballot(t, voter, approve).rejections <==> v in t.rejections)
    ensures WellFormedVotes(t) ==> WellFormedVotes(Ballot(t, voter, approve))
    ensures NoDuplicates(Chosen(t, approve)) ==>
              multiset(Chosen(Ballot(t, voter, approve), approve))[voter] == 1
  {
    var u := Ballot(t, voter, approve);
    WithoutFacts(Opposite(t, approve), voter);
    var c := Chosen(t, approve);
    if NoDuplicates(c) {
      NoDupMultiset(c, voter);
      if voter in c {
        assert Chosen(u, approve) == c;
      } else {
        assert Chosen(u, approve) == c + [voter];
        assert multiset(c + [voter]) == multiset(c) + multiset{voter};
      }
      NoDupAppend(c, voter);
    }
  }

  /** A list without duplicates holds each element at most once. */
  lemma {:induction false} NoDupMultiset(s: seq<string>, x: string)
    requires NoDuplicates(s)
    ensures multiset(s)[x] == if x in s then 1 else 0
    decreases |s|
  {
    if s != [] {
      assert s == [s[0]] + s[1..];
      assert multiset(s) == multiset([s[0]]) + multiset(s[1..]);
      NoDupMultiset(s[1..], x);
      assert s[0] !in s[1..];
    }
  }

  lemma NoDupAppend(s: seq<string>, v: string)
    requires NoDuplicates(s)
    ensures NoDuplicates(AddOnce(s, v))
  {
  }

  /**
   * The status rule of both live handlers, with the approval branch tested first:
   * approved once the approvals reach the threshold, otherwise rejected once
   * everyone has voted, otherwise unchanged; the decision is time-stamped.
   */
  function Decide(t: Transaction, totalMembers: nat, threshold: int, now: int): Transaction {
    if |t.approvals| >= threshold then t.(status := Approved, approvedAt := Some(now))
    else if |t.approvals| + |t.rejections| >= totalMembers then t.(status := Rejected, rejectedAt := Some(now))
    else t
  }

  /** The `votingStatus` part of a live handler's response. */
  datatype VotingStatus = VotingStatus(
    approvals: nat,
    rejections: nat,
    totalMembers: nat,
    requiredApprovals: int,
    isApproved: bool,
    isRejected: bool)

  /** A live approve (`approve`) or reject handler applied to the transaction it found. */
  function CastVote(t: Transaction, voter: string, approve: bool, totalMembers: nat, threshold: int, now: int)
    : (r: Result<(Transaction, VotingStatus), VoteError>)
    ensures r.Err? <==> t.status != Pending
    ensures r.Err? ==> r.error == NotPending(t.status)
    ensures r.Ok? ==>
              var (u, vs) := r.value;
              && voter in Chosen(u, approve) && voter !in Opposite(u, approve)
              && vs == VotingStatus(|u.approvals|, |u.rejections|, totalMembers, threshold,
                                    u.status == Approved, u.status == Rejected)
              && (u.status == Approved <==> |u.approvals| >= threshold)
              && (u.status == Rejected <==> |u.approvals| < threshold && |u.approvals| + |u.rejections| >= totalMembers)
              && (u.status == Pending <==> |u.approvals| < threshold && |u.approvals| + |u.rejections| < totalMembers)
              && u.approvedAt == (if u.status == Approved then Some(now) else t.approvedAt)
              && u.rejectedAt == (if u.status == Rejected then Some(now) else t.rejectedAt)
              && u.(approvals := t.approvals, rejections := t.rejections, status := t.status,
                    approvedAt := t.approvedAt, rejectedAt := t.rejectedAt) == t
  {
    if t.status != Pending then Err(NotPending(t.status))
    else
      BallotFacts(t, voter, approve);
      var b := Ballot(t, voter, approve);
      var u := Decide(b, totalMembers, threshold, now);
      Ok((u, VotingStatus(|b.approvals|, |b.rejections|, totalMembers, threshold,
                          u.status == Approved, u.status == Rejected)))
  }

  /** A live vote keeps the vote lists well-formed. */
  lemma VotePreservesWellFormed(t: Transaction, voter: string, approve: bool, totalMembers: nat, threshold: int, now: int)
    requires WellFormedVotes(t)
    ensures var r := CastVote(t, voter, approve, totalMembers, threshold, now);
            r.Ok? ==> WellFormedVotes(r.value.0)
  {
    BallotFacts(t, voter, approve);
  }

  /** After a live vote, every other member's vote is where it was. */
  lemma VoteKeepsOthers(t: Transaction, voter: string, approve: bool, totalMembers: nat, threshold: int, now: int, other: string)
    requires other != voter
    ensures var r := CastVote(t, voter, approve, totalMembers, threshold, now);
            r.Ok? ==> (other in r.value.0.approvals <==> other in t.approvals)
                      && (other in r.value.0.rejections <==> other in t.rejections)
  {
    BallotFacts(t, voter, approve);
  }

  /**
   * In the live handlers, voting the same way twice while the transaction is
   * still pending changes nothing and is not an error.
   */
  lemma RevoteIsNoOp(t: Transaction, voter: string, approve: bool, totalMembers: nat, threshold: int, now: int, later: int)
    requires CastVote(t, voter, approve, totalMembers, threshold, now).Ok?
    requires CastVote(t, voter, approve, totalMembers, threshold, now).value.0.status == Pending
    ensures var u := CastVote(t, voter, approve, totalMembers, threshold, now).value.0;
            CastVote(u, voter, approve, totalMembers, threshold, later)
            == CastVote(t, voter, approve, totalMembers, threshold, now)
  {
    var u := CastVote(t, voter, approve, totalMembers, threshold, now).value.0;
    WithoutFacts(Opposite(u, approve), voter);
    assert Ballot(u, voter, approve) == u;
  }

  /** A rejection never adds an approval, so it approves only where the approvals already met the threshold. */
  lemma RejectApprovesOnlyAtThreshold(t: Transaction, voter: string, totalMembers: nat, threshold: int, now: int)
    requires NoDuplicates(t.approvals)
    ensures var r := CastVote(t, voter, false, totalMembers, threshold, now);
            r.Ok? ==> |r.value.0.approvals| <= |t.approvals|
                      && (r.value.0.status == Approved ==> |t.approvals| >= threshold)
  {
    WithoutFacts(t.approvals, voter);
  }

  /** An approval never removes an approval. */
  lemma ApproveNeverLowersApprovals(t: Transaction, voter: string, totalMembers: nat, threshold: int, now: int)
    ensures var r := CastVote(t, voter, true, totalMembers, threshold, now);
            r.Ok? ==> |r.value.0.approvals| >= |t.approvals| && multiset(t.approvals) <= multiset(r.value.0.approvals)
  {
  }

  // ---------------------------------------------------------------- shadowed copies

  /** The shadowed handler's `approvalProgress`. */
  datatype ApprovalProgress = ApprovalProgress(current: nat, required: int, isApproved: bool)

  /** The shadowed approve handler: a repeated approval is an error; rejections are not consulted. */
  function LegacyApprove(t: Transaction, voter: string, threshold: int, now: int)
    : (r: Result<(Transaction, ApprovalProgress), VoteError>)
    ensures t.status != Pending ==> r == Err(NotPending(t.status))
    ensures t.status == Pending ==> (r.Err? <==> voter in t.approvals)
    ensures r.Ok? ==> r.value.0.approvals == t.approvals + [voter]
                      && r.value.0.rejections == t.rejections
                      && (r.value.0.status == Approved <==> |t.approvals| + 1 >= threshold)
                      && r.value.1 == ApprovalProgress(|t.approvals| + 1, threshold, r.value.0.status == Approved)
  {
    if t.status != Pending then Err(NotPending(t.status))
    else if voter in t.approvals then Err(AlreadyApproved)
    else
      var a := t.approvals + [voter];
      var u := if |a| >= threshold then t.(approvals := a, status := Approved, approvedAt := Some(now))
               else t.(approvals := a);
      Ok((u, ApprovalProgress(|a|, threshold, u.status == Approved)))
  }

  /** The shadowed reject handler: one rejection rejects the transaction. */
  function LegacyReject(t: Transaction, voter: string, now: int): (r: Result<Transaction, VoteError>)
    ensures t.status != Pending ==> r == Err(NotPending(t.status))
    ensures t.status == Pending ==> r.Ok? && r.value.status == Rejected && r.value.rejectedBy == Some(voter)
                                    && r.value.approvals == t.approvals && r.value.rejections == t.rejections
  {
    if t.status != Pending then Err(NotPending(t.status))
    else Ok(t.(status := Rejected, rejectedBy := Some(voter), rejectedAt := Some(now)))
  }

  /** A repeated approval: the live handler accepts it without change, the shadowed one refuses it. */
  lemma DuplicateApprovalLiveVersusLegacy(t: Transaction, voter: string, totalMembers: nat, threshold: int, now: int)
    requires t.status == Pending && voter in t.approvals && WellFormedVotes(t)
    ensures CastVote(t, voter, true, totalMembers, threshold, now).Ok?
    ensures CastVote(t, voter, true, totalMembers, threshold, now).value.0.approvals == t.approvals
    ensures CastVote(t, voter, true, totalMembers, threshold, now).value.0.rejections == t.rejections
    ensures LegacyApprove(t, voter, threshold, now) == Err(AlreadyApproved)
  {
    WithoutFacts(t.rejections, voter);
  }

  /**
   * On a fresh transaction in a group of two or more with a positive threshold,
   * one rejection leaves the transaction pending in the live handler, while the
   * shadowed handler rejects it.
   */
  lemma SingleRejectionLiveVersusLegacy(t: Transaction, voter: string, totalMembers: nat, threshold: int, now: int)
    requires t.status == Pending && t.approvals == [] && t.rejections == []
    requires totalMembers >= 2 && threshold >= 1
    ensures CastVote(t, voter, false, totalMembers, threshold, now).value.0.status == Pending
    ensures LegacyReject(t, voter, now).value.status == Rejected
  {
    assert Without([], voter) == [];
  }
}
