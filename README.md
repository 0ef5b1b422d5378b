# Group wallet: a verified model of the shared-ledger core

This project is a Dafny model of the Group Wallet application. Members of a group pool money through a shared ledger. Each deposit or withdrawal request is created as *pending*. The members then vote on it:

- it becomes *approved* once the approvals reach the group's threshold;
- it becomes *rejected* once everybody has voted without reaching it;
- an approved request is later marked *paid*.

The model covers these parts of the system:

- **The backend.** This is the Express server in `backend/server.js`, with its in-memory list of groups. The model has the transaction, voting, group, join, update, delete and threshold routes, plus the one-time-code store in `backend/utils/otpService.js`.
- **The mobile app's screens:**
  - the group, home, members, member-details and net-balance screens;
  - the pending-votes and pending-payments screens;
  - the transaction-details, payment and withdrawal screens;
  - sign-up/log-in and code entry.

  Each screen's decisions are modelled: which buttons show, which requests are listed, what is counted and summed, what is sent to the backend and what is refused.
- **The older `group-wallet` app:** log-in, code entry, group creation, members, new transactions, and the `login.js` flow.

## How the model is organised

- Values the source passes around are datatypes in `ledger.dfy`: transactions, members, groups, statuses and kinds.
- Each screen's logic is a set of functions on those values, with the outcome types as datatypes.
- Where the source changes a stored state step by step, the model is a class whose methods are proved to end in exactly the state a specification function gives. These are:
  - the server's `groups` array (`Server.GroupStore`);
  - the OTP map (`OtpService.OtpStore`);
  - the older app's device storage (`LegacyOtp.DeviceStorage`).
- Loops that build results become methods with loop invariants: the six-month balance trend, the cash-flow calendar and group-code generation.

Parts of JavaScript that the screens depend on are modelled in their own modules:

- `trim`, `\s`, `\d`, `includes`, `indexOf`, `split('')`/`join('')` and `Number.prototype.toString` are in `JsText`;
- `parseInt`, `parseFloat` and `isNaN` are in `JsNumber`.

JavaScript numbers are unbounded `int` and `real`. Clock readings, `Math.random()` draws and the local-time decomposition of timestamps are parameters.

## Model

| member | source | states |
|---|---|---|
| Voting.WithoutFacts | backend/server.js:47 | `filter(id => id !== userId)` keeps exactly the other ids. It keeps a list free of duplicates, and removes exactly one entry when the voter was on a duplicate-free list. |
| Voting.BallotFacts | backend/server.js:46-52 | After a ballot the voter is on the chosen list exactly once and off the opposite one. Every other voter is where they were, and well-formed vote lists stay well-formed. |
| Voting.NoDupAppend | backend/server.js:50-52 | `if (!includes) push` never lists an id twice. |
| Voting.Decide | backend/server.js:61-72 | The status rule: approved once the approvals reach the threshold, else rejected once every member has voted, else unchanged, with the time of the decision. `Voting.CastVote` states it as iffs on the new status, and the reject route (backend/server.js:127-138) uses the same rule. |
| Voting.CastVote | backend/server.js:38-83 | A vote on a transaction that is not pending is refused with its status. Otherwise the voter ends on the chosen side only. The status is approved iff the approvals reach the threshold; rejected iff they don't but everyone voted; pending otherwise. Only the decided side gets a timestamp, and nothing else in the record changes. |
| Voting.VotePreservesWellFormed | backend/server.js:42-52 | A live vote keeps both vote lists free of duplicates and disjoint. |
| Voting.VoteKeepsOthers | backend/server.js:46-52 | A vote never moves another member's vote. |
| Voting.RevoteIsNoOp | backend/server.js:46-72 | Voting the same way again while the request is still pending gives the same response and record. |
| Voting.RejectApprovesOnlyAtThreshold | backend/server.js:112-132 | A rejection never adds approvals, so it can approve a request only if the approvals already met the threshold. |
| Voting.ApproveNeverLowersApprovals | backend/server.js:46-52 | An approval keeps every earlier approval. |
| Voting.LegacyApprove | backend/server.js:277-329 | The shadowed approve handler refuses a request that is not pending and a repeated approval. Otherwise it appends the voter, ignores rejections, approves iff the new count reaches the threshold, and reports that progress. |
| Voting.LegacyReject | backend/server.js:332-356 | The shadowed reject handler rejects a pending request on a single vote and records who rejected it. |
| Voting.DuplicateApprovalLiveVersusLegacy | backend/server.js:301-304 | A repeated approval leaves the vote lists alone in the live handler and is refused by the shadowed one. |
| Voting.SingleRejectionLiveVersusLegacy | backend/server.js:350-353 | In a group of two or more, one rejection leaves a fresh request pending in the live handler but rejects it in the shadowed one. |
| Server.VoteOn | backend/server.js:22-151 | A 404 for a missing group, and a 404 for a missing transaction, each iff, and neither changes anything. The vote succeeds iff both are found and the transaction is pending. The first matching transaction of the first matching group is then replaced by `Voting.CastVote`'s result, and no other group changes. |
| Server.VoteOnFinalIsRefused | backend/server.js:38-40 | Voting on an approved, rejected or paid request is refused with its status and leaves the store unchanged. |
| Server.VoteOnPreservesStore | backend/server.js:42-52 | Votes keep every vote list in the store well-formed. |
| Server.ParseKind | backend/server.js:164-166 | Only `"deposit"` and `"withdrawal"` are types, each to its own kind. |
| Server.NewTransaction | backend/server.js:172-182 | The new record is pending with no votes. It carries the requested kind, amount and creator, and the description or `""`. |
| Server.ValidAmount | backend/server.js:168 | The amount test: a missing amount and one that is not positive are refused. `Server.CreateTransactionOn` states that an amount it refuses gives the 400. |
| Server.CreateTransactionOn | backend/server.js:154-190 | Checks run in order: group (404), type, then amount (400); a failure changes nothing. It succeeds iff the group exists, the type is known and the amount is present and positive. The new record is then appended to that group only. |
| Server.CreateTransactionKeepsHistory | backend/server.js:184-188 | Creating a request keeps the group's earlier transactions in order and the store's vote lists well-formed. |
| Server.ThresholdOrDefault | backend/server.js:205 | `parseInt(x) \|\| 2` is never 0. |
| Server.ThresholdDefaultCases | backend/server.js:205 | A missing, blank or zero threshold becomes 2. |
| Server.ThresholdKeepsPositive | backend/server.js:205 | A positive integer sent as text is kept as the threshold. |
| Server.ThresholdKeepsNegative | backend/server.js:205 | A negative integer is kept too; nothing bounds the threshold from below. |
| Server.NewGroup | backend/server.js:201-210 | A new group has an empty ledger, the requested code and creator, the members sent (or none) and the defaulted threshold. |
| Server.CreateGroupOn | backend/server.js:193-214 | Refused iff the code is already in use, with nothing changed. Otherwise the new group goes last. Unique codes stay unique. |
| Server.JoinedMember | backend/server.js:231-236 | The joining member keeps the user's name and phone, is not an admin, and uses the user's id or else a fresh one. |
| Server.JoinOn | backend/server.js:217-239 | An unknown code is a 404 and a phone already in the group is refused; both iff, and neither changes anything. The join succeeds iff the code is found and the phone is new there. The member is then appended to that group only, and unique phones stay unique. |
| Server.Merge | backend/server.js:391-398 | A PUT body replaces each field it carries, except `id`, `createdAt` and `createdBy`, which keep the stored values. |
| Server.UpdateOn | backend/server.js:384-402 | 404 iff no group has the id. Otherwise only that group is replaced by its merge, and no group's id, creation time or creator ever changes. |
| Server.DeleteOn | backend/server.js:423-431 | 404 iff no group has the id. Otherwise the store loses exactly that position. |
| Server.DeleteRemovesOne | backend/server.js:424-429 | Deleting removes one group with the id (as a multiset) and keeps the others in order. |
| Server.SetThresholdOn | backend/server.js:434-458 | The group (404), then the creator (403), then the bounds 1..members (400, carrying the member count) are checked, each refusal iff its condition. A failure changes nothing. It succeeds iff the group exists, the requester is its creator and the value is in 1..members; only that group's threshold then changes. |
| Server.UpdateBypassesThresholdChecks | backend/server.js:391-400 | The PUT route stores a threshold of 0, which the admin route refuses. |
| Server.GroupStore.constructor | backend/server.js:15 | The store starts with no groups. |
| Server.GroupStore.Approve | backend/server.js:22-85 | The approve route's response and the new store are exactly `VoteOn`'s approval, so it succeeds iff the group and transaction exist and the transaction is pending. |
| Server.GroupStore.Reject | backend/server.js:88-151 | The reject route's response and the new store are exactly `VoteOn`'s rejection, so it succeeds iff the group and transaction exist and the transaction is pending. |
| Server.GroupStore.Vote | backend/server.js:28-72 | The steps of both voting routes end in `VoteOn`'s response and store, with its refusal and success iffs. |
| Server.GroupStore.CreateTransaction | backend/server.js:154-190 | Ends in `CreateTransactionOn`'s response and store: a valid request to an existing group is appended. |
| Server.GroupStore.CreateGroup | backend/server.js:193-214 | Ends in `CreateGroupOn`'s response and store. |
| Server.GroupStore.Join | backend/server.js:217-239 | Ends in `JoinOn`'s response and store: a new phone joining a known code succeeds. |
| Server.GroupStore.Update | backend/server.js:384-402 | Ends in `UpdateOn`'s response and store. |
| Server.GroupStore.Delete | backend/server.js:423-431 | Ends in `DeleteOn`'s response and store. |
| Server.GroupStore.UpdateThreshold | backend/server.js:434-458 | Ends in `SetThresholdOn`'s response and store: the creator's in-range value is saved, everything else refused. |
| Server.GroupStore.GetGroup | backend/server.js:405-411 | Not found iff no stored group has the id; otherwise the first stored group with that id: every group before it has another id. |
| Server.GroupStore.UserGroups | backend/server.js:414-420 | Exactly the stored groups that list the phone among their members, in store order. |
| Server.GroupStore.ApprovalStatus | backend/server.js:359-381 | 404 for a missing group, and for a missing transaction, each iff; found both ways iff it answers. The answer holds the stored approvals, their count, the group's threshold and the approved/rejected flags. |
| Ledger.StatusNameInjective | backend/server.js:39 | Each status has its own name, so comparing status text is comparing statuses. |
| Ledger.Filter | frontend/groupwallet-mobile/src/screens/PendingScreen.js:75 | `filter` keeps only elements that pass the test and never lengthens the list. |
| Ledger.FilterSublist | frontend/groupwallet-mobile/src/screens/PendingScreen.js:75 | `filter` keeps the list's order: the result is a sub-list of the input. |
| Ledger.FilterMultiset | frontend/groupwallet-mobile/src/screens/MemberDetails/MemberDetailsScreen.js:17-20 | `filter` keeps every copy of a passing element and none of a failing one. |
| Ledger.FilterMember | frontend/groupwallet-mobile/src/screens/MemberDetails/RequestSummaryScreen.js:12-14 | An element is in the filtered list iff it is in the list and passes. |
| Ledger.FilterFilter | frontend/groupwallet-mobile/src/screens/MemberDetails/NetBalanceScreen.js:37-44 | Filtering twice is filtering once by both tests. |
| Ledger.FirstIndex | backend/server.js:385 | `findIndex`: none iff nothing passes; otherwise the first position that passes. |
| Ledger.StatusCountsPartition | frontend/groupwallet-mobile/src/screens/MemberDetails/MemberDetailsScreen.js:17-20 | The pending, approved, rejected and paid counts add up to the member's total requests. |
| Ledger.NetIsDepositsMinusOthers | frontend/groupwallet-mobile/src/screens/GroupDetailsScreen.js:82-88 | The signed `reduce` is the deposits' total minus the total of every other type. |
| Ledger.NetAppend | frontend/groupwallet-mobile/src/screens/MemberDetails/NetBalanceScreen.js:114 | The signed sum of two lists is the sum of their sums, which the running balance relies on. |
| Ledger.KeyedSumDistinct | frontend/groupwallet-mobile/src/screens/MemberDetails/NetBalanceScreen.js:97-116 | Adding the per-month sums over distinct months gives the sum over the transactions in any of those months. |
| Ledger.KeyedSumSingle | frontend/groupwallet-mobile/src/screens/MemberDetails/NetBalanceScreen.js:97-116 | A single transaction is counted once for each time its month occurs among the keys. |
| Ledger.SortDescFacts | frontend/groupwallet-mobile/src/screens/MemberDetails/NetBalanceScreen.js:51-52 | The sort puts the largest key first and is a permutation of its input. |
| Ledger.Take | frontend/groupwallet-mobile/src/screens/MemberDetails/NetBalanceScreen.js:53 | `slice(0, n)` is the first `n` elements, or the whole list when it is shorter. |
| Ledger.TopIsLargest | frontend/groupwallet-mobile/src/screens/MemberDetails/NetBalanceScreen.js:51-57 | The first `n` after the descending sort are `n` of them (all, on a shorter list), sorted, drawn from the input, and none of them is smaller than anything left out. |
| Balance.PaidBalance | frontend/groupwallet-mobile/src/screens/GroupDetailsScreen.js:79-89 | The mobile balance is 0 without a transaction list. |
| Balance.PaidBalanceSplit | frontend/groupwallet-mobile/src/screens/GroupDetailsScreen.js:79-89 | The mobile balance is what was paid in by deposits minus what was paid out by other types. |
| Balance.PaidBalanceInsert | frontend/groupwallet-mobile/src/screens/GroupDetailsScreen.js:79-89 | A transaction anywhere in the list moves the mobile balance by its signed amount if it is paid, and not at all otherwise. |
| Balance.ApprovedBalance | group-wallet/src/screens/TransactionScreen.js:77-87 | The older app's balance is 0 without a transaction list. |
| Balance.ApprovedBalanceInsert | group-wallet/src/screens/TransactionScreen.js:77-87 | A transaction moves the older app's balance by its signed amount if it is approved, and not at all otherwise. |
| Balance.BalancesDisagree | group-wallet/src/screens/MembersScreen.js:113-123 | An approved, unpaid deposit counts in the older app's balance and not in the mobile app's. |
| JsText.BlankIffAllSpace | frontend/groupwallet-mobile/src/screens/LoginScreen.js:53 | `!s.trim()` holds iff the text is all white space. |
| JsText.TrimStart | group-wallet/src/screens/TransactionScreen.js:90 | Removes exactly the leading white space. |
| JsText.TrimEnd | group-wallet/src/screens/TransactionScreen.js:90 | Removes exactly the trailing white space. |
| JsText.Trim | frontend/groupwallet-mobile/src/screens/LoginScreen.js:77-79 | The text without its white-space ends: a slice of it that starts after the leading white space, leaves only white space on either side, and starts and ends on a non-space. |
| JsText.KeepDigits | group-wallet/src/login.js:104 | `replace(/[^0-9]/g, '')` leaves only digits, keeps every digit of the text as often as it occurs, and keeps text that is all digits. |
| JsText.KeepDigitsAppend | group-wallet/src/login.js:104 | The digits keep their order: those of the first part of a text come before those of the rest. |
| JsText.Lower | frontend/groupwallet-mobile/src/screens/OTPScreen.js:98 | `toLowerCase` maps each character and keeps the length. |
| JsText.Upper | frontend/groupwallet-mobile/src/screens/TransactionDetailsScreen.js:64 | `toUpperCase` maps each character and keeps the length. |
| JsText.IncludesIffOccurs | group-wallet/src/login.js:140-141 | `includes` is true iff the text occurs at some position. |
| JsText.IncludesEmpty | group-wallet/src/login.js:140-141 | Every text includes the empty search term. |
| JsText.Repeat | frontend/groupwallet-mobile/src/screens/OTPScreen.js:183-184 | `'*'.repeat(n)` is `n` stars. |
| JsText.IndexOf | frontend/groupwallet-mobile/src/screens/OTPScreen.js:181 | The first position of the character, or the length when it does not occur. |
| JsText.NatToStringRoundTrip | backend/utils/otpService.js:6 | Reading the decimal text of a number back gives the number. |
| JsText.NatToStringLength | backend/utils/otpService.js:5-6 | A number in `[10^(k-1), 10^k)` has `k` digits. |
| JsText.JoinLength | frontend/groupwallet-mobile/src/screens/OTPScreen.js:258 | `join('')` of one-character cells has one character per cell, and only then that length. |
| JsText.Split | frontend/groupwallet-mobile/src/screens/OTPScreen.js:70 | `split('')` gives one cell per character. |
| JsText.JoinSplit | frontend/groupwallet-mobile/src/screens/OTPScreen.js:70-71 | Joining the split text gives the text back. |
| JsNumber.DigitRun | backend/server.js:205 | The leading run of digits `parseInt` reads. |
| JsNumber.ParseDigits | backend/server.js:205 | `parseInt` and `parseFloat` read a text of digits as its decimal value. |
| JsNumber.ParseIntOfNatToString | group-wallet/src/screens/CreateGroupScreen.js:73 | `parseInt` reads a number's decimal text back as that number. |
| JsNumber.DigitsNotNaN | frontend/groupwallet-mobile/src/screens/MembersScreen.js:382 | `isNaN` is false on a text of digits. |
| JsNumber.TrimDigits | frontend/groupwallet-mobile/src/screens/MembersScreen.js:382 | Trimming leaves a text of digits unchanged. |
| GroupDetails.PendingCount | frontend/groupwallet-mobile/src/screens/GroupDetailsScreen.js:91-93 | The pending count is 0 without a list and at most the list's length otherwise, and it is 0 iff no transaction is pending. `Home.PendingRequestsCount` and `PendingVotes.PendingTransactions` tie it to the other screens' lists. |
| GroupDetails.ApprovedDepositsCount | frontend/groupwallet-mobile/src/screens/GroupDetailsScreen.js:95-99 | The awaiting-payment count is 0 without a list and at most the list's length otherwise, and it is 0 iff no transaction is an approved deposit. `PendingPayments.PendingPayments` is the list it counts. |
| GroupDetails.ApprovedDepositsAmongApproved | frontend/groupwallet-mobile/src/screens/GroupDetailsScreen.js:95-99 | The awaiting-payment count never exceeds the approved count. |
| GroupDetails.AllTransactions | frontend/groupwallet-mobile/src/screens/GroupDetailsScreen.js:101-110 | Newest first, and exactly the group's transactions (a permutation), or nothing without a list. |
| GroupDetails.CanUserApprove | frontend/groupwallet-mobile/src/screens/GroupDetailsScreen.js:193-210 | True iff the request is pending and the user is on neither vote list. |
| GroupDetails.CanApproveIffFirstVote | frontend/groupwallet-mobile/src/screens/GroupDetailsScreen.js:193-210 | The screen offers a vote iff the backend would add exactly one approval and leave the rejections alone. |
| GroupDetails.StatusColor | frontend/groupwallet-mobile/src/screens/GroupDetailsScreen.js:220-227 | Orange iff an approved deposit; green iff paid or another approved type; red iff rejected; blue iff pending. `getStatusColor` in TransactionDetailsScreen.js:48-55 is the same function. |
| GroupDetails.VoteDisplaysPartition | frontend/groupwallet-mobile/src/screens/GroupDetailsScreen.js:306-325 | A pending item shows either the vote buttons or the voted note; any other item shows neither. |
| GroupDetails.VoteButtonsShown | frontend/groupwallet-mobile/src/screens/GroupDetailsScreen.js:306-320 | The approve and reject buttons: a pending item the user may still vote on. `GroupDetails.VoteDisplaysPartition` shows they never appear with the voted note. |
| GroupDetails.VotedNoteShown | frontend/groupwallet-mobile/src/screens/GroupDetailsScreen.js:322-324 | The "You've voted" note: a pending item the user already voted on. |
| GroupDetails.PayNowShown | frontend/groupwallet-mobile/src/screens/GroupDetailsScreen.js:327-337 | "Pay Now": the creator's own approved deposit. `PendingPayments.PayNowAgreesWithGroupScreen` ties it to the payments list. |
| GroupDetails.WithdrawNowShown | frontend/groupwallet-mobile/src/screens/GroupDetailsScreen.js:340-351 | "Withdraw Now": the creator's own approved withdrawal. `TransactionDetails.SectionsPartition` shows it never appears with "Pay Now". |
| Home.HomeBalance | frontend/groupwallet-mobile/src/screens/HomeScreen.js:100-111 | The early return for an empty list changes nothing: the home balance is the group screen's paid balance. |
| Home.PendingRequestsCount | frontend/groupwallet-mobile/src/screens/HomeScreen.js:113-116 | The same count as the group screen's, and at most the number of transactions. |
| MobileMembers.NaNThresholdAccepted | frontend/groupwallet-mobile/src/screens/MembersScreen.js:382-388 | The text `.5` passes the as-written check and becomes a NaN threshold; the corrected check refuses it. |
| MobileMembers.ThresholdInput | frontend/groupwallet-mobile/src/screens/MembersScreen.js:382-391 | Accepted iff not blank, a number, and read by `parseInt`, with the value in 1..members. The refusal reasons are given in order. |
| MobileMembers.ThresholdChecksAgree | frontend/groupwallet-mobile/src/screens/MembersScreen.js:382-391 | On text `parseInt` can read, the corrected check and the as-written one accept the same thresholds. |
| MobileMembers.WholeThresholdAccepted | frontend/groupwallet-mobile/src/screens/MembersScreen.js:382-391 | Any whole number from 1 to the member count, typed as digits, is accepted as itself. |
| MobileMembers.ThresholdInputAsWritten | frontend/groupwallet-mobile/src/screens/MembersScreen.js:382-391 | The check as written: NaN is let through iff the text is not blank, `isNaN` is false and `parseInt` cannot read it; a value is accepted iff it is read and in 1..members. |
| MobileMembers.UpdateThresholdAsWritten | frontend/groupwallet-mobile/src/screens/MembersScreen.js:381-407 | `updateThreshold` as written: NaN is saved iff the as-written check lets it through and the request succeeds; a value is saved iff accepted and the request succeeds, and then only the threshold changes. Otherwise the group is unchanged. The older app's `updateThreshold` (group-wallet/src/screens/MembersScreen.js:85-111) is the same code. |
| MobileMembers.NaNThresholdSaved | frontend/groupwallet-mobile/src/screens/MembersScreen.js:381-398 | On `.5` the screen as written saves NaN; the corrected flow refuses it. |
| MobileMembers.SentThreshold | frontend/groupwallet-mobile/src/services/api.js:44-50 | The PUT body of a save carries only the threshold: the saved value, or for NaN the `null` of `JSON.stringify`, which the vote routes' `>=` reads as 0. |
| MobileMembers.NaNSaveApprovesEveryVote | backend/server.js:55-66 | After the screen as written saves NaN and the PUT route stores it as `null`, the next vote on any pending transaction of that group succeeds and approves it, even a rejection. The reject route (backend/server.js:120-130) compares the same way. |
| MobileMembers.UpdatesAgreeOnReadableText | frontend/groupwallet-mobile/src/screens/MembersScreen.js:381-407 | On text `parseInt` can read, the as-written and the corrected flow end alike. |
| MobileMembers.SavedThresholdGoesThroughPut | frontend/groupwallet-mobile/src/screens/MembersScreen.js:394-398 | A saved value goes through `api.updateGroup`, the PUT route (frontend/groupwallet-mobile/src/services/api.js:44): on the stored group it makes the change the screen makes to its copy. |
| MobileMembers.UpdateThreshold | frontend/groupwallet-mobile/src/screens/MembersScreen.js:381-407 | `updateThreshold` with the corrected check of the first Findings row: saved iff the input is accepted and the request succeeds. Then only the threshold changes, to a value between 1 and the member count; otherwise the group is unchanged. |
| MobileMembers.DeleteGroupFlow | frontend/groupwallet-mobile/src/screens/MembersScreen.js:423-456 | Refused with the balance iff the paid balance is not 0; otherwise the delete is requested iff the user confirms. |
| MobileMembers.AdminMatchesBackend | frontend/groupwallet-mobile/src/screens/MembersScreen.js:522 | The settings show to exactly the requester whom `PUT /api/groups/:id/threshold` accepts as creator. The screen itself saves through `PUT /api/groups/:id`, which checks no requester (`Server.UpdateBypassesThresholdChecks`). |
| LegacyMembers.LegacyDeleteGroupFlow | group-wallet/src/screens/MembersScreen.js:125-158 | The same gate on the approved-only balance. |
| LegacyMembers.DeleteGatesDisagree | group-wallet/src/screens/MembersScreen.js:113-128 | On an approved, unpaid deposit the older app refuses the delete that the mobile app allows. |
| MemberDetails.PaidWithdrawalsArePaidOthers | frontend/groupwallet-mobile/src/screens/MemberDetails/MemberDetailsScreen.js:23-24 | The screen's paid withdrawals are all the paid transactions that are not deposits. |
| MemberDetails.CalculateMemberStats | frontend/groupwallet-mobile/src/screens/MemberDetails/MemberDetailsScreen.js:9-41 | With no list, only an empty recent list. Otherwise the paid totals and net of the member's requests and their counts by status. At most five recent requests, newest first, all the member's. |
| MemberDetails.RecentAreNewest | frontend/groupwallet-mobile/src/screens/MemberDetails/MemberDetailsScreen.js:39 | A member request left out of the recent list is no newer than any shown, and then five are shown. |
| MemberDetails.MemberIsAdmin | frontend/groupwallet-mobile/src/screens/MemberDetails/MemberDetailsScreen.js:44 | The admin badge shows iff the member created the group. |
| MemberDetails.NetColor | frontend/groupwallet-mobile/src/screens/MemberDetails/MemberDetailsScreen.js:103 | Green iff there are stats and the net is not negative; red otherwise, including the `undefined` net of a group without a list. |
| MemberDetails.StatusDisplay | frontend/groupwallet-mobile/src/screens/MemberDetails/MemberDetailsScreen.js:47-57 | One distinct label per case: paid deposit, other paid type (no mark), approved, rejected for lack of balance, other rejection, pending. |
| MemberDetails.RecentStatusColor | frontend/groupwallet-mobile/src/screens/MemberDetails/MemberDetailsScreen.js:151-153 | The recent list colours every paid request green, whatever its type. |
| MemberDetails.LabelIdentifiesStatus | frontend/groupwallet-mobile/src/screens/MemberDetails/MemberDetailsScreen.js:47-57 | Two requests with the same label have the same status. |
| RequestSummary.MemberRequests | frontend/groupwallet-mobile/src/screens/MemberDetails/RequestSummaryScreen.js:12-14 | Exactly the transactions the member created, by name or by phone; none without a list. |
| RequestSummary.Filtered | frontend/groupwallet-mobile/src/screens/MemberDetails/RequestSummaryScreen.js:17-21 | The list for the chosen filter key. `RequestSummary.FilterKeysMeaning` gives each key's meaning and `RequestSummary.FilteredIsSublist` its order. |
| RequestSummary.FilterKeysMeaning | frontend/groupwallet-mobile/src/screens/MemberDetails/RequestSummaryScreen.js:17-21 | `all` keeps everything, `completed` the paid ones, and each other key the requests with that status. |
| RequestSummary.FilteredIsSublist | frontend/groupwallet-mobile/src/screens/MemberDetails/RequestSummaryScreen.js:17-21 | Every filter keeps some of the requests in their order. |
| RequestSummary.StatusDisplay | frontend/groupwallet-mobile/src/screens/MemberDetails/RequestSummaryScreen.js:24-34 | A paid non-deposit is marked with a cross; every other label is the member screen's. |
| RequestSummary.StatusColor | frontend/groupwallet-mobile/src/screens/MemberDetails/RequestSummaryScreen.js:36-43 | Green iff a paid deposit or approved; red iff another paid type or rejected; orange iff pending. |
| RequestSummary.DisplaysDifferOnlyOnPaidWithdrawals | frontend/groupwallet-mobile/src/screens/MemberDetails/RequestSummaryScreen.js:24-43 | The summary and the member screen give different labels and colours exactly on a paid request that is not a deposit. |
| WithdrawHistory.Withdrawals | frontend/groupwallet-mobile/src/screens/MemberDetails/WithdrawHistoryScreen.js:10-13 | None without a list. |
| WithdrawHistory.WithdrawalsAmongRequests | frontend/groupwallet-mobile/src/screens/MemberDetails/WithdrawHistoryScreen.js:10-13 | The history is the withdrawals among the requests the summary lists, in order. |
| WithdrawHistory.FilteredWithdrawals | frontend/groupwallet-mobile/src/screens/MemberDetails/WithdrawHistoryScreen.js:16-20 | The history's filtered view is the summary's filtered view narrowed to withdrawals. |
| WithdrawHistory.StatusDisplay | frontend/groupwallet-mobile/src/screens/MemberDetails/WithdrawHistoryScreen.js:23-31 | Every paid request is a bare ` COMPLETED`; the other labels are the member screen's. |
| WithdrawHistory.StatusColor | frontend/groupwallet-mobile/src/screens/MemberDetails/WithdrawHistoryScreen.js:33-38 | Green iff approved, red iff paid or rejected, orange iff pending. |
| WithdrawHistory.HistoryAgreesOnWithdrawals | frontend/groupwallet-mobile/src/screens/MemberDetails/WithdrawHistoryScreen.js:23-38 | On a withdrawal the history shows the member screen's label and the summary's colour. |
| Calendar.DaysInMonth | frontend/groupwallet-mobile/src/screens/MemberDetails/NetBalanceScreen.js:123 | `new Date(year, month + 1, 0).getDate()`: 28 to 31 days, 29 iff February of a leap year, 30 iff April, June, September or November. |
| Calendar.FromIndex | frontend/groupwallet-mobile/src/screens/MemberDetails/NetBalanceScreen.js:99 | A month counted from year 0 maps back to a year and a month 0-11. |
| Calendar.MonthIndexInjective | frontend/groupwallet-mobile/src/screens/MemberDetails/NetBalanceScreen.js:106-107 | Comparing `getMonth()` and `getFullYear()` is comparing month indices. |
| Calendar.SetMonthAsWritten | frontend/groupwallet-mobile/src/screens/MemberDetails/NetBalanceScreen.js:98-99 | `setMonth` keeps the day number, which rolls into the next month when the target month is shorter. |
| Calendar.MonthsBack | frontend/groupwallet-mobile/src/screens/MemberDetails/NetBalanceScreen.js:97-99 | The month `i` months before today's, by month index. |
| Calendar.Window | frontend/groupwallet-mobile/src/screens/MemberDetails/NetBalanceScreen.js:97-99 | The six months ending with today's, oldest first. |
| Calendar.WindowConsecutive | frontend/groupwallet-mobile/src/screens/MemberDetails/NetBalanceScreen.js:97-99 | The window's months are consecutive and distinct and end with this month. |
| Calendar.AsWrittenWindow | frontend/groupwallet-mobile/src/screens/MemberDetails/NetBalanceScreen.js:97-99 | The window the loop as written visits has six months. Which months they are is stated by `Calendar.AsWrittenWindowFromEarlyDays` and `Calendar.AsWrittenWindowOnMay31`. |
| Calendar.AsWrittenWindowFromEarlyDays | frontend/groupwallet-mobile/src/screens/MemberDetails/NetBalanceScreen.js:97-99 | On days 1-28 the loop as written visits the intended window. |
| Calendar.SetMonthOnMay31 | frontend/groupwallet-mobile/src/screens/MemberDetails/NetBalanceScreen.js:98-99 | From 31 May 2025, stepping back to February lands on 3 March and to April on 1 May. |
| Calendar.AsWrittenWindowOnMay31 | frontend/groupwallet-mobile/src/screens/MemberDetails/NetBalanceScreen.js:97-99 | On 31 May 2025 the loop as written visits Dec, Jan, Mar, Mar, May, May. |
| Calendar.WindowOnMay31 | frontend/groupwallet-mobile/src/screens/MemberDetails/NetBalanceScreen.js:97-99 | The intended window on that day is Dec to May. |
| Calendar.MayCounts | frontend/groupwallet-mobile/src/screens/MemberDetails/NetBalanceScreen.js:97-108 | On that day May is visited twice by the loop as written and once by the intended window. |
| Calendar.ShortName | frontend/groupwallet-mobile/src/screens/MemberDetails/NetBalanceScreen.js:100 | `toLocaleString('default', { month: 'short' })` in the English locale: each month's short name has three letters, and no two months share one. |
| NetBalance.TrendMonths | frontend/groupwallet-mobile/src/screens/MemberDetails/NetBalanceScreen.js:100-101 | Six month labels. `NetBalance.BalanceTrend` ties each to its month of the window. |
| NetBalance.TrendBalances | frontend/groupwallet-mobile/src/screens/MemberDetails/NetBalanceScreen.js:114-115 | Six running balances. Their values are stated by `NetBalance.TrendSteps` and `NetBalance.TrendFinal`. |
| NetBalance.BalanceTrend | frontend/groupwallet-mobile/src/screens/MemberDetails/NetBalanceScreen.js:91-119 | The loop builds exactly the six labels of the corrected window (`Calendar.Window`, six consecutive months) and, for each month, the signed sum of the transactions up to and including it. On the 29th-31st this differs from `setMonth` at lines 98-99, as the second Findings row shows. |
| NetBalance.TrendStep | frontend/groupwallet-mobile/src/screens/MemberDetails/NetBalanceScreen.js:110-115 | Adding a month's sum to the running balance gives that month's cumulative balance. |
| NetBalance.TrendSteps | frontend/groupwallet-mobile/src/screens/MemberDetails/NetBalanceScreen.js:110-115 | Each balance is the previous one plus its own month's sum. |
| NetBalance.TrendFinal | frontend/groupwallet-mobile/src/screens/MemberDetails/NetBalanceScreen.js:91-119 | The last balance is the signed sum of all transactions dated in the six months. |
| NetBalance.MayDepositCountedTwice | frontend/groupwallet-mobile/src/screens/MemberDetails/NetBalanceScreen.js:97-115 | On 31 May 2025, a May deposit adds twice its amount to the as-written trend and once to the corrected one. |
| NetBalance.DayEntry | frontend/groupwallet-mobile/src/screens/MemberDetails/NetBalanceScreen.js:127-144 | A day's entry holds exactly the transactions dated that day, and its balance is their signed sum. |
| NetBalance.CalendarData | frontend/groupwallet-mobile/src/screens/MemberDetails/NetBalanceScreen.js:122-148 | The loop builds one entry per day of the month, entry `k` being day `k + 1`'s. |
| NetBalance.DaysOf | frontend/groupwallet-mobile/src/screens/MemberDetails/NetBalanceScreen.js:126-127 | The month's days in order, one per day. |
| NetBalance.MonthCalendar | frontend/groupwallet-mobile/src/screens/MemberDetails/NetBalanceScreen.js:122-148 | One entry per day of the month. |
| NetBalance.SumBalancesPrefix | frontend/groupwallet-mobile/src/screens/MemberDetails/NetBalanceScreen.js:135-137 | The first `k` days' balances add up to the signed sum of the transactions on those days. |
| NetBalance.EntryBalance | frontend/groupwallet-mobile/src/screens/MemberDetails/NetBalanceScreen.js:135-137 | Each day's balance is the signed sum of the transactions dated on it. |
| NetBalance.DayInMonth | frontend/groupwallet-mobile/src/screens/MemberDetails/NetBalanceScreen.js:130-132 | A real date is one of the month's days iff it falls in that month. |
| NetBalance.CalendarCoversMonth | frontend/groupwallet-mobile/src/screens/MemberDetails/NetBalanceScreen.js:122-148 | With every transaction on a real date, the days' balances add up to the month's signed sum. |
| NetBalance.EnhancedBalanceStats | frontend/groupwallet-mobile/src/screens/MemberDetails/NetBalanceScreen.js:29-88 | No stats iff there is no list. Otherwise the trend and calendar loops and the filters give exactly `StatsOf`: the paid totals, counts, top fives, trend, pie slices, calendar and newest-first list. The trend runs over the corrected `Calendar.Window`, so on the 29th-31st it differs from lines 98-99 as the second Findings row shows. |
| NetBalance.StatsMatchMemberScreen | frontend/groupwallet-mobile/src/screens/MemberDetails/NetBalanceScreen.js:32-80 | The totals, net and status counts equal the member screen's, and the net is the paid balance of the member's requests. The pie chart's income and expense slices are those two totals. |
| NetBalance.StatsCountsSplit | frontend/groupwallet-mobile/src/screens/MemberDetails/NetBalanceScreen.js:75-77 | The deposit and withdrawal counts add up to the paid count. |
| NetBalance.StatsLargest | frontend/groupwallet-mobile/src/screens/MemberDetails/NetBalanceScreen.js:50-57 | Each largest list holds five of the paid deposits (withdrawals), or all of them when there are fewer, largest first, and none larger is left out. |
| NetBalance.StatsTrendAndList | frontend/groupwallet-mobile/src/screens/MemberDetails/NetBalanceScreen.js:60-86 | The trend ends at the six months' paid net, and the full list is the paid requests, newest first. |
| NetBalance.StatsCalendarCoversMonth | frontend/groupwallet-mobile/src/screens/MemberDetails/NetBalanceScreen.js:69 | The calendar's days add up to this month's paid net. |
| NetBalance.KindsSplit | frontend/groupwallet-mobile/src/screens/MemberDetails/NetBalanceScreen.js:43-44 | With two types, deposits and withdrawals split any list. |
| PendingPayments.PendingPayments | frontend/groupwallet-mobile/src/screens/PendingPaymentsScreen.js:45-51 | Exactly the approved deposits, in order, as many as the group screen counts; none without a list. |
| PendingPayments.ItemView | frontend/groupwallet-mobile/src/screens/PendingPaymentsScreen.js:54-79 | "Pay Now" iff the viewer created the request, and "You" then in the byline. |
| PendingPayments.PayNowAgreesWithGroupScreen | frontend/groupwallet-mobile/src/screens/PendingPaymentsScreen.js:79 | A listed item offers payment iff the group screen shows its "Pay Now" button. |
| PendingVotes.PendingTransactions | frontend/groupwallet-mobile/src/screens/PendingScreen.js:73-76 | Exactly the pending requests, in order, as many as the group screen counts. |
| PendingVotes.ItemView | frontend/groupwallet-mobile/src/screens/PendingScreen.js:140-202 | The counts, member total and the user's vote. Buttons iff pending and not voted, the note iff pending and voted, as on the group screen. The closed badge is green iff approved and red iff rejected or paid. |
| PendingVotes.ListedItemsShowOneControl | frontend/groupwallet-mobile/src/screens/PendingScreen.js:176-202 | Every listed item shows exactly one of the buttons and the note, and no closed badge. |
| TransactionDetails.StatusText | frontend/groupwallet-mobile/src/screens/TransactionDetailsScreen.js:57-65 | An approved deposit waits for payment, an approved withdrawal is ready, and any other status is its name in capitals. |
| TransactionDetails.StatusTextIdentifies | frontend/groupwallet-mobile/src/screens/TransactionDetailsScreen.js:57-65 | The text tells the status, and for an approved request also its type. |
| TransactionDetails.SectionsPartition | frontend/groupwallet-mobile/src/screens/TransactionDetailsScreen.js:152-240 | An approved request shows exactly one of the payment, withdrawal and two waiting sections; other statuses show none. Voting shows iff pending, and the creator's sections match the group screen's buttons. |
| TransactionDetails.WaitingCardNamesCreator | frontend/groupwallet-mobile/src/screens/TransactionDetailsScreen.js:226-240 | The waiting card shows only to others, so it always names the creator. |
| Payment.InstantPayment | frontend/groupwallet-mobile/src/screens/PaymentScreen.js:43-72 | Refused iff no deposit, then iff not approved. Otherwise it completes with ids built from two clock readings, one per `Date.now()` call. |
| Payment.PayableIffListed | frontend/groupwallet-mobile/src/screens/PaymentScreen.js:44-52 | A group's transaction can be paid iff the pending-payments screen lists it. |
| Withdrawal.FirstAtAfterName | frontend/groupwallet-mobile/src/screens/WithdrawalScreen.js:48 | With no `@` before position `i`, the first `@` is at `i`. |
| Withdrawal.ValidateUpiId | frontend/groupwallet-mobile/src/screens/WithdrawalScreen.js:47-50 | The UPI-id check, read in one pass. `Withdrawal.ValidateUpiIdMatchesPattern` states that it accepts exactly the pattern's ids. |
| Withdrawal.ValidateUpiIdMatchesPattern | frontend/groupwallet-mobile/src/screens/WithdrawalScreen.js:47-50 | The scanning check accepts exactly `^[a-zA-Z0-9.\-_]{2,256}@[a-zA-Z]{2,64}$`. |
| Withdrawal.HandleCompleteWithdrawal | frontend/groupwallet-mobile/src/screens/WithdrawalScreen.js:52-86 | Refused iff the UPI ID fails the pattern, then iff no withdrawal, then iff not approved. Otherwise it completes with that UPI ID and a clock-built id. |
| LegacyTransactions.BlankAmountUnparsable | group-wallet/src/screens/TransactionScreen.js:90 | A blank amount already fails `parseFloat`. |
| LegacyTransactions.TrimStartOfSpaces | group-wallet/src/screens/TransactionScreen.js:90 | White space alone trims to nothing. |
| LegacyTransactions.NewRequest | group-wallet/src/screens/TransactionScreen.js:108-117 | The record the form builds. `LegacyTransactions.CreateTransaction` states its fields: pending, no votes, the requested kind and amount, the trimmed description, the creator, and the two clock readings. |
| LegacyTransactions.CreateTransaction | group-wallet/src/screens/TransactionScreen.js:89-121 | Invalid iff the amount check fails. Insufficient iff a withdrawal exceeds the approved balance, with both figures. Otherwise the list gains one pending, vote-free record of the requested kind, amount, trimmed description and creator, after the old ones; its id and creation time come from two separate clock readings. |
| LegacyTransactions.BalanceGateOnlyOnWithdrawals | group-wallet/src/screens/TransactionScreen.js:98-105 | A valid deposit is always created, and so is a withdrawal of exactly the balance. |
| LegacyTransactions.AppendPendingKeepsBalance | group-wallet/src/screens/TransactionScreen.js:120 | Appending a pending request keeps the approved balance. |
| LegacyTransactions.CreatingKeepsBalance | group-wallet/src/screens/TransactionScreen.js:107-121 | A created request leaves the approved balance unchanged. |
| LegacyCreateGroup.CharIndex | group-wallet/src/screens/CreateGroupScreen.js:22 | Every draw picks a position inside the alphabet. |
| LegacyCreateGroup.CodeCharsSpan | group-wallet/src/screens/CreateGroupScreen.js:19 | The alphabet is `A`-`Z` then `0`-`9`. |
| LegacyCreateGroup.GenerateGroupCode | group-wallet/src/screens/CreateGroupScreen.js:18-25 | The loop builds the code of the six draws: six capital letters or digits. |
| LegacyCreateGroup.DrawFor | group-wallet/src/screens/CreateGroupScreen.js:22 | Each alphabet position has a draw that picks it. |
| LegacyCreateGroup.EveryCodeReachable | group-wallet/src/screens/CreateGroupScreen.js:18-25 | Every six-character code over the alphabet comes from some draws. |
| LegacyCreateGroup.HandleCreateGroup | group-wallet/src/screens/CreateGroupScreen.js:67-86 | Refused iff the name is blank, then iff the threshold is not a number or below 1. Otherwise the payload has the trimmed name, the code, the threshold, the selection and the creator. |
| LegacyCreateGroup.ThresholdUnbounded | group-wallet/src/screens/CreateGroupScreen.js:73-77 | A threshold larger than the member count still passes. |
| LegacyCreateGroup.AcceptedPayloadCreatesGroup | group-wallet/src/screens/CreateGroupScreen.js:80-89 | With an unused code, the backend creates a group with exactly the form's fields and an empty ledger. |
| MobileLogin.ValidatePhone | frontend/groupwallet-mobile/src/screens/LoginScreen.js:48-50 | Exactly ten characters, all digits. `MobileLogin.HandleSignup`, `MobileLogin.HandleLogin` and `LegacyLogin.PhoneChecksAgree` state what it gates. |
| MobileLogin.ValidateEmail | frontend/groupwallet-mobile/src/screens/LoginScreen.js:43-46 | The e-mail check, read in one pass. `MobileLogin.ValidateEmailMatchesPattern` states that it accepts exactly the pattern's addresses. |
| MobileLogin.ValidateEmailMatchesPattern | frontend/groupwallet-mobile/src/screens/LoginScreen.js:43-46 | The scanning check accepts exactly `^[^\s@]+@[^\s@]+\.[^\s@]+$`. |
| MobileLogin.PatternValidates | frontend/groupwallet-mobile/src/screens/LoginScreen.js:43-46 | Text matching the pattern passes the check. |
| MobileLogin.ValidEmailMatches | frontend/groupwallet-mobile/src/screens/LoginScreen.js:43-46 | Text that passes the check matches the pattern. |
| MobileLogin.FirstAtAfterLocal | frontend/groupwallet-mobile/src/screens/LoginScreen.js:44 | The first `@` follows the local part. |
| MobileLogin.EmailHasOneAt | frontend/groupwallet-mobile/src/screens/LoginScreen.js:44 | A valid address has exactly one `@`. |
| MobileLogin.LowerKeepsEmailPattern | frontend/groupwallet-mobile/src/screens/LoginScreen.js:79 | Lower-casing a valid address keeps it valid. |
| MobileLogin.TrimKeepsEmail | frontend/groupwallet-mobile/src/screens/LoginScreen.js:79 | Trimming leaves a valid address unchanged. |
| MobileLogin.HandleSignup | frontend/groupwallet-mobile/src/screens/LoginScreen.js:52-80 | Refused iff the name is blank, then iff the phone is not ten digits, then iff the email is invalid. Otherwise it sends the trimmed name and phone and the trimmed, lower-cased email. |
| MobileLogin.SignupRequestValid | frontend/groupwallet-mobile/src/screens/LoginScreen.js:76-80 | The sign-up request carries a non-empty name, the phone as typed (ten digits need no trim) and the lower-cased address, which is still valid. |
| MobileLogin.HandleLogin | frontend/groupwallet-mobile/src/screens/LoginScreen.js:121-143 | Refused iff the name is blank, then iff the phone is invalid, and never for the email. Otherwise it sends the trimmed name and phone. |
| MobileLogin.LoginAcceptsWhatSignupAccepts | frontend/groupwallet-mobile/src/screens/LoginScreen.js:121-143 | Details accepted for sign-up are accepted for log-in with the same name and phone. |
| AuthFlow.CleanPhone | group-wallet/src/login.js:104 | At most ten digits, the first ones of the typed text; all of them when there are ten or fewer. |
| AuthFlow.CleanPhoneIdempotent | group-wallet/src/login.js:104 | Cleaning a cleaned number changes nothing. |
| AuthFlow.TypeNumber | group-wallet/src/login.js:102-107 | Typing stores the cleaned number and clears the error. |
| AuthFlow.HandleMobileInput | group-wallet/src/login.js:314-328 | Ten digits move on to code entry; anything else sets the error. |
| AuthFlow.VerifyEnabledIffAccepted | group-wallet/src/login.js:117-120 | The Verify button is enabled iff the typed number would be accepted. |
| AuthFlow.HandleOtpInput | group-wallet/src/login.js:331-339 | Input longer than one character is ignored; otherwise the cell takes its digits. The error is cleared. |
| AuthFlow.OtpInputKeepsCells | group-wallet/src/login.js:331-339 | Code entry keeps four cells of at most one digit. |
| AuthFlow.HandleOtpVerification | group-wallet/src/login.js:341-356 | `1234` succeeds; any other code sets the error and clears the cells. |
| AuthFlow.ConfirmNeedsAllCells | group-wallet/src/login.js:250-254 | Confirm is enabled iff all four cells hold a digit. |
| AuthFlow.WrongCodeDisablesConfirm | group-wallet/src/login.js:348-354 | After a wrong code Confirm is disabled. |
| AuthFlow.GoBack | group-wallet/src/login.js:264-270 | Going back returns to number entry with the number, cells and error cleared. |
| AuthFlow.GoBackDisablesVerify | group-wallet/src/login.js:264-270 | After going back Verify is disabled. |
| AuthFlow.FilterCountries | group-wallet/src/login.js:139-142 | Exactly the countries whose lower-cased name includes the lower-cased term or whose code includes the term, in order. |
| AuthFlow.EmptyTermKeepsAll | group-wallet/src/login.js:139-142 | An empty search shows every country. |
| AuthFlow.SelectCountry | group-wallet/src/login.js:358-361 | Selecting stores the country and closes the picker. |
| LegacyLogin.GenerateOtp | group-wallet/src/screens/LoginScreen.js:17-19 | The code is between 1000 and 9999. |
| LegacyLogin.GeneratedOtpHasFourDigits | group-wallet/src/screens/LoginScreen.js:17-19 | Its text has four digits. |
| LegacyLogin.PhoneChecksAgree | group-wallet/src/screens/LoginScreen.js:27 | The older phone check accepts the same numbers as the mobile app's. |
| LegacyLogin.HandleGenerateOtp | group-wallet/src/screens/LoginScreen.js:21-44 | Refused iff the name is blank, then iff the phone fails. Otherwise it goes to code entry with the name, phone and generated code. |
| OtpService.OtpNumber | backend/utils/otpService.js:5 | The code is between 100000 and 999999. |
| OtpService.OtpTextIsSixDigits | backend/utils/otpService.js:5-6 | The stored text is six digits. |
| OtpService.Verified | backend/utils/otpService.js:11-17 | Succeeds iff a non-empty code is stored for the phone and equals the one given. Success removes that phone's code; failure leaves the store alone. |
| OtpService.SendThenVerify | backend/utils/otpService.js:4-17 | The code just sent verifies, and then that phone has no code. |
| OtpService.SingleUse | backend/utils/otpService.js:13-14 | A code verifies at most once. |
| OtpService.ResendReplaces | backend/utils/otpService.js:6 | Sending again replaces the old code, which then verifies iff the two codes are equal. |
| OtpService.OtherPhonesUntouched | backend/utils/otpService.js:4-17 | Sending or verifying for one phone leaves every other phone's code alone. |
| OtpService.OtpStore.constructor | backend/utils/otpService.js:2 | The store starts empty. |
| OtpService.OtpStore.SendOtp | backend/utils/otpService.js:4-9 | Returns true, and the store is `Sent` of the old one, with six-digit codes only. |
| OtpService.OtpStore.VerifyOtpCode | backend/utils/otpService.js:11-17 | The answer and the new store are `Verified` of the old store. |
| MobileOtp.SecondsFieldReadsBack | frontend/groupwallet-mobile/src/screens/OTPScreen.js:42-43 | The padded seconds are two digits that read back as the seconds. |
| MobileOtp.FormatTime | frontend/groupwallet-mobile/src/screens/OTPScreen.js:40-44 | Minutes, `:`, and seconds padded to two digits. `MobileOtp.FormatTimeReadsBack` states that the text reads back as the time given. |
| MobileOtp.FormatTimeReadsBack | frontend/groupwallet-mobile/src/screens/OTPScreen.js:40-44 | `m:ss` splits at its one `:`, and minutes times 60 plus seconds is the time given. |
| MobileOtp.BlankCells | frontend/groupwallet-mobile/src/screens/OTPScreen.js:18 | Six empty cells. |
| MobileOtp.HandleOtpChange | frontend/groupwallet-mobile/src/screens/OTPScreen.js:46-60 | Anything but one digit or nothing is ignored. Otherwise the cell takes it, and the joined code is submitted iff all cells are filled and the cell is the last. |
| MobileOtp.JoinDigits | frontend/groupwallet-mobile/src/screens/OTPScreen.js:57-58 | Joined cells of digits are digits. |
| MobileOtp.OtpChangeKeepsCells | frontend/groupwallet-mobile/src/screens/OTPScreen.js:46-60 | Cells stay six of at most one digit, and a submitted code is six digits. |
| MobileOtp.AutoFill | frontend/groupwallet-mobile/src/screens/OTPScreen.js:68-77 | A six-character debug code fills the cells one character each; otherwise nothing changes. |
| MobileOtp.AutoFillJoinsBack | frontend/groupwallet-mobile/src/screens/OTPScreen.js:68-83 | The auto-filled cells join back to the debug code, which passes the length check. |
| MobileOtp.VerifyOtp | frontend/groupwallet-mobile/src/screens/OTPScreen.js:79-100 | Refused iff the code is not six characters. Otherwise it sends that code with the lower-cased email to the route for the sign-in method. |
| MobileOtp.VerifyEnabledIffFilled | frontend/groupwallet-mobile/src/screens/OTPScreen.js:258 | Verify is enabled iff every cell is filled. |
| MobileOtp.MaskLocal | frontend/groupwallet-mobile/src/screens/OTPScreen.js:182-184 | Same length; the first three characters are kept when there are more than three, and every other one is a star. |
| MobileOtp.MaskedEmail | frontend/groupwallet-mobile/src/screens/OTPScreen.js:180-186 | Without an `@` the domain is `undefined`, printed after the masked text. |
| MobileOtp.MaskedEmailShape | frontend/groupwallet-mobile/src/screens/OTPScreen.js:180-186 | With exactly one `@`: same length, the `@` and domain unchanged, and the local part masked. |
| MobileOtp.MaskedValidatedEmail | frontend/groupwallet-mobile/src/screens/OTPScreen.js:180-186 | A valid address keeps its length and its domain. |
| MobileOtp.Tick | frontend/groupwallet-mobile/src/screens/OTPScreen.js:26-35 | Each second counts down. Reaching 1 or less stops at 0 with resend allowed. A stopped timer stays as it is. |
| MobileOtp.CountdownRunsOut | frontend/groupwallet-mobile/src/screens/OTPScreen.js:25-38 | A running timer counts down one per tick and stops at 0 with resend allowed. |
| MobileOtp.StoppedStays | frontend/groupwallet-mobile/src/screens/OTPScreen.js:29 | After `clearInterval` nothing changes. |
| MobileOtp.FirstCountdown | frontend/groupwallet-mobile/src/screens/OTPScreen.js:20-38 | Resend is allowed after exactly 600 seconds. |
| MobileOtp.ResendFreezesCountdown | frontend/groupwallet-mobile/src/screens/OTPScreen.js:166-167 | After a resend the timer stays at 10:00 and resend is never enabled again. |
| MobileOtp.Resend | frontend/groupwallet-mobile/src/screens/OTPScreen.js:166-167 | The corrected resend restarts a running ten-minute countdown. |
| MobileOtp.ResendRestartsCountdown | frontend/groupwallet-mobile/src/screens/OTPScreen.js:166-167 | After the corrected resend, resend is allowed again after exactly 600 seconds. |
| LegacyOtp.Decide | group-wallet/src/screens/OTPScreen.js:17-22 | Wrong length iff not four characters; a match iff four characters equal to the code. |
| LegacyOtp.GeneratedOtpMatches | group-wallet/src/screens/OTPScreen.js:22 | The code from the log-in screen matches itself. |
| LegacyOtp.DeviceStorage.constructor | group-wallet/src/screens/OTPScreen.js:33-39 | No current user and no user list. |
| LegacyOtp.DeviceStorage.HandleVerifyOtp | group-wallet/src/screens/OTPScreen.js:16-53 | On a match the user, with the id from one clock reading and the creation time from another, is stored as current and appended to the user list, started empty when absent; otherwise nothing changes. |

## Left out

- Rendering, styles, navigation, `Alert`/`Share` and input focus (for example `handleKeyPress` at OTPScreen.js:62-66 and the re-focus after `selectCountry`): none of it decides anything the model states.
- Network calls, `setTimeout` delays and loading flags: each call is taken as having completed. A request that fails is the `saved` flag of `MobileMembers.UpdateThreshold`, and otherwise is not modelled.
- The replies of the sign-up, log-in and code-check routes (OTPScreen.js:103-135, the resend request at 138-165): those routes live in `backend/Controllers/auth.js`, which is not part of this model. Only the request the screen builds and the resend's timer reset are modelled.
- AsyncStorage: reads are parameters, and a failed read or write is not modelled. `LegacyOtp.DeviceStorage` holds the two stored values as fields.
- PDF/CSV export and the charts' drawing in NetBalanceScreen.js: these are foreign library calls. The pie chart's figures are kept.
- The server's `console.log` output, `app.listen` and middleware: these are plumbing.
- Clocks, `Math.random()` draws and the local-time `getDate`/`getMonth`/`getFullYear` of a timestamp are parameters (`now`, `d`, `today`, `dateOf`). `toLocaleString` month names are fixed to the English locale's short names. Timestamps are numbers; the ISO `createdAt` strings are modelled by the clock number they were made from.
- JavaScript `Date` normalisation is written out only for `setMonth` (`Calendar.SetMonthAsWritten`) and `new Date(y, m + 1, 0)` (`Calendar.DaysInMonth`), the two places the screens rely on it.
- Amounts are `real` with no floating-point rounding. `parseFloat` and `isNaN` are modelled on plain decimal text: digits, an optional fraction and an optional sign. Exponents, `Infinity` and hexadecimal text are not modelled.
- `toLowerCase`/`toUpperCase` are modelled on ASCII letters only. `\s` and `trim` use JavaScript's full white-space set.
- Only the two transaction types the backend accepts exist in the model. The "any other type" branches of the screens therefore collapse to withdrawals.
- `Palette.Grey` (`#666`) is the fall-through colour of `getStatusColor`. With four statuses it cannot be reached: `GroupDetails.StatusColor`'s contract gives every status one of the other four colours.
- The shadowed create-transaction route at backend/server.js:242-274 is the live one at 154-190 over the same data, so it is not modelled twice. The shadowed approve and reject routes are `Voting.LegacyApprove` and `Voting.LegacyReject`.
- server.js has no route that marks a request paid: `completePayment` and `completeWithdrawal` go to `backend/Controllers`, which is not part of this model. The screens' guards before those calls are modelled.
- Concurrent requests on the shared `groups` array: the handlers run one at a time.
- Text lengths are counted in characters. JavaScript counts UTF-16 code units, so a character outside the Basic Multilingual Plane has length 2 in the source and 1 in the model; this affects `value.length > 1` (`AuthFlow.HandleOtpInput`) and the masked length (`MobileOtp.MaskLocal`).
- The create-transaction route's `amount` is a number or absent in the model. backend/server.js:168 (`!amount || amount <= 0`) lets a non-numeric string such as `"abc"` through (`"abc" <= 0` is false) and stores it; that path is not modelled.
- `MobileMembers.UpdateThresholdAsWritten`: on `SavedNaN` the screen's own copy of the group holds NaN as the threshold; thresholds are integers here, so the model leaves that copy as it was and records the save only in the outcome. What the backend stores is modelled: `JSON.stringify` sends `null`, written as 0 in `MobileMembers.SentThreshold`, since every comparison the vote routes make with it reads it as 0. The approval-status route echoes that `null` where the model has 0.
- `Server.JoinOn`: the join body's `user` is always present here. At backend/server.js:226 a body without `user` throws on `user.phone` and the request ends in a 500 response; that path is not modelled.
- `Server.Merge`: a PUT body field is either absent, which keeps the stored value, or a value. The spread at backend/server.js:391-398 also stores an explicit `null` (for example `"members": null`) over the stored value; apart from the threshold's `null`, which `MobileMembers.SentThreshold` writes as 0, that case is not modelled. `Server.UpdateOn` inherits this.
- `Server.SetThresholdOn`: the new threshold is an integer here. backend/server.js:447-451 also stores a missing value (`undefined`), NaN, a fraction such as 1.5 or a numeric string such as `"2"`, since none of them is `< 1` or `> members`; the vote routes then compare counts with that value. `Server.GroupStore.UpdateThreshold` inherits this.
- `LegacyTransactions.CreateTransaction`: the new record has `rejections: []` where the source leaves the field out. The backend treats both as "no rejections".
- `Ledger.SortDesc`: ties are ordered by the model's insertion sort. Its contracts promise only the order by key and the permutation, not JavaScript's tie order.
- `NetBalance.EnhancedBalanceStats`: the calendar is the one for the month the screen opens on (today's). Choosing another month is `NetBalance.CalendarData` on that month and year.
- `NetBalance.CalendarData`: requires the month to be 0-11, which is what `getMonth()` and the month picker give.
- `JsNumber.ParseInt` reads only decimal digits after an optional sign and leading white space. The `0x` prefix and radix guessing are not modelled.

## Findings

| source | as written | input that shows it | evidently intended | confidence | as-written member | corrected member |
|---|---|---|---|---|---|---|
| frontend/groupwallet-mobile/src/screens/MembersScreen.js:382-398 | `isNaN(newThreshold)` tests the whole text as a number, but `parseInt` reads only leading digits. So `".5"` passes every check: `parseInt` gives NaN, and NaN is neither `< 1` nor `> members`. The request body `JSON.stringify({approvalThreshold: NaN})` sends `null`, the PUT route stores it, and the vote routes' `approvalCount >= null` holds for every count, so the next vote on any pending request approves it, even a rejection (`MobileMembers.NaNSaveApprovesEveryVote`). group-wallet/src/screens/MembersScreen.js:86-102 has the same code. | threshold text `.5` | refuse any text `parseInt` cannot read as a whole number | not executed | MobileMembers.NaNThresholdSaved | MobileMembers.UpdateThreshold |
| frontend/groupwallet-mobile/src/screens/MemberDetails/NetBalanceScreen.js:97-108 | `date.setMonth(date.getMonth() - i)` keeps the day of the month. On the 29th-31st a shorter target month rolls over into the next one. On 31 May 2025 the six months visited are Dec, Jan, Mar, Mar, May, May, so a May deposit enters the running balance twice. | today = 31 May 2025, one paid deposit dated in May | the six consecutive months ending with the current one | not executed | NetBalance.MayDepositCountedTwice | NetBalance.BalanceTrend |
| frontend/groupwallet-mobile/src/screens/OTPScreen.js:25-38 | The countdown interval is created once and clears itself at 0. The resend at 166-167 sets the time back to 600 but starts no new interval, so the display stays at 10:00 and Resend is never enabled again. | wait ten minutes, press Resend | each resend restarts the ten-minute countdown | not executed | MobileOtp.ResendFreezesCountdown | MobileOtp.ResendRestartsCountdown |
