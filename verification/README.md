# Verified model of the QueryOps governed core

This project models the parts of the QueryOps repository in which several rules must hold together, and proves
those rules for every input, every state or every run:

- **Governed actions** (`Policy`, `Revalidation`, `Snapshot`, `Validator`, `Notices`, `Lifecycle`, `Outcomes`,
  `Casework`, `Locking`, `Execution`, `History`, `Protocol`, `Safety`, `Accounting`, `Steps`, `Runs`, `Rules`,
  `Progress`, `Timeline`, `TimelineRuns`). An action is previewed, submitted, approved, rejected, cancelled, expired
  or failed by many sessions at once. `Lifecycle` gives each call as a function on the rows of one action, `Casework`
  the same calls as methods that assign those rows step by step, `Protocol` all sessions together, `Accounting` and
  `Steps` what one step does, `Runs` what holds over all runs, and `Rules` what a commit in any run may do, told on
  tables and permissions alone. An approval there is a transaction of several steps: it locks the pair, judges the
  targets, takes the dependency locks one statement after the other, judges again, and commits, escalates, aborts or
  fails; a failure releases all locks before it is recorded, and other sessions may act in that gap. Outside changes
  to the operational tables may happen between any two steps, restricted only by the row locks held and the foreign
  keys.
- **Dashboard layouts** (`Grid`, `Packing`, `Dashboard`): the two-pass greedy normaliser at three breakpoints.
- **Dispatch guard** (`Dispatch`, `Transport`): the write-ahead journal and the budget of a single-use transport, and
  what it lets through.
- **Field identity and grain** (`Identity`): canonical fields under equalities and the reduction of GROUP BY keys.
- **Bounds and completeness** (`Delivery`, `Evidence`): what a chain of refreshes restores and when rows are the answer.
- **Stability verdict** (`Stability`, `CanaryEvidence`): grouping of runs, choice of the newest three, oscillation, and
  which stored runs count.

`Sorting`, `Strings`, `Traces` (runs of any step relation) and `Options` are helpers. UUIDs are natural numbers (their
text order is the numeric order of the bytes), instants and durations are integers in seconds, money and scores are
exact numbers. Verify everything with `dafny verify dfyconfig.toml`.

## What the proofs found

- The locked expiry of a pending request succeeds exactly when both deadlines have passed; submission writes one
  deadline to both rows, so in every reachable state an overdue pair does expire (`ExpirePairExactly`,
  `OverdueAlwaysExpires`).
- The timeline sorts by creation time first, and a row is stamped with the start of its transaction, so in every
  reachable state it is shown in the order of writing exactly when no later row carries an earlier stamp
  (`ShownAsWrittenInRuns`). A cancellation names the action, which is known since the preview: its transaction
  may start before the submission's and wait for the action's row, which gives a run in which the cancellation is shown
  before the request (`CancellationShownFirst`).
- The reclaim validator does not check that record ids are distinct, while revalidation refuses a preview whose ids
  repeat (`TargetsExactly`, `ReclaimMayRepeat`); a preview the program builds lists no assignment twice, because its
  query joins assignments to users and licenses by their primary keys. The disable validator does check, but it
  compares the ids as written: a valid disable preview names its targets exactly when no user is spelled in two ways
  (`DisableTargetsExactly`, `DisableMayRespell`); the previews the program builds use one spelling.
- Under the update policy of the action role a disable target is executable, recently active or unavailable: the
  branches for service accounts and disabled users cannot be reached (`DisableVerdicts`).
- The skip code `scope_unavailable` cannot occur: a row that row-level security shows lies in a scope of the approver
  (`ScopeIsAlwaysAvailable`).
- The dispatch guard trusts the `dispatched` marks of the manifest it is given. Its budget holds in all runs exactly
  when no request but the last arrives already marked (`SafeExactlyWithoutEarlyMark`).
- An observed evidence side does not read the payload and timeout flags. When it is marked complete, its rows are the
  author's answer for every possible full result exactly when nothing cut the execution or it had already reached its
  limit (`ObservedSoundExactly`; `ObservedIgnoresCuts` is a failing input). All callers pass executions that were
  fetched without a payload budget or a deadline, and for those a complete side is always the answer
  (`ObservedWithoutBudget`); the failing input can only be reached by calling the function directly.

## Model

| member | source | states |
|---|---|---|
| Policy.OverrideDenied | backend/app/action_engine/policy.py:57-128 | the override permission is reported missing exactly when it is required, missing, and nothing checked earlier fails; a decision that requires an override is allowed only with that permission |
| Policy.ApprovalExactly | backend/app/action_engine/policy.py:57-128 | a decision is allowed iff the caller may decide on own requests and override where that is needed, and holds the global permission and scope when more than 20 records, a global scope or a crossing is involved, otherwise the scoped permission with the request's scope or the global one; it is an admin's iff wide or overriding |
| Policy.EarlyDenials | backend/app/action_engine/policy.py:67-75 | a negative count and a forbidden own request are denied first, under their own codes |
| Policy.LateDenials | backend/app/action_engine/policy.py:86-119 | past the first checks the code names exactly the missing permission or scope |
| Policy.SeesExactly | backend/alembic/versions/0010_disable_inactive_user_runtime.py:28-41 | a session sees a row iff it has the global scope or a department scope of the row's department |
| Revalidation.ScopeIsAlwaysAvailable | backend/app/action_engine/revalidation.py:157-161 | no visible target is ever skipped for want of a scope, for either kind of action |
| Revalidation.ScopeKeyExactly | backend/app/action_engine/revalidation.py:315-322 | a record is filed under the first of the approver's scopes for its department, if there is one |
| Revalidation.ReclaimVerdicts | backend/app/action_engine/revalidation.py:134-179 | an assignment is executable iff it is visible, active, unused for 60 days, and held at a known cost by a human or service account of its department; each skip code has its own exact condition |
| Revalidation.ReclaimOverrides | backend/app/action_engine/revalidation.py:163-193 | of an executable assignment each override code is carried iff its condition holds on the tables, and user, license, department and crossing are those of the tables |
| Revalidation.DisableOverrides | backend/app/action_engine/disable_execution.py:146-172 | the same for users: privileged groups, open critical events, another department |
| Revalidation.DisableVerdicts | backend/app/action_engine/disable_execution.py:117-144 | a disable target is unavailable iff it is not a visible active human account, recently active iff it is one with a successful login in the last 90 days, and executable otherwise; no other code occurs |
| Revalidation.RevalidateTargets | backend/app/action_engine/revalidation.py:134-193 | the loop over the targets computes, in order, the executable records, the skips, the union of override codes and whether any record crosses scopes |
| Revalidation.EveryTargetJudgedOnce | backend/app/action_engine/revalidation.py:134-227 | each target ends on exactly one of the two lists, with the record or code its own verdict gives |
| Revalidation.ExecutesTheReady | backend/app/action_engine/revalidation.py:134-227 | a pass over the targets executes exactly those that are ready by the tables |
| Revalidation.OverrideExactly | backend/app/action_engine/disable_execution.py:146-160 | an override is required iff some executable record carries a code, scopes are crossed iff some record crosses, and crossing implies the override |
| Revalidation.DistinctTargets | backend/app/action_engine/action_dispatch.py:62-73 | distinct targets give distinct executable ids |
| Snapshot.TargetsExactly | backend/app/action_engine/revalidation.py:279-298 | a valid preview names its targets iff no record is listed twice; they are then distinct, as many as recorded, and the same ids |
| Snapshot.DisableTargetsExactly | backend/app/action_engine/preview.py:396-399 | a valid disable preview names its targets iff no two of its records write one user's id differently |
| Snapshot.DisableTargetsExist | backend/app/action_engine/disable_execution.py:339-358 | with ids in canonical spelling a valid disable preview always names its targets |
| Snapshot.ValidFigures | backend/app/action_engine/preview.py:300-351 | a preview that validates states the true numbers of its own records, whether they cross scopes and whether they need an override |
| Snapshot.ValidFlags | backend/app/action_engine/preview.py:329-351 | it flags exactly the codes its records carry, more than 20 records and a global scope, each once, and needs an admin iff anything is flagged or escalated |
| Snapshot.ValidTargets | backend/app/action_engine/preview.py:291-297 | every record it would execute is of its action's kind, described, in a scope, and priced; overrides carry their codes, the others none |
| Snapshot.ValidAccess | backend/app/action_engine/preview.py:749-792 | a valid disable preview was built for its requester, allowed exactly the five tables, read-only and under row security |
| Snapshot.SavingsAdd | backend/app/action_engine/preview.py:323-336 | the savings compared are a sum over the records |
| Snapshot.EscalationKeepsValid | backend/app/action_engine/approval.py:658-668 | adding the revalidation keys and requiring an admin keeps either kind of preview valid and its targets the same |
| Snapshot.Tally | backend/app/action_engine/approval.py:1070-1074 | the dictionary loop counts every code exactly and keeps first-seen key order |
| Snapshot.CountSkips | backend/app/action_engine/approval.py:1069-1075 | the exclusion list is the sorted list of distinct codes with their counts |
| Snapshot.SkipCountsExact | backend/app/action_engine/preview.py:735-746 | that list is what the disable validator expects: one entry for each occurring code with its multiplicity, in order |
| Snapshot.SkipsDescribed | backend/app/action_engine/revalidation.py:325-333 | every code a verdict can give has a non-empty stored reason, so the lookup never fails |
| Snapshot.SkipRecordsValid | backend/app/action_engine/revalidation.py:58-76 | a skip serialised by revalidation passes the record validator of its kind |
| Snapshot.SkipsCannotRun | backend/app/action_engine/revalidation.py:58-76 | a stored skip keeps its target's id and code and could not pass for a record that may be executed |
| Snapshot.CompletionKeepsValid | backend/app/action_engine/approval.py:724-759 | appending the skips and recomputing counts, exclusions and summary keeps either kind of preview valid |
| Snapshot.CompletionConserves | backend/app/action_engine/approval.py:730-744 | executed records plus the new skip count equal the recorded targets plus the old skip count |
| Validator.CheckRecords | backend/app/action_engine/preview.py:291-296 | the record loops accept iff every record is valid for its kind and role |
| Validator.CheckFlags | backend/app/action_engine/preview.py:1094-1111 | the flag loop accepts iff all flags are well formed, their codes distinct, and exactly the expected set |
| Validator.CheckExclusions | backend/app/action_engine/preview.py:1083-1091 | accepts iff no count is negative |
| Validator.StoredCounts | backend/app/action_engine/preview.py:738-743 | the dictionary of stored counts exists iff no code is stored twice, and then holds exactly those counts |
| Validator.CheckCounts | backend/app/action_engine/preview.py:735-746 | accepts iff the entries are exactly the multiplicities of the expected codes |
| Validator.CheckPolicy | backend/app/action_engine/preview.py:442-464 | accepts iff flags, admin requirement, override and crossing agree with the records and the escalation keys |
| Validator.CheckAccess | backend/app/action_engine/preview.py:749-792 | accepts iff the stored access and decision snapshots are those of an authorised requester over exactly the five tables |
| Validator.ValidateReclaim | backend/app/action_engine/preview.py:264-351 | decides the validity of a reclaim preview |
| Validator.ValidateDisable | backend/app/action_engine/preview.py:368-479 | decides the validity of a disable preview |
| Validator.Validate | backend/app/action_engine/preview.py:354-365 | decides validity for either kind |
| Validator.ReclaimMayRepeat | backend/app/action_engine/preview.py:264-351 | a concrete reclaim preview with a repeated record validates and yet names no targets |
| Validator.DisableMayRespell | backend/app/action_engine/preview.py:368-479 | a concrete disable preview with one user in two spellings validates and yet names no targets |
| Locking.TargetsHeld | backend/app/action_engine/revalidation.py:105-126 | a record admitted by the first pass has its target row locked and current, even if the dependencies were read stale |
| Locking.LocksExactly | backend/app/action_engine/revalidation.py:105-126 | a pass locks exactly the rows of its targets that its session can read and, for users, may update |
| Locking.StageHolds | backend/app/action_engine/disable_execution.py:207-249 | each lock statement extends what is held for every admitted record, for reclaim (users, licenses) and disable (logins, memberships, groups, events) |
| Locking.HeldLasts | backend/app/action_engine/disable_execution.py:211-216 | what is held stays held under everything other sessions may do, including inserts that reference a locked user |
| Locking.ReclaimVerdictLasts | backend/app/action_engine/revalidation.py:230-264 | with assignment, user and license locked the reclaim verdict cannot change |
| Locking.DisableVerdictLasts | backend/app/action_engine/disable_execution.py:207-249 | with all four dependency stages locked the disable verdict cannot change |
| Locking.VerdictLasts | backend/app/action_engine/action_dispatch.py:41-59 | the same for either kind, through the dispatching lock step |
| Locking.UpdateExactly | backend/app/action_engine/executor.py:39-52 | the guarded update passes its row-count check iff the ids are distinct and every row still matches |
| Locking.UpdateIsAllowed | backend/app/action_engine/disable_execution.py:288-305 | an update of rows its own transaction holds respects every other session's locks |
| Locking.UpdateTurnsExactly | backend/app/action_engine/executor.py:39-50 | exactly the requested matching rows leave the executable state and no row enters it |
| Locking.ReclaimedExactly | backend/app/action_engine/executor.py:39-50 | the requested active assignments become reclaimed, and no other row, column or table changes |
| Locking.DisabledExactly | backend/app/action_engine/disable_execution.py:288-305 | the requested active human accounts become disabled, and nothing else changes |
| Execution.Tables.UpdateRows | backend/app/action_engine/executor.py:39-51 | the update writes exactly the matching rows and reports their number |
| Execution.Tables.Execute | backend/app/action_engine/executor.py:28-77 | succeeds iff the session boundary is secure and the update passes; then the table change is exact and one audit row is appended for each record, otherwise no audit row |
| Notices.EligibleApprovers | backend/app/action_engine/notifications.py:54-68 | the recipients loop returns the allowed users once each, in id order |
| Notices.DecisionExactly | backend/app/action_engine/approval.py:457-475 | who may decide on a stored preview, over permissions, scopes and the stored flags alone |
| Notices.EscalatedDecision | backend/app/action_engine/approval.py:650-668 | after an escalation only holders of the override permission decide, and if it found a crossing only holders of the global permission and scope |
| Notices.AdminExactly | backend/app/action_engine/preview.py:442-464 | a valid preview says that it needs an admin iff every decision allowed on it is an admin's |
| Notices.ApproversExactly | backend/app/action_engine/notifications.py:34-68 | a user is told iff active and allowed to decide on the stored preview at that moment, and nobody is told twice |
| Notices.DedupeNotices | backend/app/action_engine/approval.py:1078-1082 | the loop computes the insertion-ordered last-value dictionary |
| Notices.DedupeExactly | backend/app/action_engine/approval.py:1078-1082 | for each key the last notice given is kept, and only one |
| Notices.OnlyActiveExactly | backend/app/action_engine/approval.py:1085-1100 | exactly the notices of active recipients remain |
| Notices.NotToldExactly | backend/app/action_engine/approval.py:688-699 | an escalation tells exactly the eligible users without a pending notice |
| Lifecycle.OpenedKeeps | backend/app/action_engine/service.py:175-227 | a validated new preview satisfies the file invariant |
| Lifecycle.SubmitKeeps | backend/app/action_engine/service.py:236-350 | every outcome of submit and re-submit keeps the invariant and either commits nothing or moves the file towards its end |
| Lifecycle.CancelKeeps | backend/app/action_engine/service.py:497-566 | the same for cancel |
| Lifecycle.GateCodes | backend/app/action_engine/approval.py:286-307 | rejecting or approving goes on iff the pair is pending, not overdue and the policy allows the caller; an overdue one expires; otherwise nothing changes |
| Lifecycle.GateKeeps | backend/app/action_engine/approval.py:187-208 | the gate keeps the invariant |
| Lifecycle.RejectKeeps | backend/app/action_engine/approval.py:179-270 | every outcome of reject keeps the invariant and only moves forward |
| Lifecycle.ExpirePairExactly | backend/app/action_engine/approval.py:588-647 | the locked expiry succeeds iff the pair is pending and both deadlines passed; under the invariant any overdue pending pair expires |
| Lifecycle.ExpiriesAgree | backend/app/action_engine/service.py:801-848 | the three ways to expire an overdue request write the same rows |
| Lifecycle.ReadDetailKeeps | backend/app/action_engine/approval.py:138-170 | reading a detail keeps the invariant and only moves forward, however old the copy it judged |
| Lifecycle.DetailExpiresOverdue | backend/app/action_engine/approval.py:138-160 | whoever may decide on an earlier copy of a pending request, or audit, expires the request iff it is still pending and overdue by now; anybody else is told it does not exist |
| Lifecycle.ExpireSeenKeeps | backend/app/action_engine/approval.py:524-585 | the expiry done by listing keeps the invariant and only moves forward, however old the copy it judged |
| Lifecycle.ListingExpiresOverdue | backend/app/action_engine/approval.py:546-566 | however old the copy of a pending request, listing expires the request iff it is still pending and overdue by now and the caller may decide on it by the copy |
| Lifecycle.EscalationKeeps | backend/app/action_engine/approval.py:650-700 | an escalation keeps the whole invariant, valid preview and distinct notices included |
| Lifecycle.EscalationFlagsExactly | backend/app/action_engine/revalidation.py:267-276 | an escalation stores one flag for each code some executable record carries, in order |
| Lifecycle.EscalatesOnce | backend/app/action_engine/policy.py:77-84 | a caller who gets past the gate and lacks the override permission proves that the file was never escalated and stored no override requirement |
| Lifecycle.CompletionKeeps | backend/app/action_engine/approval.py:703-854 | completion keeps the whole invariant, with self-approval and watchers |
| Lifecycle.FailureKeeps | backend/app/action_engine/approval.py:857-959 | recording a failure keeps the invariant, or does nothing when the pair is no longer pending |
| Outcomes.SubmitExactly | backend/app/action_engine/service.py:236-350 | a request is entered iff its owner, with the permission, submits a live draft with at least one record; re-submitting a live pending request succeeds and changes nothing; an overdue one expires; otherwise nothing changes |
| Outcomes.SubmittedWaits | backend/app/action_engine/service.py:294-333 | a new request waits with one deadline a day ahead on both rows, and exactly the users who could decide now are told |
| Outcomes.CancelExactly | backend/app/action_engine/service.py:505-566 | a request is withdrawn iff its owner, with the permission, cancels it while pending and live; nobody is recorded as decider or told |
| Outcomes.CompletionTells | backend/app/action_engine/approval.py:809-853 | of a completion learn the active among requester, approver and, with an override, all eligible approvers, and nobody else |
| Outcomes.EscalationTells | backend/app/action_engine/approval.py:682-699 | after an escalation a user has a pending notice iff told before or now able to decide |
| Outcomes.FailureTells | backend/app/action_engine/approval.py:943-956 | of a failure learn the active among requester and approver, and nobody else |
| Outcomes.RefusalTells | backend/app/action_engine/approval.py:260-270 | of a rejection learns exactly the requester, if active, that the request was rejected |
| Outcomes.CompletionSays | backend/app/action_engine/approval.py:809-853 | what a completion notice says depends exactly on whether its reader approved, requested or neither |
| Outcomes.OthersSay | backend/app/action_engine/approval.py:943-956 | what the notices on pending and failed requests say |
| Outcomes.OpenedWaits | backend/app/action_engine/service.py:175-227 | a new draft can be submitted for half an hour and has neither approval nor notices |
| Outcomes.RefusalSigned | backend/app/action_engine/approval.py:209-241 | a rejection names who decided, when and why, and its audit row the same user |
| Outcomes.CompletionSigned | backend/app/action_engine/approval.py:703-808 | so does a completion, whose last audit row carries the executed ids |
| Outcomes.FailureSigned | backend/app/action_engine/approval.py:885-941 | so does a failure, with its category |
| Outcomes.WithdrawalSigned | backend/app/action_engine/service.py:534-566 | a cancellation names nobody as decider and keeps the reason given |
| Outcomes.ExpirySigned | backend/app/action_engine/approval.py:588-647 | an expiry names nobody as decider and keeps everything else |
| Casework.ActionRows.constructor | backend/app/action_engine/service.py:175-227 | a new draft with both deadlines half an hour ahead and one audit row |
| Casework.ActionRows.Expire | backend/app/action_engine/service.py:801-848 | the service's expiry assigns exactly the specified rows |
| Casework.ActionRows.SubmitRequest | backend/app/action_engine/service.py:236-350 | the method's rows and answer are those of `Submit`, in every branch |
| Casework.ActionRows.CancelRequest | backend/app/action_engine/service.py:497-566 | the method's rows and answer are those of `Cancel`, in every branch |
| Casework.ActionRows.UpdateAction | backend/app/action_engine/approval.py:209-218 | a conditional update changes the action iff it reports one row |
| Casework.ActionRows.UpdateApproval | backend/app/action_engine/approval.py:219-233 | a conditional update changes the approval iff it reports one row |
| Casework.ActionRows.ExpireOne | backend/app/action_engine/approval.py:588-647 | two conditional updates and a rollback expire the pair or change nothing |
| Casework.ActionRows.PassGate | backend/app/action_engine/approval.py:286-307 | the method's rows and answer are those of `Gate` |
| Casework.ActionRows.RejectRows | backend/app/action_engine/approval.py:209-241 | both rows are rejected iff both updates match, otherwise neither changes |
| Casework.ActionRows.RejectRequest | backend/app/action_engine/approval.py:179-276 | the method's rows and answer are those of `Reject` |
| Casework.ActionRows.Detail | backend/app/action_engine/approval.py:138-170 | the method's rows and answer are those of `ReadDetail`: visible and overdue by the copy read first, expired under the lock as the rows are by then |
| Casework.ActionRows.ExpireWhenListed | backend/app/action_engine/approval.py:546-583 | one row of a listing: filtered by the policy, judged by the copy read, updated as it is now; reports a change iff the rows changed |
| Casework.ExpirePendingRequests | backend/app/action_engine/approval.py:524-585 | refuses a caller without an approval permission and changes nothing; otherwise every row is treated by its own copy, and a change is reported iff some row changed |
| Casework.ActionRows.Claim | backend/app/action_engine/approval.py:366-379 | the claim marks the action as executing iff it is pending and not overdue |
| Casework.ActionRows.ExecuteApproved | backend/app/action_engine/approval.py:366-421 | after the claim, the mutation and the completion either all rows are those of `CompletedFile` with the exact table change and audit rows, or rows, tables and audit are as before; what is left to commit is never executing |
| Casework.ClaimedCompletes | backend/app/action_engine/approval.py:366-401 | completing a claimed file gives the same rows as completing the pending one |
| Casework.ActionRows.PersistEscalation | backend/app/action_engine/approval.py:650-700 | the method's rows are those of `EscalatedFile` |
| Casework.ActionRows.CompletionList | backend/app/action_engine/approval.py:809-852 | the loop lists the completion notices in order, watchers without requester and approver |
| Casework.ActionRows.StoreSkips | backend/app/action_engine/approval.py:724-759 | the step-by-step rewrite of the preview is `CompletedPreview` |
| Casework.ActionRows.CompleteSuccess | backend/app/action_engine/approval.py:703-854 | the method's rows are those of `CompletedFile` |
| Casework.ActionRows.PersistFailure | backend/app/action_engine/approval.py:857-959 | succeeds iff the pair is pending, and its rows are those of `FailedFile` |
| History.RowsAlternate | backend/app/action_engine/executor.py:54-75 | logging distinct rows that were not yet executed keeps the log alternating |
| History.AtMostOnce | backend/app/action_engine/executor.py:36-77 | between two logged executions of one row an outside change revived it |
| Safety.AfterFirstPassOk | backend/app/action_engine/approval.py:314-322 | the first pass leaves a transaction whose admitted records are locked targets |
| Safety.AfterLocksOk | backend/app/action_engine/approval.py:323-324 | a lock statement keeps and extends what the transaction relies on |
| Safety.AfterFinalPassOk | backend/app/action_engine/approval.py:325-336 | after the second pass and the stability check every executable record was admitted, is locked and is eligible now |
| Safety.TxnLasts | backend/app/action_engine/revalidation.py:234-240 | everything a transaction relies on survives all changes its locks allow |
| Safety.CommitGoesThrough | backend/app/action_engine/approval.py:366-382 | the claim of the pending action and the row-count check of the update never fail |
| Safety.CommitKeeps | backend/app/action_engine/approval.py:384-406 | the commit keeps the invariant for all files, all other transactions and the log, acknowledged or not |
| Steps.EscalationIsFirst | backend/app/action_engine/approval.py:347-363 | the escalation branch is only reached on a file without an escalation |
| Runs.StepKeepsInv | backend/app/action_engine/approval.py:278-454 | every step of every session and of the outside keeps the system invariant |
| Runs.RunKeepsInv | backend/app/action_engine/approval.py:278-454 | so does every run |
| Runs.CommittedFiles | backend/app/action_engine/approval.py:179-454 | in every reachable state each action has an allowed pair of statuses (the claim inside a transaction is `Casework.ActionRows.ExecuteApproved`), its preview validates, its trail is the one that fits its state with at most one escalation, no recipient has two notices of one type, the rows name a decider and the dates iff there was a decision, and the approval asks for an admin iff the preview does |
| Runs.OverdueAlwaysExpires | backend/app/action_engine/approval.py:293-306 | in every reachable state the locked expiry of an overdue pending pair succeeds |
| Runs.StepMoves | backend/app/action_engine/service.py:255-300 | a step leaves a file as it is or lowers its rank |
| Runs.DeadlinesStay | backend/app/action_engine/approval.py:546-566 | along any run a request that is still pending has the deadlines it had, so every earlier copy a reader may hold judges the same request |
| Runs.EndedStaysEnded | backend/app/action_engine/approval.py:501-512 | once an action of a reachable state has ended, no continuation of the run changes any of its rows, and no file ever moves back |
| Runs.FilesOnlyAdvance | backend/app/action_engine/approval.py:881-886 | along any run an action changes at most three times after its preview, and never after it has ended |
| Runs.CommitsAreSound | backend/app/action_engine/approval.py:309-364 | in every reachable state, whenever a commit is possible, the executed ids are distinct, contained in the first pass and in the targets, each still eligible at that moment, exactly the set the policy allows, and with the skips account for all targets |
| Steps.CommitIsExact | backend/app/action_engine/approval.py:384-406 | a commit changes exactly its executed rows, logs one row each, and completes its own pending action |
| Rules.CommitsAreAuthorised | backend/app/action_engine/approval.py:337-364 | in every reachable state the approver of a possible commit holds the global permission and scope if more than 20 records, a global request, a stored crossing or a row outside the request's department is involved, otherwise the scoped permission and scope; the override permission if any row is sensitive or outside; and every row it would execute is ready by the tables at that moment: unused for 60 days, or without a login for 90 |
| Rules.CommitSetsExactly | backend/app/action_engine/executor.py:39-52 | a commit makes exactly its rows reclaimed or disabled and changes nothing else in the tables |
| Rules.CommitLogsExactly | backend/app/action_engine/executor.py:54-75 | it logs one row for each executed record, in order, naming action, approver, user, department and time truthfully |
| Runs.OthersExecuteNothing | backend/app/action_engine/approval.py:419-443 | failed, lost, escalated or aborted attempts and all other calls leave tables and log untouched |
| Runs.RowsTurnOnlyInCommits | backend/app/action_engine/disable_execution.py:288-305 | in every reachable state a step of the system takes a row out of the executable state iff it is the commit that executes it |
| Accounting.CompletionAccounts | backend/app/action_engine/approval.py:724-759 | a completion whose two lists partition the targets stores exactly the skips of the targets it does not execute |
| Runs.AllOrNothing | backend/app/action_engine/executor.py:54-77 | in every reachable state the log names for each action exactly the records its trail says it executed, each once, and none unless it completed; of a completed action they are targets of its stored preview, and together with the skips its completion stored they are exactly all targets, none of them on both sides |
| Runs.NeverTwice | backend/app/action_engine/approval.py:366-434 | in every reachable state two executions of one row, by any actions, have an outside revival in between |
| Progress.QuietApprovalCompletes | backend/app/action_engine/approval.py:278-416 | undisturbed and allowed by the policy, an approval reaches the commit and executes exactly the eligible targets |
| Progress.SomeRunExecutes | backend/app/action_engine/service.py:226-227 | a run from no actions at all creates, submits, approves and executes a record, so the statements about reachable states are not empty |
| Timeline.StoryClimbs | backend/app/action_engine/audit.py:11-31 | the positions of the fixed order strictly increase along every trail |
| Timeline.ShownAsWritten | backend/app/action_engine/approval.py:1002-1006 | in whatever order rows are read, the timeline equals the order of writing iff stamps never go back |
| TimelineRuns.ShownAsWrittenInRuns | backend/app/action_engine/approval.py:1002-1006 | the same for every action of every reachable state |
| TimelineRuns.CancellationShownFirst | backend/app/action_engine/service.py:505-566 | a concrete run, of a cancellation that starts before the submission and waits for its lock, after which the timeline is not the order of writing |
| Grid.OverlapsIffSharedCell | backend/app/dashboards/editor.py:459-465 | two boxes overlap iff some grid cell lies in both |
| Grid.FirstAvailableCoordinates | backend/app/dashboards/editor.py:443-456 | the nested search returns the first free position in reading order, or fails iff there is none |
| Grid.FirstFitBound | backend/app/dashboards/editor.py:443-456 | with k boxes of height at most 4 and 6k within the grid the search succeeds at a row of at most 6k |
| Packing.PlaceItems | backend/app/dashboards/editor.py:345-371 | the two passes compute the specified placement |
| Packing.FillPacked | backend/app/dashboards/editor.py:337-375 | placed boxes are in bounds, of an allowed size, and pairwise disjoint |
| Packing.FillKeeps | backend/app/dashboards/editor.py:337-375 | the second pass moves nothing the first pass kept |
| Packing.FilledFirstFit | backend/app/dashboards/editor.py:357-370 | an item that keeps no stored box gets its default size at the first position free of the kept and the earlier placed boxes |
| Packing.KeptExactly | backend/app/dashboards/editor.py:337-375 | an item keeps its stored box iff it clashes with no earlier kept item |
| Packing.FillSucceeds | backend/app/dashboards/editor.py:443-456 | n items are all placed while six rows for each other item fit the grid |
| Packing.PlaceKeepsAll | backend/app/dashboards/editor.py:337-375 | stored boxes without overlaps are exactly what is placed |
| Dashboard.SizeTables | backend/app/dashboards/editor.py:61-160 | every default size is allowed, fits the grid and is at most three rows high; no size exceeds four rows |
| Dashboard.ValidBounds | backend/app/dashboards/editor.py:416-440 | valid boxes lie within twelve, six or one columns, start no lower than row 10000 and are at most four rows high |
| Dashboard.PersistRoundTrip | backend/app/dashboards/editor.py:314-323 | storing and parsing returns a layout iff it is valid for its type |
| Dashboard.ParsedIsValid | backend/app/dashboards/editor.py:263-311 | whatever JSON is stored, a parsed layout is valid |
| Dashboard.ParsedExactly | backend/app/dashboards/editor.py:263-311 | a stored value parses to a layout iff it is the stored form of that layout, up to the spelling of the version, and the layout is valid |
| Dashboard.NormalizeCardLayouts | backend/app/dashboards/editor.py:337-375 | the method computes the specified normalisation |
| Dashboard.NormalizedIsPacked | backend/app/dashboards/editor.py:337-375 | every card gets a valid box at every breakpoint and no two share a cell |
| Dashboard.CardKeptExactly | backend/app/dashboards/editor.py:337-375 | a card keeps its stored box at a breakpoint iff it parses and clashes with no earlier kept card there |
| Dashboard.EarlierKeepsPlace | backend/app/dashboards/editor.py:337-356 | of cards that clash, the one earlier by position, then creation, then id keeps its place: a card keeps its box iff it parses and clashes with no earlier card that keeps its own |
| Dashboard.OthersFirstFit | backend/app/dashboards/editor.py:357-370 | every other card gets its type's default size at the first position in reading order free of the kept and the earlier cards |
| Dashboard.NormalizeSucceeds | backend/app/dashboards/editor.py:443-456 | normalisation never fails for at most 1667 cards |
| Dashboard.NormalizeFixes | backend/app/dashboards/editor.py:326-375 | layouts that parse and do not overlap are returned unchanged |
| Dashboard.NormalizeIdempotent | backend/app/dashboards/editor.py:337-375 | normalising what was stored after a normalisation changes nothing, whatever the new positions |
| Dashboard.NormalizeForgetsOrder | backend/app/dashboards/editor.py:337-375 | the result does not depend on the order of the cards |
| Dashboard.PositionsFollowReadingOrder | backend/app/dashboards/editor.py:378-389 | without overlaps positions are a bijection onto 0..n-1 in strict reading order, and ids never decide |
| Dashboard.PositionsForgetOrder | backend/app/dashboards/editor.py:378-389 | positions do not depend on the dictionary's order |
| Identity.Field | backend/app/evaluation/identity.py:40-51 | the closure loop ends and returns the canonical field |
| Identity.CanonicalIffLinked | backend/app/evaluation/identity.py:40-51 | two fields have one canonical form iff a chain of equalities links them; the form is idempotent |
| Identity.CanonicalForgetsOrder | backend/app/evaluation/identity.py:40-51 | neither order nor repetition of the equalities matters |
| Identity.ReduceInOrder | backend/app/evaluation/identity.py:59-74 | reducing one table at a time in any order gives the one-shot reduction |
| Identity.Grain | backend/app/evaluation/identity.py:53-75 | the loop returns the grain |
| Identity.GrainReduces | backend/app/evaluation/identity.py:59-75 | a table with a single primary-key column collapses to it iff one of its non-null single-column keys, primary or unique, is among the canonical fields; of every other table all canonical fields stay |
| Identity.AnyKeyGivesOneGrain | backend/app/evaluation/identity.py:59-75 | grouping by any key of a table, with any other of its fields, gives one grain |
| Identity.GrainMeaning | backend/app/evaluation/identity.py:53-75 | over a database that enforces its keys, joined rows agree on the fields iff they agree on the grain |
| Identity.EqualGrainsGroupAlike | backend/app/evaluation/identity.py:53-75 | groupings with equal grains partition every such set of rows alike |
| Dispatch.DispatchGuard.constructor | backend/scripts/w6c_dispatch.py:46-73 | a fresh guard has the opening state with its first journal line |
| Dispatch.OpenGuard | backend/scripts/w6c_dispatch.py:46-73 | a guard exists iff the contract is good, the journal is new and both its first line and its directory are synced; each refusal has its own answer |
| Dispatch.DispatchGuard.BeginCase | backend/scripts/w6c_dispatch.py:82-94 | the method's state and outcome are those of the specification, whatever write falls short or fails |
| Dispatch.DispatchGuard.HandleRequest | backend/scripts/w6c_dispatch.py:124-194 | the same for a request, whatever write, callback or transport fails |
| Dispatch.DispatchGuard.FinishCase | backend/scripts/w6c_dispatch.py:101-122 | the same for finishing a case |
| Dispatch.DispatchGuard.StopWith | backend/scripts/w6c_dispatch.py:96-99 | the same for stopping |
| Dispatch.RunKeepsInv | backend/scripts/w6c_dispatch.py:75-194 | the budget invariant holds after any calls with any failures |
| Dispatch.NothingSentAfterStop | backend/scripts/w6c_dispatch.py:96-99 | once stopped the guard never calls the transport again |
| Dispatch.EarlyMarkBreaksBudget | backend/scripts/w6c_dispatch.py:101-122 | a request marked in advance, not last, leads to a run that breaks the budget |
| Dispatch.SafeExactlyWithoutEarlyMark | backend/scripts/w6c_dispatch.py:46-194 | sends within reservations within dispatches within calls, case order, write-ahead and a gap of at most one hold in all runs iff no request but the last is marked in advance |
| Transport.OnlyContractedRequests | backend/scripts/w6c_dispatch.py:124-194 | in every run, whatever fails and whatever marks arrive, each call of the transport carries the contracted verb, URL, authorization and body of its case, and each journal line fits the contract |
| Transport.HandleSendsExactly | backend/scripts/w6c_dispatch.py:124-194 | the transport is called iff the request is the contracted one of an active unsent case within the budget, past the callback and durably reserved; the guard goes on iff the answer was good and its line durable |
| Transport.BadExchangeIsLast | backend/scripts/w6c_dispatch.py:168-189 | after a redirect, an error status, a body that is too large or not JSON, incomplete usage or a wrong identity nothing more is ever sent |
| Transport.JudgedExactly | backend/scripts/w6c_dispatch.py:152-187 | each failure of an exchange is recorded under the code of its first cause |
| Transport.HandleRecords | backend/scripts/w6c_dispatch.py:143-194 | the guard remembers and writes down case, number and failure of exactly the requests it let through |
| Transport.FinishExactly | backend/scripts/w6c_dispatch.py:101-122 | a case ends iff its request was sent and its evidence, if any, is its own and well formed |
| Delivery.FirstRunRoundTrip | backend/app/query_engine/delivery.py:20-62 | a stored bound is restored as validation found it |
| Delivery.RestoredExactly | backend/app/query_engine/delivery.py:20-62 | whatever is stored, a bound restored as known is one that validation gives to some statement with the limit really executed, and each such bound can be restored |
| Delivery.RefreshKeepsBound | backend/app/query_engine/card_refresh.py:68-93 | a refresh keeps the restorable bound and refreshing again changes nothing |
| Delivery.ChainKeepsBound | backend/app/query_engine/card_refresh.py:170-186 | after any chain of refreshes from any earlier runs the bound is the first run's |
| Delivery.InputBoundIsAsked | backend/app/query_engine/delivery.py:20-62 | a bound counts as the question's own iff the question wrote it within the maximum; added and clamped bounds never turn into one |
| Evidence.WideningIsSound | backend/app/evaluation/evidence.py:263-284 | widening keeps a sound bound and the author's limit, and executes the lesser of that limit and 1001 |
| Evidence.WideningGrows | backend/app/evaluation/evidence.py:237-284 | a bound added or clamped for safety is widened iff rows can be compared and its limit is the only one, and then it grows |
| Evidence.ObservedCompleteExactly | backend/app/evaluation/evidence.py:593-627 | an observed side is complete iff comparable, not truncated, and ended before a limit of known origin or at the answer bound |
| Evidence.AuxiliaryCompleteExactly | backend/app/evaluation/evidence.py:175-234 | a widened side is complete iff comparable, uncut, and ended before its limit or at the answer bound |
| Evidence.ObservedReports | backend/app/evaluation/evidence.py:136-172 | every field an observed side reports, with the exact condition of each reason and delivery state |
| Evidence.AuxiliaryReports | backend/app/evaluation/evidence.py:175-234 | the same for a widened side |
| Evidence.AuxiliaryCompleteIsAnswer | backend/app/evaluation/evidence.py:175-234 | a complete widened side holds the author's answer: the full result, or exactly the result of a LIMIT that equals the answer bound |
| Evidence.ObservedCompleteIsAnswer | backend/app/evaluation/evidence.py:136-172 | the same for a complete observed side whose execution was not cut or had reached its limit |
| Evidence.ObservedSoundExactly | backend/app/evaluation/evidence.py:136-172 | a complete observed side is the author's answer for every possible full result iff its execution was not cut or had reached its limit |
| Evidence.Fetch | backend/app/query_engine/sql_executor.py:437-498 | the fetch loop yields a prefix within the row limit, all of it unless a flag says otherwise; the payload flag needs a budget, the timeout flag a deadline |
| Evidence.ObservedWithoutBudget | backend/app/evaluation/runner.py:698-831 | fetched without budget and deadline, a complete observed side is always the author's answer |
| Evidence.ObservedIgnoresCuts | backend/app/evaluation/evidence.py:136-172 | a concrete timed-out execution, for a direct call, is called complete though rows are missing |
| Evidence.CompleteSidesAgree | backend/app/evaluation/evidence.py:593-627 | over one snapshot a complete delivered side and a complete widened side hold the same rows |
| Evidence.UnknownIsNeverComplete | backend/app/evaluation/evidence.py:593-615 | an unknown bound is never complete |
| Stability.GroupByIdentity | backend/app/evaluation/stability.py:244-300 | the loop groups the well-formed runs by identity and notes malformed ones |
| Stability.SelectQualifying | backend/app/evaluation/stability.py:244-300 | the chosen group qualifies and has the newest run of all qualifying groups |
| Stability.SelectPartial | backend/app/evaluation/stability.py:860-878 | without a qualifying group the largest and then newest group is chosen |
| Stability.SelectsTheNewest | backend/app/evaluation/stability.py:273-283 | once three runs share an identity, the assessment names three runs of one identity, newest first by completion and run id, newer than the rest of their own and than every run of the other qualifying identities |
| Stability.IncompleteReasons | backend/app/evaluation/stability.py:264-272 | otherwise the verdict stays open, and the reason says exactly whether a run is malformed, identities differ, or runs are missing |
| Stability.AssessRuns | backend/app/evaluation/stability.py:244-369 | the verdict, reason and selected runs are a function of the set of runs |
| CanaryEvidence.ParseAll | backend/app/evaluation/stability.py:443-461 | the loop parses every result in order and counts, or ends at the first that does not parse |
| CanaryEvidence.ReadRun | backend/app/evaluation/stability.py:430-508 | decides which stored run is parsed, and into what |
| CanaryEvidence.ParsedExactly | backend/app/evaluation/stability.py:430-508 | a stored run counts iff its results are those of the suite, each is accepted, some is measured and the summary states their true numbers, in whatever order they are stored |
| CanaryEvidence.ParsedCoversSuite | backend/app/evaluation/stability.py:434-442 | a parsed run has one observation for each entry of its identity's suite and no others |
| CanaryEvidence.EvaluateStabilityCanary | backend/app/evaluation/stability.py:228-369 | from stored evidence, the verdict, reason and selected runs are a function of the set of parsed runs |
| Stability.PassedExactly | backend/app/evaluation/stability.py:228-369 | PASSED iff the newest qualifying group's newest three runs agree and each has every comparison established, no defect, at least 85 percent of the success cases executed and 75 percent correct, 80 percent of the clarifications asked, all unsafe cases blocked and all security cases passed, none of the four kinds missing |
| Stability.RunVerdictExactly | backend/app/evaluation/stability.py:730-800 | one run stands in the way of PASSED iff it misses one of those gates, by counting observations |
| Stability.VerdictStatus | backend/app/evaluation/stability.py:294-345 | an unestablished comparison leaves the verdict open, everything else fails it, defects first |
| CanaryEvidence.PassedRunsAgree | backend/app/evaluation/stability.py:300-369 | PASSED names three distinct runs of one identity; each observed every case of the suite as often as the suite lists it and no other case, and for every case all observations in the three runs agree on outcome, pass, score, contract and failure stage |
| CanaryEvidence.OneObservationEach | backend/app/evaluation/stability.py:434-442 | in a suite that lists no case twice a run observed each case exactly once |
| Stability.MalformedChangesNothing | backend/app/evaluation/stability.py:244-300 | once a group qualifies, malformed evidence changes nothing |
| Stability.OlderChangesNothing | backend/app/evaluation/stability.py:860-883 | a run of the selected group that ranks behind its newest three changes nothing |

## Assumptions

- Row-level security shows a session the rows of its global scope or of its departments; `SELECT ... FOR UPDATE` under
  the action role also applies the update policies, which for directory users hide all but active human accounts
  (`backend/alembic/versions/0010_disable_inactive_user_runtime.py`, lines 249 to 263). How the database enforces its
  policies is not modelled.
- `SELECT ... FOR UPDATE` waits for a conflicting lock, returns locked rows in their current version, and an insert or
  update that refers to a locked row waits. A deadlock or timeout is one of the failures that may strike at any time.
- The callback that runs before a dispatch does not call the guard again; the guard's lock would let it in.
- `validate_sql` beyond its limit rule is a parameter: which statements are accepted, and that a statement with a LIMIT
  yields that many of the rows it would yield without one.
- A suite lists no case twice; only `OneObservationEach` needs it.

## Left out

- JSON type checks of the stored previews: records, summaries and flags are typed values; a missing or ill-typed key is
  not representable, all value checks are kept.
- The handlers' `build_preview`, the request's scope and source-query checks, and the LIMIT 501 of the disable
  candidate query: runs start from a preview that validates.
- Audit summaries, severities, before and after states, and notification bodies and payloads, except the executed ids.
- Pagination, ordering and serialisation of the listing and of the details.
- Login, sessions, hashing, environment manifests and the registry of handlers.
- Role switching: the executor's check of role, read-only flag and row security is a parameter of `Execute`.
- ListCall: a step reads and updates one request; a listing of several is `ExpirePendingRequests` on its rows.
- GateCodes: the error answers are compared by code; messages and HTTP status numbers are not modelled.
- Field checks of stability artifacts (`_parse_envelope`, `_parse_result`, the planner block of `_parse_run`): an
  envelope, a result or a planner block is well formed or not; the rest of `_parse_run` is modelled.
- ContractOk: whether an API key is blank is decided on ASCII white space.
- Parsing of SQL in evidence and delivery: a statement is a body with its outer LIMIT, comparability is a flag.
- Visualization configuration and column names of dashboard cards: a card has its visualization type.
- Locks inside the dispatch guard: each call is atomic.
