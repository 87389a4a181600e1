/** The service calls on one action as they assign its rows, proved against the functions of the life cycle. */
module Casework {
  import opened Options
  import opened Policy
  import opened Revalidation
  import opened Snapshot
  import opened Notices
  import opened Lifecycle
  import opened Locking
  import opened Execution
  import Validator

  /** How the locked part of an approval ends: the claim found nothing to claim, something failed, or all is done. */
  datatype Attempt = Lost | Broken | Finished

  class ActionRows {
    var status: ActionStatus
    var previewDeadline: Option<int>
    var deadline: Option<int>
    var preview: Preview
    var approval: Option<Approval>
    var approvedAt: Option<int>
    var executedAt: Option<int>
    var completedAt: Option<int>
    var failure: string
    var trail: seq<Event>
    var notices: seq<Notice>

    function View(): CaseFile
      reads this
    {
      CaseFile(status, previewDeadline, deadline, preview, approval, approvedAt, executedAt, completedAt, failure,
               trail, notices)
    }

    constructor (p: Preview, user: nat, now: int, stamp: int)
      ensures View() == Opened(p, user, now, stamp)
    {
      status := Draft;
      previewDeadline := Some(now + PREVIEW_LIFETIME);
      deadline := Some(now + PREVIEW_LIFETIME);
      preview := p;
      approval := None;
      approvedAt, executedAt, completedAt := None, None, None;
      failure := "";
      trail := [Note(PreviewCreated, user, stamp)];
      notices := [];
    }

    method Rollback(saved: CaseFile)
      modifies this
      ensures View() == saved
    {
      status, previewDeadline, deadline := saved.status, saved.previewDeadline, saved.deadline;
      preview, approval := saved.preview, saved.approval;
      approvedAt, executedAt, completedAt := saved.approvedAt, saved.executedAt, saved.completedAt;
      failure, trail, notices := saved.failure, saved.trail, saved.notices;
    }

    // ----- the requester

    method Expire(user: nat, now: int, stamp: int)
      modifies this
      ensures View() == ExpiredByService(old(View()), user, now, stamp)
    {
      status := Expired;
      if approval.Some? && approval.value.status == ApprovalPending {
        approval := Some(approval.value.(status := ApprovalExpired, decidedAt := Some(now)));
      }
      trail := trail + [Note(ActionExpired, user, stamp)];
    }

    method Enter(user: nat, now: int, stamp: int, recipients: seq<nat>)
      modifies this
      ensures View() == SubmittedTo(old(View()), user, now, stamp, recipients)
    {
      status := Pending;
      deadline := Some(now + PENDING_LIFETIME);
      approval := Some(Approval(ApprovalPending, deadline, None, None, "",
                                if preview.requiresAdmin then AdminApprover else AnyApprover));
      notices := notices + PendingNotices(recipients);
      trail := trail + [Note(ActionRequested, user, stamp)];
    }

    method SubmitRequest(user: User, now: int, stamp: int, users: seq<User>) returns (code: Code)
      modifies this
      ensures Reply(View(), code) == Submit(old(View()), user, now, stamp, users)
    {
      if RequestAction !in user.permissions {
        return Forbidden;
      }
      if preview.requester != user.id {
        return RequestNotFound;
      }
      if (status == Pending && Passed(deadline, now)) || (status == Draft && Passed(previewDeadline, now)) {
        Expire(user.id, now, stamp);
        return RequestExpired;
      }
      if status != Pending && status != Draft {
        return AlreadyProcessed;
      }
      var valid := Validator.Validate(preview);
      if !valid {
        return PreviewUnavailable;
      }
      if status == Pending {
        return if approval.None? then AlreadyProcessed else Done;
      }
      if preview.recordCount <= 0 {
        return NotEligible;
      }
      var recipients := EligibleApprovers(users, preview);
      Enter(user.id, now, stamp, recipients);
      return Done;
    }

    method CancelRequest(user: User, reason: string, now: int, stamp: int) returns (code: Code)
      modifies this
      ensures Reply(View(), code) == Cancel(old(View()), user, reason, now, stamp)
    {
      if RequestAction !in user.permissions {
        return Forbidden;
      }
      if preview.requester != user.id {
        return RequestNotFound;
      }
      if status == Pending && Passed(deadline, now) {
        Expire(user.id, now, stamp);
        return RequestExpired;
      }
      if status != Pending {
        return CannotBeCancelled;
      }
      var valid := Validator.Validate(preview);
      if !valid {
        return PreviewUnavailable;
      }
      if approval.None? || approval.value.status != ApprovalPending {
        return AlreadyProcessed;
      }
      status := Cancelled;
      approval := Some(approval.value.(status := ApprovalCancelled, reason := reason, decidedAt := Some(now)));
      trail := trail + [Note(ActionCancelled, user.id, stamp)];
      return Done;
    }

    // ----- the conditional updates: each says how many rows it matched

    method UpdateAction(next: ActionStatus, due: bool, now: int) returns (rows: nat)
      modifies this`status
      ensures rows == if old(status) == Pending && Passed(deadline, now) == due then 1 else 0
      ensures status == if rows == 1 then next else old(status)
    {
      rows := 0;
      if status == Pending && Passed(deadline, now) == due {
        status := next;
        rows := 1;
      }
    }

    method UpdateApproval(next: Approval, due: bool, now: int) returns (rows: nat)
      requires approval.Some?
      modifies this`approval
      ensures rows == if old(approval).value.status == ApprovalPending
              && Passed(old(approval).value.deadline, now) == due then 1 else 0
      ensures approval == if rows == 1 then Some(next) else old(approval)
    {
      rows := 0;
      if approval.value.status == ApprovalPending && Passed(approval.value.deadline, now) == due {
        approval := Some(next);
        rows := 1;
      }
    }

    method ExpireOne(user: nat, now: int, stamp: int) returns (ok: bool)
      requires approval.Some?
      modifies this
      ensures ok == ExpirePair(old(View()), user, now, stamp).Some?
      ensures View() == if ok then ExpirePair(old(View()), user, now, stamp).value else old(View())
    {
      var saved := View();
      var actionRows := UpdateAction(Expired, true, now);
      var approvalRows := UpdateApproval(approval.value.(status := ApprovalExpired, decidedAt := Some(now)), true, now);
      if actionRows != 1 || approvalRows != 1 {
        Rollback(saved);
        return false;
      }
      trail := trail + [Note(ActionExpired, user, stamp)];
      return true;
    }

    // ----- the approver

    method PassGate(user: User, now: int, stamp: int) returns (code: Code)
      modifies this
      ensures Reply(View(), code) == Gate(old(View()), user, now, stamp)
    {
      if approval.None? || !DecisionOn(preview, user).allowed {
        return ApprovalNotFound;
      }
      if Open(View()) && EitherPassed(View(), now) {
        var expired := ExpireOne(user.id, now, stamp);
        return if expired then RequestExpired else AlreadyProcessed;
      }
      return if Open(View()) then Done else AlreadyProcessed;
    }

    /** Both rows or neither. */
    method RejectRows(user: nat, reason: string, now: int) returns (ok: bool)
      requires approval.Some?
      modifies this
      ensures ok <==> Open(old(View())) && !EitherPassed(old(View()), now)
      ensures View() == if ok then old(View()).(status := Rejected,
                            approval := Some(old(approval).value.(status := ApprovalRejected, decidedBy := Some(user),
                                                                  decidedAt := Some(now), reason := reason)))
                        else old(View())
    {
      var saved := View();
      var actionRows := UpdateAction(Rejected, false, now);
      var approvalRows := UpdateApproval(approval.value.(status := ApprovalRejected, decidedBy := Some(user),
                                                         decidedAt := Some(now), reason := reason), false, now);
      ok := actionRows == 1 && approvalRows == 1;
      if !ok {
        Rollback(saved);
      }
    }

    method RejectRequest(user: User, reason: string, now: int, stamp: int, users: seq<User>) returns (code: Code)
      modifies this
      ensures Reply(View(), code) == Reject(old(View()), user, reason, now, stamp, users)
    {
      code := PassGate(user, now, stamp);
      if code == Done {
        var ok := RejectRows(user.id, reason, now);
        trail := trail + [Note(ActionRejected, user.id, stamp)];
        notices := notices + OnlyActive([Notice(preview.requester, RejectedNotice, RequestRejected)], users);
      }
    }

    /** Reading one request: visible and overdue by the copy read before, expired under its lock as it is now. */
    method Detail(seen: CaseFile, user: User, auditor: bool, now: int, stamp: int) returns (code: Code)
      modifies this
      ensures Reply(View(), code) == ReadDetail(old(View()), seen, user, auditor, now, stamp)
    {
      if seen.approval.None? || (!DecisionOn(seen.preview, user).allowed && !auditor) {
        return ApprovalNotFound;
      }
      if seen.status == Pending && EitherPassed(seen, now) {
        if approval.None? {
          return ApprovalNotFound;
        }
        if Open(View()) && EitherPassed(View(), now) {
          var _ := ExpireOne(user.id, now, stamp);
        }
      }
      return Done;
    }

    /** One row of a listing: judged by the copy read before, updated as it is now. */
    method ExpireWhenListed(seen: CaseFile, user: User, now: int, stamp: int) returns (changed: bool)
      modifies this
      ensures View() == ExpireSeen(old(View()), seen, user, now, stamp)
      ensures changed <==> View() != old(View())
    {
      changed := false;
      if Open(seen) && EitherPassed(seen, now) && DecisionOn(seen.preview, user).allowed {
        if status == Pending && approval.Some? {
          status := Expired;
          approval := Some(approval.value.(status := ApprovalExpired, decidedAt := Some(now)));
          trail := trail + [Note(ActionExpired, user.id, stamp)];
          changed := true;
        }
      }
    }

    // ----- claiming and executing

    method Claim(now: int) returns (rows: nat)
      modifies this`status, this`approvedAt
      ensures rows == if old(status) == Pending && !Passed(deadline, now) then 1 else 0
      ensures View() == if rows == 1 then old(View()).(status := Executing, approvedAt := Some(now)) else old(View())
    {
      rows := 0;
      if status == Pending && !Passed(deadline, now) {
        status := Executing;
        approvedAt := Some(now);
        rows := 1;
      }
    }

    /** The claim, the mutation and the completion of an approval, on the working copies of one transaction. While the
        records are executed the action stands as executing; what is left to commit never does. */
    method ExecuteApproved(tables: Tables, session: Session, action: nat, user: nat, reason: string, final: Result,
                           now: int, stamp: int, users: seq<User>)
      returns (attempt: Attempt)
      requires approval.Some? && status != Executing
      modifies this, tables
      ensures attempt == Lost <==> !Open(old(View())) || Passed(old(deadline), now)
      ensures attempt == Finished <==>
              && Open(old(View())) && !Passed(old(deadline), now)
              && session == Session("queryops_action_runtime", false, true)
              && Update(old(tables.world), old(preview.kind), ExecutableIds(final.executable)).Some?
      ensures attempt == Finished ==>
              && View() == CompletedFile(old(View()), user, reason, final, now, stamp, users)
              && tables.world == Update(old(tables.world), old(preview.kind), ExecutableIds(final.executable)).value
              && tables.audit == old(tables.audit) + AuditRows(final.executable, old(preview.kind), action, user, now)
      ensures attempt != Finished ==>
              View() == old(View()) && tables.world == old(tables.world) && tables.audit == old(tables.audit)
      ensures status != Executing
    {
      var saved, world, audit := View(), tables.world, tables.audit;
      var rows := Claim(now);
      if rows != 1 || approval.value.status != ApprovalPending {
        Rollback(saved);
        return Lost;
      }
      assert status == Executing;
      var executed := tables.Execute(session, preview.kind, final.executable, action, user, now);
      if executed.None? {
        Rollback(saved);
        tables.Rollback(world, audit);
        return Broken;
      }
      ClaimedCompletes(saved, user, reason, final, now, stamp, users);
      CompleteSuccess(user, reason, final, now, stamp, users);
      return Finished;
    }

    method RaisePolicy(final: Result)
      modifies this`preview
      ensures preview == Escalated(old(preview), EscalationFlags(final), final.crosses)
    {
      var policy := preview.policy.(escalation := Some(Escalation(EscalationFlags(final), final.crosses)));
      preview := preview.(policy := policy);
      preview := preview.(requiresAdmin := true);
    }

    method StoreEscalation(user: nat, stamp: int, recipients: seq<nat>)
      requires approval.Some?
      modifies this
      ensures View() == EscalatedTo(old(View()), user, old(preview), stamp, recipients)
    {
      approval := Some(approval.value.(role := AdminApprover));
      trail := trail + [Note(ApprovalEscalated, user, stamp)];
      notices := notices + PendingNotices(recipients);
    }

    method PersistEscalation(user: nat, final: Result, stamp: int, users: seq<User>)
      requires approval.Some?
      modifies this
      ensures View() == EscalatedFile(old(View()), user, final, stamp, users)
    {
      RaisePolicy(final);
      var recipients := EligibleApprovers(users, preview);
      StoreEscalation(user, stamp, NotTold(recipients, notices));
    }

    method WatcherList(ids: seq<nat>, requester: nat, actor: nat) returns (items: seq<Notice>)
      ensures items == Watchers(ids, requester, actor)
    {
      items := [];
      for n := 0 to |ids|
        invariant items == Watchers(ids[..n], requester, actor)
      {
        assert ids[..n + 1][..n] == ids[..n];
        if ids[n] != requester && ids[n] != actor {
          items := items + [Notice(ids[n], CompletedNotice, SensitiveCompleted)];
        }
      }
      assert ids[..|ids|] == ids;
    }

    method CompletionList(actor: nat, override: bool, users: seq<User>) returns (items: seq<Notice>)
      ensures items == CompletionNotices(preview, actor, override, users)
    {
      items := [Notice(preview.requester, ApprovedNotice, RequestApproved),
                Notice(preview.requester, CompletedNotice, RequestCompleted),
                Notice(actor, CompletedNotice, ApprovedCompleted)];
      if override {
        var recipients := EligibleApprovers(users, preview);
        var watchers := WatcherList(recipients, preview.requester, actor);
        items := items + watchers;
      }
    }

    method StoreSkips(skips: seq<Skipped>)
      modifies this`preview
      ensures preview == CompletedPreview(old(preview), skips)
    {
      var skipped := preview.skipped + SkipRecords(preview.kind, skips);
      var exclusions := CountSkips(ReasonCodes(skipped) + OverrideCodes(preview.overrides));
      preview := preview.(skipped := skipped, exclusions := exclusions, skippedCount := |skipped|);
      var summary := preview.summary.(skipped := |skipped|);
      if summary.DisableSummary? {
        summary := summary.(serviceAccounts := CountReason(skipped, SERVICE_ACCOUNT));
        summary := summary.(recentLogins := CountReason(skipped, RECENT_LOGIN));
      }
      preview := preview.(summary := summary);
    }

    method StoreCompletion(user: nat, reason: string, ids: seq<nat>, now: int, stamp: int, told: seq<Notice>)
      requires approval.Some?
      modifies this
      ensures View() == CompletedTo(old(View()), user, reason, old(preview), ids, now, stamp, told)
    {
      approval := Some(approval.value.(status := ApprovalApproved, decidedBy := Some(user), decidedAt := Some(now),
                                       reason := reason));
      status := Completed;
      approvedAt, executedAt, completedAt := Some(now), Some(now), Some(now);
      trail := trail + CompletionEvents(user, stamp, ids);
      notices := notices + told;
    }

    method CompleteSuccess(user: nat, reason: string, final: Result, now: int, stamp: int, users: seq<User>)
      requires approval.Some?
      modifies this
      ensures View() == CompletedFile(old(View()), user, reason, final, now, stamp, users)
    {
      StoreSkips(final.skipped);
      var items := CompletionList(user, final.RequiresOverride(), users);
      items := DedupeNotices(items);
      StoreCompletion(user, reason, ExecutableIds(final.executable), now, stamp, OnlyActive(items, users));
    }

    method PersistFailure(user: nat, reason: string, category: string, now: int, stamp: int, users: seq<User>)
      returns (ok: bool)
      modifies this
      ensures ok == Open(old(View()))
      ensures View() == FailedFile(old(View()), user, reason, category, now, stamp, users)
    {
      if status != Pending || approval.None? || approval.value.status != ApprovalPending {
        return false;
      }
      status := Failed;
      failure := category;
      completedAt := Some(now);
      approval := Some(approval.value.(status := ApprovalApproved, decidedBy := Some(user), decidedAt := Some(now),
                                       reason := reason));
      trail := trail + [Note(ActionFailed, user, stamp)];
      notices := notices + OnlyActive(FailureNotices(preview.requester, user), users);
      return true;
    }
  }

  /** Completing a claimed file is completing the file. */
  lemma ClaimedCompletes(f: CaseFile, user: nat, reason: string, final: Result, now: int, stamp: int, users: seq<User>)
    requires f.approval.Some?
    ensures CompletedFile(f.(status := Executing, approvedAt := Some(now)), user, reason, final, now, stamp, users)
            == CompletedFile(f, user, reason, final, now, stamp, users)
  {
  }

  /** The expiry a listing does first: every row of the query's result, in turn. */
  method ExpirePendingRequests(rows: seq<ActionRows>, seen: seq<CaseFile>, user: User, now: int, stamp: int)
    returns (code: Code, changed: bool)
    requires |rows| == |seen| && forall i, j | 0 <= i < j < |rows| :: rows[i] != rows[j]
    modifies set r | r in rows
    ensures code == if {ApproveScoped, ApproveGlobal, ApproveOverride} * user.permissions == {} then Forbidden else Done
    ensures code == Done ==> forall i | 0 <= i < |rows| ::
              rows[i].View() == ExpireSeen(old(rows[i].View()), seen[i], user, now, stamp)
    ensures code == Forbidden ==> forall i | 0 <= i < |rows| :: rows[i].View() == old(rows[i].View())
    ensures changed <==> exists i :: 0 <= i < |rows| && rows[i].View() != old(rows[i].View())
  {
    changed := false;
    if {ApproveScoped, ApproveGlobal, ApproveOverride} * user.permissions == {} {
      return Forbidden, false;
    }
    for n := 0 to |rows|
      invariant forall i | 0 <= i < n :: rows[i].View() == ExpireSeen(old(rows[i].View()), seen[i], user, now, stamp)
      invariant forall i | n <= i < |rows| :: rows[i].View() == old(rows[i].View())
      invariant changed <==> exists i :: 0 <= i < n && rows[i].View() != old(rows[i].View())
    {
      label Before:
      var one := rows[n].ExpireWhenListed(seen[n], user, now, stamp);
      assert forall i | 0 <= i < |rows| && i != n :: rows[i].View() == old@Before(rows[i].View());
      changed := changed || one;
    }
    code := Done;
  }
}
