/** The life of one action: its request, its approval, its audit trail and its notices,
    and what every committed step keeps of them. */
module Lifecycle {
  import opened Options
  import opened Policy
  import opened Revalidation
  import opened Snapshot
  import opened Notices
  import Sorting
  import Strings

  const PREVIEW_LIFETIME := 1_800
  const PENDING_LIFETIME := 86_400

  datatype ActionStatus = Draft | Pending | Executing | Completed | Failed | Rejected | Cancelled | Expired

  datatype ApprovalStatus = ApprovalPending | ApprovalApproved | ApprovalRejected | ApprovalCancelled | ApprovalExpired

  datatype Role = AnyApprover | AdminApprover

  datatype Approval = Approval(status: ApprovalStatus, deadline: Option<int>, decidedBy: Option<nat>,
                               decidedAt: Option<int>,
                               reason: string, role: Role)

  datatype EventKind =
    | PreviewCreated | ActionRequested | ApprovalEscalated | ActionApproved | ActionExecuted
    | ActionRejected | ActionCancelled | ActionExpired | ActionFailed

  /** An audit row; `at` is the start of the transaction that wrote it, `records` what it executed. */
  datatype Event = Event(kind: EventKind, actor: nat, at: int, records: seq<nat>)

  /** The rows of one action: an approval belongs to one action, and an action has at most one. */
  datatype CaseFile = CaseFile(status: ActionStatus, previewDeadline: Option<int>, deadline: Option<int>,
                               preview: Preview,
                               approval: Option<Approval>, approvedAt: Option<int>, executedAt: Option<int>,
                               completedAt: Option<int>, failure: string, trail: seq<Event>, notices: seq<Notice>)

  datatype Code =
    | Done | Forbidden | RequestNotFound | ApprovalNotFound | AlreadyProcessed | RequestExpired
    | PreviewUnavailable | NotEligible | CannotBeCancelled

  /** What a call leaves committed, and how it answers. */
  datatype Reply = Reply(file: CaseFile, code: Code)

  predicate Passed(deadline: Option<int>, now: int) {
    deadline.None? || deadline.value <= now
  }

  /** A pending request with its pending approval. */
  predicate Open(f: CaseFile) {
    f.status == Pending && f.approval.Some? && f.approval.value.status == ApprovalPending
  }

  predicate EitherPassed(f: CaseFile, now: int)
    requires f.approval.Some?
  {
    Passed(f.deadline, now) || Passed(f.approval.value.deadline, now)
  }

  function Note(kind: EventKind, user: nat, stamp: int): Event {
    Event(kind, user, stamp, [])
  }

  // ----- the requester's calls

  function Opened(p: Preview, user: nat, now: int, stamp: int): CaseFile {
    CaseFile(Draft, Some(now + PREVIEW_LIFETIME), Some(now + PREVIEW_LIFETIME), p, None, None, None, None, "",
             [Note(PreviewCreated, user, stamp)], [])
  }

  /** Expiry as the requester's service does it: whatever the approval is, only a pending one is touched. */
  function ExpiredByService(f: CaseFile, user: nat, now: int, stamp: int): CaseFile {
    f.(status := Expired, trail := f.trail + [Note(ActionExpired, user, stamp)],
       approval := if f.approval.Some? && f.approval.value.status == ApprovalPending
                   then Some(f.approval.value.(status := ApprovalExpired, decidedAt := Some(now))) else f.approval)
  }

  function SubmittedTo(f: CaseFile, user: nat, now: int, stamp: int, recipients: seq<nat>): CaseFile {
    var deadline := Some(now + PENDING_LIFETIME);
    f.(status := Pending, deadline := deadline,
       approval := Some(Approval(ApprovalPending, deadline, None, None, "",
                                 if f.preview.requiresAdmin then AdminApprover else AnyApprover)),
       trail := f.trail + [Note(ActionRequested, user, stamp)],
       notices := f.notices + PendingNotices(recipients))
  }

  function Submitted(f: CaseFile, user: nat, now: int, stamp: int, users: seq<User>): CaseFile {
    SubmittedTo(f, user, now, stamp, Approvers(users, f.preview))
  }

  ghost function Submit(f: CaseFile, user: User, now: int, stamp: int, users: seq<User>): Reply {
    if RequestAction !in user.permissions then Reply(f, Forbidden)
    else if f.preview.requester != user.id then Reply(f, RequestNotFound)
    else if f.status == Pending then
      if Passed(f.deadline, now) then Reply(ExpiredByService(f, user.id, now, stamp), RequestExpired)
      else if !Valid(f.preview) then Reply(f, PreviewUnavailable)
      else if f.approval.None? then Reply(f, AlreadyProcessed)
      else Reply(f, Done)
    else if f.status != Draft then Reply(f, AlreadyProcessed)
    else if Passed(f.previewDeadline, now) then Reply(ExpiredByService(f, user.id, now, stamp), RequestExpired)
    else if !Valid(f.preview) then Reply(f, PreviewUnavailable)
    else if f.preview.recordCount <= 0 then Reply(f, NotEligible)
    else Reply(Submitted(f, user.id, now, stamp, users), Done)
  }

  function Withdrawn(f: CaseFile, user: nat, reason: string, now: int, stamp: int): CaseFile
    requires f.approval.Some?
  {
    f.(status := Cancelled, trail := f.trail + [Note(ActionCancelled, user, stamp)],
       approval := Some(f.approval.value.(status := ApprovalCancelled, reason := reason, decidedAt := Some(now))))
  }

  ghost function Cancel(f: CaseFile, user: User, reason: string, now: int, stamp: int): Reply {
    if RequestAction !in user.permissions then Reply(f, Forbidden)
    else if f.preview.requester != user.id then Reply(f, RequestNotFound)
    else if f.status == Pending && Passed(f.deadline, now) then
      Reply(ExpiredByService(f, user.id, now, stamp), RequestExpired)
    else if f.status != Pending then Reply(f, CannotBeCancelled)
    else if !Valid(f.preview) then Reply(f, PreviewUnavailable)
    else if !Open(f) then Reply(f, AlreadyProcessed)
    else Reply(Withdrawn(f, user.id, reason, now, stamp), Done)
  }

  // ----- the approver's calls

  function Settled(f: CaseFile, status: ActionStatus, approval: ApprovalStatus, user: nat, reason: string, now: int,
                   kind: EventKind, stamp: int): CaseFile
    requires f.approval.Some?
  {
    f.(status := status, trail := f.trail + [Note(kind, user, stamp)],
       approval := Some(f.approval.value.(status := approval, decidedBy := Some(user), decidedAt := Some(now),
                                          reason := reason)))
  }

  function Lapsed(f: CaseFile, user: nat, now: int, stamp: int): CaseFile
    requires f.approval.Some?
  {
    f.(status := Expired, trail := f.trail + [Note(ActionExpired, user, stamp)],
       approval := Some(f.approval.value.(status := ApprovalExpired, decidedAt := Some(now))))
  }

  /** Expiry of a locked pair: two conditional updates that must both find their row. */
  function ExpirePair(f: CaseFile, user: nat, now: int, stamp: int): Option<CaseFile> {
    if Open(f) && Passed(f.deadline, now) && Passed(f.approval.value.deadline, now)
    then Some(Lapsed(f, user, now, stamp)) else None
  }

  /** What rejecting and approving ask of the locked pair first. */
  function Gate(f: CaseFile, user: User, now: int, stamp: int): Reply {
    if f.approval.None? || !DecisionOn(f.preview, user).allowed then Reply(f, ApprovalNotFound)
    else if Open(f) && EitherPassed(f, now) then
      var lapsed := ExpirePair(f, user.id, now, stamp);
      if lapsed.Some? then Reply(lapsed.value, RequestExpired) else Reply(f, AlreadyProcessed)
    else if !Open(f) then Reply(f, AlreadyProcessed)
    else Reply(f, Done)
  }

  function Refused(f: CaseFile, user: nat, reason: string, now: int, stamp: int, users: seq<User>): CaseFile
    requires f.approval.Some?
  {
    var g := Settled(f, Rejected, ApprovalRejected, user, reason, now, ActionRejected, stamp);
    g.(notices := f.notices + OnlyActive([Notice(f.preview.requester, RejectedNotice, RequestRejected)], users))
  }

  function Reject(f: CaseFile, user: User, reason: string, now: int, stamp: int, users: seq<User>): Reply {
    var gate := Gate(f, user, now, stamp);
    if gate.code == Done then Reply(Refused(f, user.id, reason, now, stamp, users), Done) else gate
  }

  predicate MayRead(f: CaseFile, user: User, auditor: bool) {
    f.approval.Some? && (DecisionOn(f.preview, user).allowed || auditor)
  }

  /** Reading the detail judges the copy it read, `seen`, and locks the pair only if that looks overdue; the locked
      pair is then judged again as it is by now. The answer itself is not modelled. */
  function ReadDetail(f: CaseFile, seen: CaseFile, user: User, auditor: bool, now: int, stamp: int): Reply {
    if !MayRead(seen, user, auditor) then Reply(f, ApprovalNotFound)
    else if seen.status != Pending || !EitherPassed(seen, now) then Reply(f, Done)
    else if f.approval.None? then Reply(f, ApprovalNotFound)
    else if Open(f) && EitherPassed(f, now) then
      var lapsed := ExpirePair(f, user.id, now, stamp);
      Reply(if lapsed.Some? then lapsed.value else f, Done)
    else Reply(f, Done)
  }

  /** Listing judges the copy it read, `seen`, and then updates the rows as they are by now: the action's update is
      conditional on its status, the approval's is not. */
  function ExpireSeen(f: CaseFile, seen: CaseFile, user: User, now: int, stamp: int): CaseFile {
    if Open(seen) && EitherPassed(seen, now) && DecisionOn(seen.preview, user).allowed && f.status == Pending
      && f.approval.Some?
    then Lapsed(f, user.id, now, stamp) else f
  }

  /** While a request stays pending its deadlines stay. */
  predicate SameRequest(f: CaseFile, g: CaseFile) {
    f.status == Pending && g.status == Pending ==>
      && f.approval.Some? && g.approval.Some?
      && g.deadline == f.deadline && g.approval.value.deadline == f.approval.value.deadline
  }

  // ----- the outcomes of an approval

  function OverrideList(records: seq<Executable>): seq<string> {
    if records == [] then [] else OverrideList(records[..|records| - 1]) + records[|records| - 1].overrides
  }

  function FlagsFor(codes: seq<string>): (flags: seq<Flag>)
    ensures |flags| == |codes| && forall i | 0 <= i < |flags| :: flags[i] == Flag(codes[i], true, true)
  {
    seq(|codes|, i requires 0 <= i < |codes| => Flag(codes[i], true, true))
  }

  /** The revalidation flags an escalation stores: one for each override code, in order. */
  function EscalationFlags(final: Result): seq<Flag> {
    FlagsFor(InOrder(Sorting.Unique(OverrideList(final.executable))))
  }

  function EscalatedTo(f: CaseFile, user: nat, p: Preview, stamp: int, recipients: seq<nat>): CaseFile
    requires f.approval.Some?
  {
    f.(preview := p, approval := Some(f.approval.value.(role := AdminApprover)),
       trail := f.trail + [Note(ApprovalEscalated, user, stamp)],
       notices := f.notices + PendingNotices(recipients))
  }

  function EscalatedFile(f: CaseFile, user: nat, final: Result, stamp: int, users: seq<User>): CaseFile
    requires f.approval.Some?
  {
    var p := Escalated(f.preview, EscalationFlags(final), final.crosses);
    EscalatedTo(f, user, p, stamp, NotTold(Approvers(users, p), f.notices))
  }

  function Watchers(ids: seq<nat>, requester: nat, actor: nat): seq<Notice> {
    if ids == [] then []
    else
      var last := ids[|ids| - 1];
      Watchers(ids[..|ids| - 1], requester, actor)
      + (if last == requester || last == actor then [] else [Notice(last, CompletedNotice, SensitiveCompleted)])
  }

  function CompletionNotices(p: Preview, actor: nat, override: bool, users: seq<User>): seq<Notice> {
    [Notice(p.requester, ApprovedNotice, RequestApproved),
     Notice(p.requester, CompletedNotice, RequestCompleted),
     Notice(actor, CompletedNotice, ApprovedCompleted)]
    + (if override then Watchers(Approvers(users, p), p.requester, actor) else [])
  }

  function CompletionTold(p: Preview, actor: nat, override: bool, users: seq<User>): seq<Notice> {
    OnlyActive(Dedupe(CompletionNotices(p, actor, override, users)), users)
  }

  function CompletionEvents(user: nat, stamp: int, ids: seq<nat>): (events: seq<Event>)
    ensures Kinds(events) == Ending(Completed)
  {
    [Note(ActionApproved, user, stamp), Event(ActionExecuted, user, stamp, ids)]
  }

  function CompletedTo(f: CaseFile, user: nat, reason: string, p: Preview, ids: seq<nat>, now: int, stamp: int,
                       told: seq<Notice>): CaseFile
    requires f.approval.Some?
  {
    f.(status := Completed, preview := p, approvedAt := Some(now), executedAt := Some(now), completedAt := Some(now),
       approval := Some(f.approval.value.(status := ApprovalApproved, decidedBy := Some(user), decidedAt := Some(now),
                                          reason := reason)),
       trail := f.trail + CompletionEvents(user, stamp, ids),
       notices := f.notices + told)
  }

  function CompletedFile(f: CaseFile, user: nat, reason: string, final: Result, now: int, stamp: int,
                         users: seq<User>): CaseFile
    requires f.approval.Some?
  {
    var p := CompletedPreview(f.preview, final.skipped);
    CompletedTo(f, user, reason, p, ExecutableIds(final.executable), now, stamp,
                CompletionTold(p, user, final.RequiresOverride(), users))
  }

  function FailureNotices(requester: nat, actor: nat): seq<Notice> {
    if requester == actor then [Notice(actor, FailedNotice, RequestFailed)]
    else if requester < actor then [Notice(requester, FailedNotice, RequestFailed),
                                    Notice(actor, FailedNotice, RequestFailed)]
    else [Notice(actor, FailedNotice, RequestFailed), Notice(requester, FailedNotice, RequestFailed)]
  }

  /** A failed attempt is recorded if the pair is still pending, whatever its deadlines say. */
  function FailedFile(f: CaseFile, user: nat, reason: string, category: string, now: int, stamp: int,
                      users: seq<User>): CaseFile {
    if !Open(f) then f
    else
      var g := Settled(f, Failed, ApprovalApproved, user, reason, now, ActionFailed, stamp);
      g.(failure := category, completedAt := Some(now),
         notices := f.notices + OnlyActive(FailureNotices(f.preview.requester, user), users))
  }

  // ----- what every committed file satisfies

  predicate PairAllowed(status: ActionStatus, approval: Option<Approval>) {
    match status
    case Draft => approval.None?
    case Pending => approval.Some? && approval.value.status == ApprovalPending
    case Completed => approval.Some? && approval.value.status == ApprovalApproved
    case Failed => approval.Some? && approval.value.status == ApprovalApproved
    case Rejected => approval.Some? && approval.value.status == ApprovalRejected
    case Cancelled => approval.Some? && approval.value.status == ApprovalCancelled
    case Expired => approval.Some? ==> approval.value.status == ApprovalExpired
    case Executing => false
  }

  predicate Terminal(f: CaseFile) {
    f.status != Draft && f.status != Pending && f.status != Executing
  }

  function Kinds(trail: seq<Event>): (kinds: seq<EventKind>)
    ensures |kinds| == |trail| && forall i | 0 <= i < |kinds| :: kinds[i] == trail[i].kind
  {
    seq(|trail|, i requires 0 <= i < |trail| => trail[i].kind)
  }

  function Ending(status: ActionStatus): seq<EventKind> {
    match status
    case Draft => []
    case Pending => []
    case Executing => []
    case Completed => [ActionApproved, ActionExecuted]
    case Failed => [ActionFailed]
    case Rejected => [ActionRejected]
    case Cancelled => [ActionCancelled]
    case Expired => [ActionExpired]
  }

  function Opening(requested: bool, escalated: bool): seq<EventKind> {
    [PreviewCreated] + (if requested then [ActionRequested] else []) + (if escalated then [ApprovalEscalated] else [])
  }

  /** The one audit trail that fits a state. */
  function Story(status: ActionStatus, requested: bool, escalated: bool): seq<EventKind> {
    Opening(requested, escalated) + Ending(status)
  }

  predicate KindFits(status: ActionStatus, kind: NoticeKind) {
    match kind
    case PendingNotice => status != Draft
    case ApprovedNotice => status == Completed
    case CompletedNotice => status == Completed
    case RejectedNotice => status == Rejected
    case FailedNotice => status == Failed
  }

  /** Nobody is told the same thing twice, and nothing is told before it holds. */
  ghost predicate NoticesFit(status: ActionStatus, notices: seq<Notice>) {
    && Sorting.Distinct(Keys(notices))
    && (forall n | n in notices :: KindFits(status, n.kind))
    && (status == Draft ==> notices == [])
  }

  lemma {:induction false} OverrideListExactly(records: seq<Executable>, code: string)
    ensures code in OverrideList(records) <==> exists e | e in records :: code in e.overrides
  {
    if records != [] {
      var front, last := records[..|records| - 1], records[|records| - 1];
      OverrideListExactly(front, code);
      assert records == front + [last];
    }
  }

  /** An escalation stores one flag for each code that some executable record carries, in the order of the codes. */
  lemma EscalationFlagsExactly(final: Result, code: string)
    ensures code in FlagCodes(EscalationFlags(final)) <==> exists e | e in final.executable :: code in e.overrides
    ensures Sorting.Distinct(FlagCodes(EscalationFlags(final)))
    ensures Sorting.SortedBy((a: string, b: string) => Strings.StringLe(a, b), FlagCodes(EscalationFlags(final)))
    ensures forall f | f in EscalationFlags(final) :: f.requiresAdmin && f.overridable
  {
    var codes := Sorting.Unique(OverrideList(final.executable));
    OverrideListExactly(final.executable, code);
    Sorting.UniqueDistinct(OverrideList(final.executable));
    Sorting.SameElements(InOrder(codes), codes);
    Sorting.DistinctPermutation(codes, InOrder(codes));
    Strings.StringsTotal(codes);
    Sorting.SortSorted((a: string, b: string) => Strings.StringLe(a, b), codes);
    assert FlagCodes(EscalationFlags(final)) == InOrder(codes);
  }

  predicate DeadlinesAgree(f: CaseFile) {
    f.status == Pending ==> f.approval.Some? && f.deadline.Some? && f.approval.value.deadline == f.deadline
  }

  /** Somebody decided on the action: it was carried out, rejected, or failed in the attempt. */
  predicate Decided(status: ActionStatus) {
    status == Completed || status == Failed || status == Rejected
  }

  /** The rows say who decided, and when the action ended, exactly when that happened, and whom it takes to decide. */
  predicate DecisionFits(f: CaseFile) {
    && (f.executedAt.Some? <==> f.status == Completed) && f.approvedAt == f.executedAt
    && (f.completedAt.Some? <==> f.status == Completed || f.status == Failed)
    && (f.approval.None? ==> f.status == Draft || f.status == Expired)
    && (f.approval.Some? ==>
          && (f.approval.value.decidedBy.Some? <==> Decided(f.status))
          && (f.approval.value.decidedAt.Some? <==> f.status != Pending)
          && (f.approval.value.role == AdminApprover <==> f.preview.requiresAdmin))
  }

  /** All of the invariant but the stored preview. */
  ghost predicate Shape(f: CaseFile) {
    && PairAllowed(f.status, f.approval)
    && (f.preview.policy.escalation.Some? ==> f.approval.Some?)
    && Kinds(f.trail) == Story(f.status, f.approval.Some?, f.preview.policy.escalation.Some?)
    && DeadlinesAgree(f) && DecisionFits(f)
    && NoticesFit(f.status, f.notices)
  }

  ghost predicate FileInv(f: CaseFile) {
    Shape(f) && Valid(f.preview)
  }

  /** How far a file still is from its end. */
  function Rank(f: CaseFile): nat {
    if f.status == Draft then 3
    else if Terminal(f) then 0
    else if f.preview.policy.escalation.Some? then 1 else 2
  }

  /** A call either commits nothing or brings the file closer to its end. */
  predicate Advances(f: CaseFile, g: CaseFile) {
    g == f || Rank(g) < Rank(f)
  }

  // ----- trails and lists of notices

  lemma StoryGrows(trail: seq<Event>, more: seq<Event>, status: ActionStatus, next: ActionStatus, requested: bool,
                   escalated: bool)
    requires Kinds(trail) == Story(status, requested, escalated)
    requires Ending(status) == [] && Kinds(more) == Ending(next)
    ensures Kinds(trail + more) == Story(next, requested, escalated)
  {
    assert Kinds(trail + more) == Kinds(trail) + Kinds(more);
  }

  lemma StoryRequested(trail: seq<Event>, event: Event)
    requires Kinds(trail) == Story(Draft, false, false) && event.kind == ActionRequested
    ensures Kinds(trail + [event]) == Story(Pending, true, false)
  {
    assert Kinds(trail + [event]) == Kinds(trail) + [ActionRequested];
  }

  lemma StoryEscalated(trail: seq<Event>, event: Event)
    requires Kinds(trail) == Story(Pending, true, false) && event.kind == ApprovalEscalated
    ensures Kinds(trail + [event]) == Story(Pending, true, true)
  {
    assert Kinds(trail + [event]) == Kinds(trail) + [ApprovalEscalated];
  }

  lemma KeysAppend(a: seq<Notice>, b: seq<Notice>)
    requires Sorting.Distinct(Keys(a)) && Sorting.Distinct(Keys(b))
    requires forall n, m | n in a && m in b :: KeyOf(n) != KeyOf(m)
    ensures Sorting.Distinct(Keys(a + b))
  {
    forall i, j | 0 <= i < j < |a + b| ensures Keys(a + b)[i] != Keys(a + b)[j] {
      if j < |a| {
        assert Keys(a)[i] != Keys(a)[j];
      } else if i < |a| {
        assert a[i] in a && b[j - |a|] in b;
      } else {
        assert Keys(b)[i - |a|] != Keys(b)[j - |a|];
      }
    }
  }

  /** Pending notices still fit any later state, together with new ones of another kind. */
  lemma NoticesGrow(notices: seq<Notice>, more: seq<Notice>, next: ActionStatus)
    requires NoticesFit(Pending, notices) && next != Draft
    requires Sorting.Distinct(Keys(more))
    requires forall n | n in more :: KindFits(next, n.kind) && n.kind != PendingNotice
    ensures NoticesFit(next, notices + more)
  {
    KeysAppend(notices, more);
  }

  lemma NoticesStay(notices: seq<Notice>, status: ActionStatus, next: ActionStatus)
    requires NoticesFit(status, notices)
    requires status == Draft || status == Pending
    requires next == Cancelled || next == Expired
    ensures NoticesFit(next, notices)
  {
  }

  lemma PendingKeys(ids: seq<nat>)
    requires Sorting.Distinct(ids)
    ensures NoticesFit(Pending, PendingNotices(ids))
    ensures forall n | n in PendingNotices(ids) :: n.kind == PendingNotice && n.recipient in ids
  {
    var items := PendingNotices(ids);
    forall n | n in items ensures n.kind == PendingNotice && n.recipient in ids {
      var i :| 0 <= i < |items| && items[i] == n;
    }
  }

  lemma MorePending(notices: seq<Notice>, ids: seq<nat>)
    requires NoticesFit(Pending, notices) && Sorting.Distinct(ids)
    ensures NoticesFit(Pending, notices + PendingNotices(NotTold(ids, notices)))
  {
    NotToldExactly(ids, notices);
    var more := PendingNotices(NotTold(ids, notices));
    PendingKeys(NotTold(ids, notices));
    forall n, m | n in notices && m in more ensures KeyOf(n) != KeyOf(m) {
      var i :| 0 <= i < |notices| && notices[i] == n;
      assert Keys(notices)[i] == KeyOf(n);
    }
    KeysAppend(notices, more);
  }

  lemma OnlyActiveFits(items: seq<Notice>, users: seq<User>, kind: NoticeKind)
    requires Sorting.Distinct(Keys(items)) && forall n | n in items :: n.kind == kind
    ensures Sorting.Distinct(Keys(OnlyActive(items, users)))
            && forall n | n in OnlyActive(items, users) :: n.kind == kind
  {
    OnlyActiveDistinct(items, users);
    OnlyActiveExactly(items, users);
  }

  lemma {:induction false} WatchersKind(ids: seq<nat>, requester: nat, actor: nat)
    ensures forall n | n in Watchers(ids, requester, actor) :: n.kind == CompletedNotice
  {
    if ids != [] {
      WatchersKind(ids[..|ids| - 1], requester, actor);
    }
  }

  lemma CompletionNoticesFit(p: Preview, actor: nat, override: bool, users: seq<User>)
    ensures var items := CompletionTold(p, actor, override, users);
            && Sorting.Distinct(Keys(items))
            && forall n | n in items :: n.kind == ApprovedNotice || n.kind == CompletedNotice
  {
    var items := CompletionNotices(p, actor, override, users);
    WatchersKind(Approvers(users, p), p.requester, actor);
    DedupeKeeps(items);
    OnlyActiveDistinct(Dedupe(items), users);
    OnlyActiveExactly(Dedupe(items), users);
  }

  // ----- each step keeps the shape and moves on

  lemma OpenedShape(p: Preview, user: nat, now: int, stamp: int)
    requires p.policy.escalation.None?
    ensures Shape(Opened(p, user, now, stamp))
  {
  }

  lemma ExpiredShape(f: CaseFile, user: nat, now: int, stamp: int)
    requires Shape(f) && (f.status == Draft || f.status == Pending)
    ensures Shape(ExpiredByService(f, user, now, stamp)) && Rank(ExpiredByService(f, user, now, stamp)) == 0
  {
    var event := Note(ActionExpired, user, stamp);
    StoryGrows(f.trail, [event], f.status, Expired, f.approval.Some?, f.preview.policy.escalation.Some?);
    NoticesStay(f.notices, f.status, Expired);
  }

  lemma SubmittedWith(f: CaseFile, g: CaseFile, ids: seq<nat>, event: Event)
    requires Shape(f) && f.status == Draft && Sorting.Distinct(ids) && event.kind == ActionRequested
    requires g.status == Pending && g.approval.Some? && g.approval.value.status == ApprovalPending
    requires g.deadline.Some? && g.approval.value.deadline == g.deadline && DecisionFits(g)
    requires g.preview == f.preview && g.trail == f.trail + [event] && g.notices == f.notices + PendingNotices(ids)
    ensures Shape(g) && Rank(g) == 2
  {
    StoryRequested(f.trail, event);
    PendingKeys(ids);
    assert g.notices == PendingNotices(ids);
  }

  lemma SubmittedShape(f: CaseFile, user: nat, now: int, stamp: int, users: seq<User>)
    requires Shape(f) && f.status == Draft
    ensures Shape(Submitted(f, user, now, stamp, users)) && Rank(Submitted(f, user, now, stamp, users)) == 2
  {
    OrderedIdsExactly(AllowedIds(users, f.preview));
    SubmittedWith(f, Submitted(f, user, now, stamp, users), Approvers(users, f.preview),
                  Note(ActionRequested, user, stamp));
  }

  /** Any step that ends an open file with the right events and new kinds of notices. */
  lemma EndedWith(f: CaseFile, g: CaseFile, more: seq<Notice>, events: seq<Event>)
    requires Shape(f) && Open(f)
    requires Terminal(g) && g.approval.Some? && PairAllowed(g.status, g.approval) && DecisionFits(g)
    requires g.preview.policy.escalation.Some? == f.preview.policy.escalation.Some?
    requires g.trail == f.trail + events && Kinds(events) == Ending(g.status)
    requires g.notices == f.notices + more && Sorting.Distinct(Keys(more))
    requires forall n | n in more :: KindFits(g.status, n.kind) && n.kind != PendingNotice
    ensures Shape(g) && Rank(g) == 0
  {
    StoryGrows(f.trail, events, Pending, g.status, true, f.preview.policy.escalation.Some?);
    NoticesGrow(f.notices, more, g.status);
  }

  lemma WithdrawnShape(f: CaseFile, user: nat, reason: string, now: int, stamp: int)
    requires Shape(f) && Open(f)
    ensures Shape(Withdrawn(f, user, reason, now, stamp)) && Rank(Withdrawn(f, user, reason, now, stamp)) == 0
  {
    assert f.notices + [] == f.notices;
    EndedWith(f, Withdrawn(f, user, reason, now, stamp), [], [Note(ActionCancelled, user, stamp)]);
  }

  lemma LapsedShape(f: CaseFile, user: nat, now: int, stamp: int)
    requires Shape(f) && Open(f)
    ensures Shape(Lapsed(f, user, now, stamp)) && Rank(Lapsed(f, user, now, stamp)) == 0
  {
    assert f.notices + [] == f.notices;
    EndedWith(f, Lapsed(f, user, now, stamp), [], [Note(ActionExpired, user, stamp)]);
  }

  lemma RefusedShape(f: CaseFile, user: nat, reason: string, now: int, stamp: int, users: seq<User>)
    requires Shape(f) && Open(f)
    ensures Shape(Refused(f, user, reason, now, stamp, users)) && Rank(Refused(f, user, reason, now, stamp, users)) == 0
  {
    var items := [Notice(f.preview.requester, RejectedNotice, RequestRejected)];
    OnlyActiveFits(items, users, RejectedNotice);
    EndedWith(f, Refused(f, user, reason, now, stamp, users), OnlyActive(items, users),
              [Note(ActionRejected, user, stamp)]);
  }

  lemma EscalatedShape(f: CaseFile, user: nat, final: Result, stamp: int, users: seq<User>)
    requires Shape(f) && Open(f) && f.preview.policy.escalation.None?
    ensures Shape(EscalatedFile(f, user, final, stamp, users)) && Rank(EscalatedFile(f, user, final, stamp, users)) == 1
  {
    var p := EscalatedFile(f, user, final, stamp, users).preview;
    StoryEscalated(f.trail, Note(ApprovalEscalated, user, stamp));
    OrderedIdsExactly(AllowedIds(users, p));
    MorePending(f.notices, Approvers(users, p));
  }

  lemma CompletedRows(f: CaseFile, user: nat, reason: string, final: Result, now: int, stamp: int, users: seq<User>)
    returns (g: CaseFile, told: seq<Notice>, events: seq<Event>)
    requires f.approval.Some?
    ensures g == CompletedFile(f, user, reason, final, now, stamp, users)
    ensures g.status == Completed && g.approval.Some? && g.approval.value.status == ApprovalApproved
    ensures g.preview.policy == f.preview.policy && (DecisionFits(f) ==> DecisionFits(g))
    ensures g.trail == f.trail + events && Kinds(events) == Ending(Completed)
    ensures g.notices == f.notices + told && Sorting.Distinct(Keys(told))
    ensures forall n | n in told :: n.kind == ApprovedNotice || n.kind == CompletedNotice
  {
    g := CompletedFile(f, user, reason, final, now, stamp, users);
    told := CompletionTold(g.preview, user, final.RequiresOverride(), users);
    events := CompletionEvents(user, stamp, ExecutableIds(final.executable));
    CompletionNoticesFit(g.preview, user, final.RequiresOverride(), users);
  }

  lemma CompletedShape(f: CaseFile, user: nat, reason: string, final: Result, now: int, stamp: int, users: seq<User>)
    requires Shape(f) && Open(f)
    ensures Shape(CompletedFile(f, user, reason, final, now, stamp, users))
    ensures Rank(CompletedFile(f, user, reason, final, now, stamp, users)) == 0
  {
    var g, told, events := CompletedRows(f, user, reason, final, now, stamp, users);
    EndedWith(f, g, told, events);
  }

  lemma FailedShape(f: CaseFile, user: nat, reason: string, category: string, now: int, stamp: int, users: seq<User>)
    requires Shape(f) && Open(f)
    ensures Shape(FailedFile(f, user, reason, category, now, stamp, users))
    ensures Rank(FailedFile(f, user, reason, category, now, stamp, users)) == 0
  {
    var items := FailureNotices(f.preview.requester, user);
    OnlyActiveFits(items, users, FailedNotice);
    EndedWith(f, FailedFile(f, user, reason, category, now, stamp, users), OnlyActive(items, users),
              [Note(ActionFailed, user, stamp)]);
  }

  // ----- the whole invariant, call by call

  lemma OpenedKeeps(p: Preview, user: nat, now: int, stamp: int)
    requires Valid(p) && p.policy.escalation.None?
    ensures FileInv(Opened(p, user, now, stamp))
  {
    OpenedShape(p, user, now, stamp);
  }

  lemma SubmitFile(f: CaseFile, user: User, now: int, stamp: int, users: seq<User>)
    requires Shape(f)
    ensures var g := Submit(f, user, now, stamp, users).file;
            || g == f
            || ((f.status == Draft || f.status == Pending) && g == ExpiredByService(f, user.id, now, stamp))
            || (f.status == Draft && g == Submitted(f, user.id, now, stamp, users))
  {
  }

  lemma SubmitKeeps(f: CaseFile, user: User, now: int, stamp: int, users: seq<User>)
    requires FileInv(f)
    ensures FileInv(Submit(f, user, now, stamp, users).file)
    ensures Advances(f, Submit(f, user, now, stamp, users).file)
  {
    SubmitFile(f, user, now, stamp, users);
    if f.status == Draft || f.status == Pending {
      ExpiredShape(f, user.id, now, stamp);
      assert ExpiredByService(f, user.id, now, stamp).preview == f.preview;
    }
    if f.status == Draft {
      SubmittedShape(f, user.id, now, stamp, users);
      assert Submitted(f, user.id, now, stamp, users).preview == f.preview;
    }
  }

  lemma CancelFile(f: CaseFile, user: User, reason: string, now: int, stamp: int)
    requires Shape(f)
    ensures var g := Cancel(f, user, reason, now, stamp).file;
            g == f || (Open(f) && (g == ExpiredByService(f, user.id, now, stamp)
                                   || g == Withdrawn(f, user.id, reason, now, stamp)))
  {
  }

  lemma CancelKeeps(f: CaseFile, user: User, reason: string, now: int, stamp: int)
    requires FileInv(f)
    ensures FileInv(Cancel(f, user, reason, now, stamp).file)
    ensures Advances(f, Cancel(f, user, reason, now, stamp).file)
  {
    CancelFile(f, user, reason, now, stamp);
    if Open(f) {
      ExpiredShape(f, user.id, now, stamp);
      WithdrawnShape(f, user.id, reason, now, stamp);
      SamePreview(f, user.id, reason, now, stamp);
    }
  }

  lemma SamePreview(f: CaseFile, user: nat, reason: string, now: int, stamp: int)
    requires Open(f)
    ensures ExpiredByService(f, user, now, stamp).preview == f.preview
    ensures Withdrawn(f, user, reason, now, stamp).preview == f.preview
    ensures Lapsed(f, user, now, stamp).preview == f.preview
  {
  }

  /** The locked expiry succeeds exactly on a pending pair whose two deadlines have both passed,
      and in every file the deadlines of a pending pair pass together. */
  lemma ExpirePairExactly(f: CaseFile, user: nat, now: int, stamp: int)
    ensures ExpirePair(f, user, now, stamp).Some? <==>
            Open(f) && Passed(f.deadline, now) && Passed(f.approval.value.deadline, now)
    ensures FileInv(f) && Open(f) && EitherPassed(f, now) ==> ExpirePair(f, user, now, stamp).Some?
  {
  }

  /** On an overdue file the three ways to expire it write the same rows. */
  lemma ExpiriesAgree(f: CaseFile, user: User, now: int, stamp: int)
    requires FileInv(f) && f.status == Pending && EitherPassed(f, now) && DecisionOn(f.preview, user).allowed
    ensures ExpirePair(f, user.id, now, stamp) == Some(ExpireSeen(f, f, user, now, stamp))
    ensures ExpireSeen(f, f, user, now, stamp) == ExpiredByService(f, user.id, now, stamp)
  {
  }

  lemma GateCodes(f: CaseFile, user: User, now: int, stamp: int)
    requires Shape(f)
    ensures Gate(f, user, now, stamp).code == Done <==>
            Open(f) && !Passed(f.deadline, now) && DecisionOn(f.preview, user).allowed
    ensures Gate(f, user, now, stamp).code == RequestExpired <==>
            Open(f) && Passed(f.deadline, now) && DecisionOn(f.preview, user).allowed
    ensures Gate(f, user, now, stamp).file ==
            if Gate(f, user, now, stamp).code == RequestExpired then Lapsed(f, user.id, now, stamp) else f
  {
  }

  lemma GateKeeps(f: CaseFile, user: User, now: int, stamp: int)
    requires FileInv(f)
    ensures FileInv(Gate(f, user, now, stamp).file) && Advances(f, Gate(f, user, now, stamp).file)
  {
    GateCodes(f, user, now, stamp);
    if Gate(f, user, now, stamp).code == RequestExpired {
      LapsedShape(f, user.id, now, stamp);
      assert Gate(f, user, now, stamp).file.preview == f.preview;
    }
  }

  lemma RejectKeeps(f: CaseFile, user: User, reason: string, now: int, stamp: int, users: seq<User>)
    requires FileInv(f)
    ensures FileInv(Reject(f, user, reason, now, stamp, users).file)
    ensures Advances(f, Reject(f, user, reason, now, stamp, users).file)
  {
    GateKeeps(f, user, now, stamp);
    GateCodes(f, user, now, stamp);
    if Open(f) {
      RefusedShape(f, user.id, reason, now, stamp, users);
    }
  }

  lemma ReadDetailFile(f: CaseFile, seen: CaseFile, user: User, auditor: bool, now: int, stamp: int)
    requires Shape(f)
    ensures ReadDetail(f, seen, user, auditor, now, stamp).file == f
            || (Open(f) && ReadDetail(f, seen, user, auditor, now, stamp).file == Lapsed(f, user.id, now, stamp))
  {
  }

  lemma ReadDetailKeeps(f: CaseFile, seen: CaseFile, user: User, auditor: bool, now: int, stamp: int)
    requires FileInv(f)
    ensures FileInv(ReadDetail(f, seen, user, auditor, now, stamp).file)
    ensures Advances(f, ReadDetail(f, seen, user, auditor, now, stamp).file)
  {
    ReadDetailFile(f, seen, user, auditor, now, stamp);
    if Open(f) {
      LapsedShape(f, user.id, now, stamp);
      assert Lapsed(f, user.id, now, stamp).preview == f.preview;
    }
  }

  lemma ExpireSeenKeeps(f: CaseFile, seen: CaseFile, user: User, now: int, stamp: int)
    requires FileInv(f)
    ensures FileInv(ExpireSeen(f, seen, user, now, stamp)) && Advances(f, ExpireSeen(f, seen, user, now, stamp))
  {
    if Open(f) {
      LapsedShape(f, user.id, now, stamp);
      assert Lapsed(f, user.id, now, stamp).preview == f.preview;
    }
  }

  /** However old the copy of a pending request is that a listing judged, it expires the request exactly when that is
      still pending and overdue by now and the caller may decide on it by the copy. */
  lemma ListingExpiresOverdue(f: CaseFile, seen: CaseFile, user: User, now: int, stamp: int)
    requires Shape(f) && Shape(seen) && SameRequest(seen, f)
    ensures ExpireSeen(f, seen, user, now, stamp) != f ==> Open(f) && Passed(f.deadline, now)
    ensures ExpireSeen(f, seen, user, now, stamp)
            == if Open(seen) && DecisionOn(seen.preview, user).allowed && Open(f) && Passed(f.deadline, now)
               then Lapsed(f, user.id, now, stamp) else f
  {
  }

  /** Whoever may decide on an earlier copy of a pending request, or audit, expires the request exactly when it is still
      pending and overdue by now, although the copy alone decides whether the pair is locked at all; nobody else learns
      of it. */
  lemma DetailExpiresOverdue(f: CaseFile, seen: CaseFile, user: User, auditor: bool, now: int, stamp: int)
    requires Shape(f) && Shape(seen) && SameRequest(seen, f) && seen.status == Pending
    ensures var reader := DecisionOn(seen.preview, user).allowed || auditor;
            && ReadDetail(f, seen, user, auditor, now, stamp).file
               == (if reader && Open(f) && Passed(f.deadline, now) then Lapsed(f, user.id, now, stamp) else f)
            && (!reader ==> ReadDetail(f, seen, user, auditor, now, stamp).code == ApprovalNotFound)
            && (reader && f.approval.Some? ==> ReadDetail(f, seen, user, auditor, now, stamp).code == Done)
  {
  }

  // ----- no call moves the deadlines of a request that stays pending

  lemma SubmitSame(f: CaseFile, user: User, now: int, stamp: int, users: seq<User>)
    requires Shape(f)
    ensures SameRequest(f, Submit(f, user, now, stamp, users).file)
  {
    SubmitFile(f, user, now, stamp, users);
  }

  lemma CancelSame(f: CaseFile, user: User, reason: string, now: int, stamp: int)
    requires Shape(f)
    ensures SameRequest(f, Cancel(f, user, reason, now, stamp).file)
  {
    CancelFile(f, user, reason, now, stamp);
  }

  lemma RejectSame(f: CaseFile, user: User, reason: string, now: int, stamp: int, users: seq<User>)
    requires Shape(f)
    ensures SameRequest(f, Reject(f, user, reason, now, stamp, users).file)
    ensures SameRequest(f, Gate(f, user, now, stamp).file)
  {
    GateCodes(f, user, now, stamp);
  }

  lemma ExpirySame(f: CaseFile, seen: CaseFile, user: User, auditor: bool, now: int, stamp: int)
    requires Shape(f)
    ensures SameRequest(f, ReadDetail(f, seen, user, auditor, now, stamp).file)
    ensures SameRequest(f, ExpireSeen(f, seen, user, now, stamp))
  {
    ReadDetailFile(f, seen, user, auditor, now, stamp);
  }

  /** An escalation keeps the file valid and can only happen to a file without one. */
  lemma EscalationKeeps(f: CaseFile, user: nat, final: Result, stamp: int, users: seq<User>)
    requires FileInv(f) && Open(f) && f.preview.policy.escalation.None?
    ensures FileInv(EscalatedFile(f, user, final, stamp, users))
    ensures Rank(EscalatedFile(f, user, final, stamp, users)) < Rank(f)
  {
    EscalatedShape(f, user, final, stamp, users);
    EscalationKeepsValid(f.preview, EscalationFlags(final), final.crosses);
  }

  /** Once escalated, only a user with the override permission gets past the gate: there is no second escalation. */
  lemma EscalatesOnce(f: CaseFile, user: User, now: int, stamp: int, count: int, crosses: bool)
    requires Gate(f, user, now, stamp).code == Done
    requires EvaluateApproval(user, f.preview.requester, f.preview.scopeType, f.preview.scopeKey, count, crosses,
                              true).code
             == "override_permission_required"
    ensures f.preview.policy.escalation.None? && !f.preview.policy.requiresOverride
  {
    OverrideDenied(user, f.preview.requester, f.preview.scopeType, f.preview.scopeKey, count, crosses, true);
    GatePassed(f, user, now, stamp);
  }

  lemma GatePassed(f: CaseFile, user: User, now: int, stamp: int)
    requires Gate(f, user, now, stamp).code == Done
    ensures f.preview.policy.requiresOverride || f.preview.policy.escalation.Some? ==>
            ApproveOverride in user.permissions
  {
  }

  lemma CompletionKeeps(f: CaseFile, user: nat, reason: string, final: Result, now: int, stamp: int, users: seq<User>)
    requires FileInv(f) && Open(f) && Describable(f.preview.kind, final.skipped)
    ensures FileInv(CompletedFile(f, user, reason, final, now, stamp, users))
    ensures Rank(CompletedFile(f, user, reason, final, now, stamp, users)) < Rank(f)
  {
    CompletedShape(f, user, reason, final, now, stamp, users);
    CompletionKeepsValid(f.preview, final.skipped);
  }

  lemma FailureKeeps(f: CaseFile, user: nat, reason: string, category: string, now: int, stamp: int, users: seq<User>)
    requires FileInv(f)
    ensures FileInv(FailedFile(f, user, reason, category, now, stamp, users))
    ensures Advances(f, FailedFile(f, user, reason, category, now, stamp, users))
  {
    if Open(f) {
      FailedShape(f, user, reason, category, now, stamp, users);
    }
  }
}
