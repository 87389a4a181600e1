/** All sessions together: every interleaving of the calls, with approval split where it locks, rolls back and
 *  retries. */
module Protocol {
  import opened Policy
  import opened Revalidation
  import opened Snapshot
  import opened Lifecycle
  import opened Locking
  import opened Execution
  import opened History
  import Sorting

  datatype Phase =
    | Begun                                   // the pair is locked and may be decided
    | Looking(initial: Result, stage: nat)    // after the first pass and `stage` lock statements
    | Judged(initial: Result, final: Result)  // after the second pass
    | Gap                                     // rolled back, the failure not recorded yet

  /** One approval in progress. `file` is what it read under the lock of the pair. */
  datatype Txn = Txn(action: nat, approver: User, reason: string, now: int, file: CaseFile, phase: Phase,
                     locks: set<Row>)

  /** What is committed, and who is at work. */
  datatype State = State(files: map<nat, CaseFile>, world: World, txns: map<nat, Txn>, history: seq<Entry>)

  datatype Step =
    | Create(action: nat, preview: Preview, user: nat, now: int, stamp: int)
    | SubmitCall(action: nat, caller: User, now: int, stamp: int, users: seq<User>)
    | CancelCall(action: nat, caller: User, reason: string, now: int, stamp: int)
    | RejectCall(action: nat, caller: User, reason: string, now: int, stamp: int, users: seq<User>)
    | DetailCall(action: nat, copy: CaseFile, caller: User, auditor: bool, now: int, stamp: int)
    | ListCall(action: nat, copy: CaseFile, caller: User, now: int, stamp: int)
    | ApproveCall(txn: nat, action: nat, caller: User, reason: string, now: int, stamp: int)
    | FirstPass(txn: nat, seen: World)
    | LockMore(txn: nat)
    | FinalPass(txn: nat, seen: World)
    | Commit(txn: nat, stamp: int, users: seq<User>, acknowledged: bool)
    | Escalate(txn: nat, stamp: int, users: seq<User>)
    | Abort(txn: nat)
    | Fail(txn: nat)
    | RecordFailure(txn: nat, category: string, stamp: int, users: seq<User>)
    | ForgetFailure(txn: nat)
    | Environment(next: World)

  function ScopeOf(p: Preview): ActionScope {
    ActionScope(p.scopeType, p.scopeKey, p.department)
  }

  function JudgeAll(w: World, t: Txn, ids: seq<nat>): Result {
    Revalidate(w, t.file.preview.kind, ScopeOf(t.file.preview), t.approver, t.now, ids)
  }

  /** The pair of an action is locked by an approval in progress. */
  predicate Busy(s: State, action: nat) {
    exists t | t in s.txns :: s.txns[t].action == action && !s.txns[t].phase.Gap?
  }

  /** No other session holds any of the rows; otherwise the statement waits. */
  predicate Free(s: State, t: nat, rows: set<Row>) {
    forall u | u in s.txns && u != t :: rows !! s.txns[u].locks
  }

  predicate Stable(initial: Result, final: Result) {
    var before, after := ExecutableIds(initial.executable), ExecutableIds(final.executable);
    && Sorting.Unique(before) == before && Sorting.Unique(after) == after
    && forall id | id in after :: id in before
  }

  /** The policy decision on exactly the records about to be executed. */
  function FinalDecision(t: Txn, final: Result): Decision {
    var p := t.file.preview;
    EvaluateApproval(t.approver, p.requester, p.scopeType, p.scopeKey, |final.executable|, final.crosses,
                     final.RequiresOverride())
  }

  predicate FileReady(s: State, action: nat) {
    action in s.files && !Busy(s, action)
  }

  predicate In(s: State, t: nat, holding: bool) {
    t in s.txns && (holding <==> !s.txns[t].phase.Gap?)
  }

  /** A statement's snapshot shows the rows it locks as they are. */
  predicate Current(s: State, seen: World, rows: set<Row>) {
    forall row | row in rows :: SameRow(seen, s.world, row)
  }

  function PutFile(s: State, a: nat, f: CaseFile): State {
    s.(files := s.files[a := f])
  }

  function PutTxn(s: State, t: nat, x: Txn): State {
    s.(txns := s.txns[t := x])
  }

  function Drop(s: State, t: nat): State {
    s.(txns := s.txns - {t})
  }

  function RolledBack(x: Txn): Txn {
    x.(phase := Gap, locks := {})
  }

  // ----- the calls that one transaction makes on one file

  predicate IsFileCall(step: Step) {
    step.SubmitCall? || step.CancelCall? || step.RejectCall? || step.DetailCall? || step.ListCall? || step.ApproveCall?
  }

  /** What such a call leaves of the file. */
  ghost function FileCall(f: CaseFile, step: Step): CaseFile {
    match step
    case SubmitCall(_, user, now, stamp, users) => Submit(f, user, now, stamp, users).file
    case CancelCall(_, user, reason, now, stamp) => Cancel(f, user, reason, now, stamp).file
    case RejectCall(_, user, reason, now, stamp, users) => Reject(f, user, reason, now, stamp, users).file
    case DetailCall(_, seen, user, auditor, now, stamp) => ReadDetail(f, seen, user, auditor, now, stamp).file
    case ListCall(_, seen, user, now, stamp) => ExpireSeen(f, seen, user, now, stamp)
    case ApproveCall(_, _, user, _, now, stamp) => Gate(f, user, now, stamp).file
    case _ => f
  }

  predicate CanFileCall(s: State, step: Step)
    requires IsFileCall(step)
  {
    && FileReady(s, step.action)
    && (step.DetailCall? || step.ListCall? ==> SameRequest(step.copy, s.files[step.action]))
    && (step.ApproveCall? ==> step.txn !in s.txns)
  }

  /** An approval past the gate begins its transaction; every other call commits its file. */
  ghost function Called(s: State, step: Step): State
    requires IsFileCall(step) && CanFileCall(s, step)
  {
    var f := s.files[step.action];
    if step.ApproveCall? && Gate(f, step.caller, step.now, step.stamp).code == Done
    then PutTxn(s, step.txn, Txn(step.action, step.caller, step.reason, step.now, f, Begun, {}))
    else PutFile(s, step.action, FileCall(f, step))
  }

  ghost predicate CanCreate(s: State, a: nat, p: Preview) {
    a !in s.files && Valid(p) && p.policy.escalation.None?
  }

  // ----- the steps of an approval

  function PassLocks(t: Txn, seen: World): set<Row> {
    var ids := TargetIds(t.file.preview);
    if ids.Some? then TargetLocks(seen, t.file.preview.kind, t.approver, ids.value) else {}
  }

  function NextLocks(s: State, t: Txn): set<Row>
    requires t.phase.Looking?
  {
    StageLocks(s.world, t.file.preview.kind, t.phase.initial.executable, t.phase.stage)
  }

  function AfterFirstPass(x: Txn, seen: World): Txn
    requires TargetIds(x.file.preview).Some?
  {
    x.(phase := Looking(JudgeAll(seen, x, TargetIds(x.file.preview).value), 0), locks := PassLocks(x, seen))
  }

  function AfterFinalPass(x: Txn, seen: World): Txn
    requires x.phase.Looking? && TargetIds(x.file.preview).Some?
  {
    var final := JudgeAll(seen, x, TargetIds(x.file.preview).value);
    if Stable(x.phase.initial, final)
    then x.(phase := Judged(x.phase.initial, final), locks := x.locks + PassLocks(x, seen))
    else RolledBack(x)
  }

  /** The claim of the pending action, the guarded mutation, and all rows of the completion in one commit. */
  function Committed(s: State, t: nat, stamp: int, users: seq<User>, acknowledged: bool): State
    requires t in s.txns && s.txns[t].phase.Judged?
  {
    var x := s.txns[t];
    var p, final := x.file.preview, x.phase.final;
    var updated := Update(s.world, p.kind, ExecutableIds(final.executable));
    if !Open(x.file) || Passed(x.file.deadline, x.now) then Drop(s, t)
    else if updated.None? then PutTxn(s, t, RolledBack(x))
    else
      var rows := AuditRows(final.executable, p.kind, x.action, x.approver.id, x.now);
      State(s.files[x.action := CompletedFile(x.file, x.approver.id, x.reason, final, x.now, stamp, users)],
            updated.value,
            if acknowledged then s.txns - {t} else s.txns[t := RolledBack(x)],
            s.history + RanRows(rows))
  }

  ghost predicate CanFirstPass(s: State, t: nat, seen: World) {
    && In(s, t, true) && s.txns[t].phase.Begun? && References(seen)
    && TargetIds(s.txns[t].file.preview).Some?
    && (var rows := PassLocks(s.txns[t], seen); Current(s, seen, rows) && Free(s, t, rows))
  }

  predicate CanLockMore(s: State, t: nat) {
    && In(s, t, true) && s.txns[t].phase.Looking? && s.txns[t].phase.stage < Stages(s.txns[t].file.preview.kind)
    && Free(s, t, NextLocks(s, s.txns[t]))
  }

  ghost predicate CanFinalPass(s: State, t: nat, seen: World) {
    && In(s, t, true) && s.txns[t].phase.Looking? && s.txns[t].phase.stage == Stages(s.txns[t].file.preview.kind)
    && TargetIds(s.txns[t].file.preview).Some?
    && Allowed(s.world, seen, s.txns[t].locks)
    && (var rows := PassLocks(s.txns[t], seen); Current(s, seen, rows) && Free(s, t, rows))
  }

  predicate CanCommit(s: State, t: nat) {
    In(s, t, true) && s.txns[t].phase.Judged? && FinalDecision(s.txns[t], s.txns[t].phase.final).allowed
  }

  predicate CanEscalate(s: State, t: nat) {
    && In(s, t, true) && s.txns[t].phase.Judged? && s.txns[t].phase.final.RequiresOverride()
    && FinalDecision(s.txns[t], s.txns[t].phase.final).code == "override_permission_required"
  }

  predicate CanRecord(s: State, t: nat) {
    In(s, t, false) && FileReady(s, s.txns[t].action)
  }

  ghost predicate CanChange(s: State, next: World) {
    References(next) && forall t | t in s.txns :: Allowed(s.world, next, s.txns[t].locks)
  }

  function FirstPassed(s: State, t: nat, seen: World): State
    requires t in s.txns && TargetIds(s.txns[t].file.preview).Some?
  {
    PutTxn(s, t, AfterFirstPass(s.txns[t], seen))
  }

  function Locked(s: State, t: nat): State
    requires t in s.txns && s.txns[t].phase.Looking?
  {
    var x := s.txns[t];
    PutTxn(s, t, x.(phase := Looking(x.phase.initial, x.phase.stage + 1), locks := x.locks + NextLocks(s, x)))
  }

  function FinalPassed(s: State, t: nat, seen: World): State
    requires t in s.txns && s.txns[t].phase.Looking? && TargetIds(s.txns[t].file.preview).Some?
  {
    PutTxn(s, t, AfterFinalPass(s.txns[t], seen))
  }

  function EscalatedState(s: State, t: nat, stamp: int, users: seq<User>): State
    requires t in s.txns && s.txns[t].phase.Judged?
  {
    var x := s.txns[t];
    if x.file.approval.None? then Drop(s, t)
    else PutFile(Drop(s, t), x.action, EscalatedFile(x.file, x.approver.id, x.phase.final, stamp, users))
  }

  function Recorded(s: State, t: nat, category: string, stamp: int, users: seq<User>): State
    requires t in s.txns && s.txns[t].action in s.files
  {
    var x := s.txns[t];
    PutFile(Drop(s, t), x.action, FailedFile(s.files[x.action], x.approver.id, x.reason, category, x.now, stamp, users))
  }

  function OutsideChanged(s: State, next: World): State {
    s.(world := next, history := s.history + [Moved(Revived(s.world, next))])
  }

  // ----- the transition system

  ghost predicate CanStep(s: State, step: Step) {
    match step
    case Create(a, p, _, _, _) => CanCreate(s, a, p)
    case SubmitCall(_, _, _, _, _) => CanFileCall(s, step)
    case CancelCall(_, _, _, _, _) => CanFileCall(s, step)
    case RejectCall(_, _, _, _, _, _) => CanFileCall(s, step)
    case DetailCall(_, _, _, _, _, _) => CanFileCall(s, step)
    case ListCall(_, _, _, _, _) => CanFileCall(s, step)
    case ApproveCall(_, _, _, _, _, _) => CanFileCall(s, step)
    case FirstPass(t, seen) => CanFirstPass(s, t, seen)
    case LockMore(t) => CanLockMore(s, t)
    case FinalPass(t, seen) => CanFinalPass(s, t, seen)
    case Commit(t, _, _, _) => CanCommit(s, t)
    case Escalate(t, _, _) => CanEscalate(s, t)
    case Abort(t) => In(s, t, true)
    case Fail(t) => In(s, t, true)
    case RecordFailure(t, _, _, _) => CanRecord(s, t)
    case ForgetFailure(t) => In(s, t, false)
    case Environment(next) => CanChange(s, next)
  }

  ghost function Apply(s: State, step: Step): State
    requires CanStep(s, step)
  {
    match step
    case Create(a, p, user, now, stamp) => PutFile(s, a, Opened(p, user, now, stamp))
    case FirstPass(t, seen) => FirstPassed(s, t, seen)
    case LockMore(t) => Locked(s, t)
    case FinalPass(t, seen) => FinalPassed(s, t, seen)
    case Commit(t, stamp, users, acknowledged) => Committed(s, t, stamp, users, acknowledged)
    case Escalate(t, stamp, users) => EscalatedState(s, t, stamp, users)
    case Abort(t) => Drop(s, t)
    case Fail(t) => PutTxn(s, t, RolledBack(s.txns[t]))
    case RecordFailure(t, category, stamp, users) => Recorded(s, t, category, stamp, users)
    case ForgetFailure(t) => Drop(s, t)
    case Environment(next) => OutsideChanged(s, next)
    case _ => Called(s, step)
  }
}
