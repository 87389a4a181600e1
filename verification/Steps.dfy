/** Each step of the protocol keeps the invariant and moves the files forward. */
module Steps {
  import opened Policy
  import opened Revalidation
  import opened Snapshot
  import opened Lifecycle
  import opened Locking
  import opened Execution
  import opened History
  import opened Protocol
  import opened Safety
  import opened Accounting
  import Sorting

  /** A step brings a file closer to its end or leaves it, leaves the deadlines of a request that stays pending, and
      completes a file only with each of its targets accounted for. */
  ghost predicate Moves(f: CaseFile, g: CaseFile) {
    Advances(f, g) && SameRequest(f, g) && (g == f || AccountedFor(g))
  }

  // ----- calls on one file

  lemma SubmitCallKept(f: CaseFile, step: Step) returns (g: CaseFile)
    requires FileInv(f) && step.SubmitCall?
    ensures FileInv(g) && Advances(f, g)
    ensures g == FileCall(f, step)
  {
    g := Submit(f, step.caller, step.now, step.stamp, step.users).file;
    SubmitKeeps(f, step.caller, step.now, step.stamp, step.users);
  }

  lemma CancelCallKept(f: CaseFile, step: Step) returns (g: CaseFile)
    requires FileInv(f) && step.CancelCall?
    ensures FileInv(g) && Advances(f, g)
    ensures g == FileCall(f, step)
  {
    g := Cancel(f, step.caller, step.reason, step.now, step.stamp).file;
    CancelKeeps(f, step.caller, step.reason, step.now, step.stamp);
  }

  lemma RejectCallKept(f: CaseFile, step: Step) returns (g: CaseFile)
    requires FileInv(f) && step.RejectCall?
    ensures FileInv(g) && Advances(f, g)
    ensures g == FileCall(f, step)
  {
    g := Reject(f, step.caller, step.reason, step.now, step.stamp, step.users).file;
    RejectKeeps(f, step.caller, step.reason, step.now, step.stamp, step.users);
  }

  lemma DetailCallKept(f: CaseFile, step: Step) returns (g: CaseFile)
    requires FileInv(f) && step.DetailCall?
    ensures FileInv(g) && Advances(f, g)
    ensures g == FileCall(f, step)
  {
    g := ReadDetail(f, step.copy, step.caller, step.auditor, step.now, step.stamp).file;
    ReadDetailKeeps(f, step.copy, step.caller, step.auditor, step.now, step.stamp);
  }

  lemma ListCallKept(f: CaseFile, step: Step) returns (g: CaseFile)
    requires FileInv(f) && step.ListCall?
    ensures FileInv(g) && Advances(f, g)
    ensures g == FileCall(f, step)
  {
    g := ExpireSeen(f, step.copy, step.caller, step.now, step.stamp);
    ExpireSeenKeeps(f, step.copy, step.caller, step.now, step.stamp);
  }

  lemma ApproveCallKept(f: CaseFile, step: Step) returns (g: CaseFile)
    requires FileInv(f) && step.ApproveCall?
    ensures FileInv(g) && Advances(f, g)
    ensures g == FileCall(f, step)
  {
    g := Gate(f, step.caller, step.now, step.stamp).file;
    GateKeeps(f, step.caller, step.now, step.stamp);
  }

  lemma FileCallSame(f: CaseFile, step: Step)
    requires Shape(f) && IsFileCall(step)
    ensures SameRequest(f, FileCall(f, step))
  {
    match step {
      case SubmitCall(_, user, now, stamp, users) => SubmitSame(f, user, now, stamp, users);
      case CancelCall(_, user, reason, now, stamp) => CancelSame(f, user, reason, now, stamp);
      case RejectCall(_, user, reason, now, stamp, users) => RejectSame(f, user, reason, now, stamp, users);
      case DetailCall(_, seen, user, auditor, now, stamp) => ExpirySame(f, seen, user, auditor, now, stamp);
      case ListCall(_, seen, user, now, stamp) => ExpirySame(f, seen, user, false, now, stamp);
      case ApproveCall(_, _, user, reason, now, stamp) => RejectSame(f, user, reason, now, stamp, []);
    }
  }

  lemma FileCallKept(f: CaseFile, step: Step) returns (g: CaseFile)
    requires FileInv(f) && IsFileCall(step)
    ensures FileInv(g) && Advances(f, g)
    ensures g == FileCall(f, step)
  {
    if step.SubmitCall? {
      g := SubmitCallKept(f, step);
    } else if step.CancelCall? {
      g := CancelCallKept(f, step);
    } else if step.RejectCall? {
      g := RejectCallKept(f, step);
    } else if step.DetailCall? {
      g := DetailCallKept(f, step);
    } else if step.ListCall? {
      g := ListCallKept(f, step);
    } else {
      g := ApproveCallKept(f, step);
    }
  }

  lemma FileCallKeeps(f: CaseFile, step: Step)
    requires FileInv(f) && IsFileCall(step)
    ensures FileInv(FileCall(f, step)) && Moves(f, FileCall(f, step))
  {
    FileCallSame(f, step);
    FileCallCompletesNothing(f, step);
    var g := FileCallKept(f, step);
  }

  lemma FileCallExecutesNothing(f: CaseFile, step: Step)
    ensures ExecutedIds(FileCall(f, step)) == ExecutedIds(f)
  {
  }

  /** Both invariant and progress of a state whose file `a` became `g`. */
  lemma FileMoved(s: State, a: nat, g: CaseFile)
    requires Inv(s) && a in s.files && !Busy(s, a) && FileInv(g) && ExecutedIds(g) == ExecutedIds(s.files[a])
    ensures Inv(PutFile(s, a, g))
  {
    PutFileCore(s, a, g);
    PutFileFiles(s.files, a, g);
  }

  lemma BeginCore(s: State, t: nat, a: nat, user: User, reason: string, now: int, stamp: int)
    requires Core(s) && t !in s.txns && a in s.files && !Busy(s, a)
    requires Shape(s.files[a]) && Gate(s.files[a], user, now, stamp).code == Done
    ensures Core(PutTxn(s, t, Txn(a, user, reason, now, s.files[a], Begun, {})))
  {
    var x := Txn(a, user, reason, now, s.files[a], Begun, {});
    GateCodes(s.files[a], user, now, stamp);
    forall u | u in s.txns && u != t ensures Separate(x, s.txns[u]) {
    }
    assert TxnOk(s.files, s.world, x);
    PutTxnCore(s, t, x);
  }

  lemma CallKeeps(s: State, step: Step)
    requires Inv(s) && IsFileCall(step) && CanFileCall(s, step)
    ensures Inv(Called(s, step))
  {
    var f := s.files[step.action];
    FileCallKeeps(f, step);
    FileCallExecutesNothing(f, step);
    FileMoved(s, step.action, FileCall(f, step));
    if step.ApproveCall? && Gate(f, step.caller, step.now, step.stamp).code == Done {
      BeginCore(s, step.txn, step.action, step.caller, step.reason, step.now, step.stamp);
    }
  }

  lemma CreateKeeps(s: State, a: nat, p: Preview, user: nat, now: int, stamp: int)
    requires Inv(s) && CanCreate(s, a, p)
    ensures Inv(PutFile(s, a, Opened(p, user, now, stamp)))
  {
    var g := Opened(p, user, now, stamp);
    OpenedKeeps(p, user, now, stamp);
    NotBusyBefore(s, a);
    PutFileCore(s, a, g);
    PutFileFiles(s.files, a, g);
  }

  lemma NotBusyBefore(s: State, a: nat)
    requires TxnsOk(s) && a !in s.files
    ensures !Busy(s, a)
  {
    forall t | t in s.txns ensures s.txns[t].action != a {
      assert TxnOk(s.files, s.world, s.txns[t]);
    }
  }

  lemma SameTxnSeparate(s: State, t: nat, y: Txn, rows: set<Row>)
    requires Apart(s) && t in s.txns && Free(s, t, rows) && Holding(s.txns[t])
    requires y.action == s.txns[t].action && y.locks <= s.txns[t].locks + rows
    ensures forall u | u in s.txns && u != t :: Separate(y, s.txns[u])
  {
    forall u | u in s.txns && u != t ensures Separate(y, s.txns[u]) {
      assert Separate(s.txns[t], s.txns[u]);
    }
  }

  // ----- the passes

  lemma FirstPassCore(s: State, t: nat, seen: World)
    requires Core(s) && CanFirstPass(s, t, seen)
    ensures Core(FirstPassed(s, t, seen))
  {
    var x := s.txns[t];
    assert TxnOk(s.files, s.world, x);
    AfterFirstPassOk(s, x, seen);
    SameTxnSeparate(s, t, AfterFirstPass(x, seen), PassLocks(x, seen));
    PutTxnCore(s, t, AfterFirstPass(x, seen));
  }

  lemma LockMoreCore(s: State, t: nat)
    requires Core(s) && CanLockMore(s, t)
    ensures Core(Locked(s, t))
  {
    var x := s.txns[t];
    var y := x.(phase := Looking(x.phase.initial, x.phase.stage + 1), locks := x.locks + NextLocks(s, x));
    assert TxnOk(s.files, s.world, x);
    AfterLocksOk(s, x);
    SameTxnSeparate(s, t, y, NextLocks(s, x));
    PutTxnCore(s, t, y);
  }

  lemma FinalPassCore(s: State, t: nat, seen: World)
    requires Core(s) && CanFinalPass(s, t, seen) && Valid(s.txns[t].file.preview)
    ensures Core(FinalPassed(s, t, seen))
  {
    var x := s.txns[t];
    assert TxnOk(s.files, s.world, x);
    AfterFinalPassOk(s, x, seen);
    SameTxnSeparate(s, t, AfterFinalPass(x, seen), PassLocks(x, seen));
    PutTxnCore(s, t, AfterFinalPass(x, seen));
  }

  lemma HeldFileValid(s: State, t: nat)
    requires Inv(s) && t in s.txns && Holding(s.txns[t])
    ensures s.txns[t].action in s.files && s.files[s.txns[t].action] == s.txns[t].file
    ensures FileInv(s.txns[t].file) && Admitted(s.txns[t])
  {
    assert TxnOk(s.files, s.world, s.txns[t]);
  }

  lemma PassesKeep(s: State, t: nat, seen: World)
    requires Inv(s)
    ensures CanFirstPass(s, t, seen) ==> Inv(FirstPassed(s, t, seen))
    ensures CanLockMore(s, t) ==> Inv(Locked(s, t))
  {
    if CanFirstPass(s, t, seen) {
      FirstPassCore(s, t, seen);
    }
    if CanLockMore(s, t) {
      LockMoreCore(s, t);
    }
  }

  lemma FinalPassKeeps(s: State, t: nat, seen: World)
    requires Inv(s) && CanFinalPass(s, t, seen)
    ensures Inv(FinalPassed(s, t, seen))
  {
    HeldFileValid(s, t);
    FinalPassCore(s, t, seen);
  }

  // ----- escalating, failing, and changes from outside

  lemma NotBusyWithout(s: State, t: nat)
    requires Apart(s) && t in s.txns && Holding(s.txns[t])
    ensures !Busy(Drop(s, t), s.txns[t].action)
  {
    var r := Drop(s, t);
    forall u | u in r.txns ensures r.txns[u].action != s.txns[t].action || r.txns[u].phase.Gap? {
      assert Separate(s.txns[t], s.txns[u]);
    }
  }

  /** An escalation can only be reached on a file that was never escalated. */
  lemma EscalationIsFirst(x: Txn)
    requires x.phase.Judged? && x.phase.final.RequiresOverride() && Admitted(x)
    requires FinalDecision(x, x.phase.final).code == "override_permission_required"
    ensures x.file.preview.policy.escalation.None?
  {
    EscalatesOnce(x.file, x.approver, x.now, 0, |x.phase.final.executable|, x.phase.final.crosses);
  }

  lemma EscalateCore(s: State, t: nat, g: CaseFile)
    requires Core(s) && t in s.txns && Holding(s.txns[t]) && g.status == Pending
    requires s.txns[t].action in s.files && s.files[s.txns[t].action].status == Pending
    ensures Core(PutFile(Drop(s, t), s.txns[t].action, g))
  {
    DropCore(s, t);
    NotBusyWithout(s, t);
    PutFileCore(Drop(s, t), s.txns[t].action, g);
  }

  lemma EscalateKeeps(s: State, t: nat, stamp: int, users: seq<User>)
    requires Inv(s) && CanEscalate(s, t)
    ensures Inv(EscalatedState(s, t, stamp, users))
  {
    var x := s.txns[t];
    HeldFileValid(s, t);
    EscalationIsFirst(x);
    var g := EscalatedFile(x.file, x.approver.id, x.phase.final, stamp, users);
    EscalationKeeps(x.file, x.approver.id, x.phase.final, stamp, users);
    EscalateCore(s, t, g);
    PutFileFiles(s.files, x.action, g);
  }

  lemma FailureExecutesNothing(f: CaseFile, user: nat, reason: string, category: string, now: int, stamp: int,
                               users: seq<User>)
    ensures ExecutedIds(FailedFile(f, user, reason, category, now, stamp, users)) == ExecutedIds(f)
  {
  }

  lemma RecordCore(s: State, t: nat, g: CaseFile)
    requires Core(s) && t in s.txns && FileReady(s, s.txns[t].action)
    requires ExecutedIds(g) == ExecutedIds(s.files[s.txns[t].action])
    ensures Core(PutFile(Drop(s, t), s.txns[t].action, g))
  {
    DropCore(s, t);
    PutFileCore(Drop(s, t), s.txns[t].action, g);
  }

  lemma RecordKeeps(s: State, t: nat, category: string, stamp: int, users: seq<User>)
    requires Inv(s) && CanRecord(s, t)
    ensures Inv(Recorded(s, t, category, stamp, users))
  {
    var x := s.txns[t];
    var f := s.files[x.action];
    var g := FailedFile(f, x.approver.id, x.reason, category, x.now, stamp, users);
    FailureKeeps(f, x.approver.id, x.reason, category, x.now, stamp, users);
    FailureExecutesNothing(f, x.approver.id, x.reason, category, x.now, stamp, users);
    RecordCore(s, t, g);
    PutFileFiles(s.files, x.action, g);
  }

  lemma OutsideCore(s: State, next: World)
    requires Core(s) && CanChange(s, next)
    ensures Core(OutsideChanged(s, next))
  {
    var r := OutsideChanged(s, next);
    forall t | t in s.txns ensures TxnOk(s.files, next, s.txns[t]) {
      TxnLasts(s.files, s.world, next, s.txns[t]);
    }
    MoveAlternates(s.history, Revived(s.world, next));
    MoveKeepsDormant(s.history, s.world, next);
    forall a: nat ensures RanBy(r.history, a) == Executed(r.files, a) {
      assert r.history[..|r.history| - 1] == s.history;
      assert RanBy(s.history, a) == Executed(s.files, a);
    }
    assert Apart(r);
  }

  lemma OutsideKeeps(s: State, next: World)
    requires Inv(s) && CanChange(s, next)
    ensures Inv(OutsideChanged(s, next))
  {
    OutsideCore(s, next);
  }

  lemma DropKeeps(s: State, t: nat)
    requires Inv(s)
    ensures Inv(Drop(s, t))
  {
    DropCore(s, t);
  }

  lemma RollBackKeeps(s: State, t: nat)
    requires Inv(s) && t in s.txns
    ensures Inv(PutTxn(s, t, RolledBack(s.txns[t])))
  {
    RollBackCore(s, t);
  }

  // ----- files only move towards their end

  lemma PutMoves(files: map<nat, CaseFile>, b: nat, g: CaseFile, a: nat)
    requires a in files && b in files && Moves(files[b], g) && DeadlinesAgree(files[a])
    ensures a in files[b := g] && Moves(files[a], files[b := g][a])
  {
  }

  lemma UnmovedMoves(f: CaseFile)
    requires Shape(f)
    ensures Moves(f, f)
  {
  }

  lemma CallMoves(s: State, step: Step, a: nat)
    requires FilesOk(s.files) && IsFileCall(step) && CanFileCall(s, step) && a in s.files
    ensures a in Called(s, step).files && Moves(s.files[a], Called(s, step).files[a])
  {
    FileCallKeeps(s.files[step.action], step);
    UnmovedMoves(s.files[a]);
    PutMoves(s.files, step.action, FileCall(s.files[step.action], step), a);
  }

  lemma CommitFiles(s: State, t: nat, stamp: int, users: seq<User>, acknowledged: bool)
    requires Core(s) && CanCommit(s, t)
    ensures var x := s.txns[t];
            Committed(s, t, stamp, users, acknowledged).files
            == s.files[x.action := CompletedFile(x.file, x.approver.id, x.reason, x.phase.final, x.now, stamp, users)]
    ensures Describable(s.txns[t].file.preview.kind, s.txns[t].phase.final.skipped)
  {
    assert TxnOk(s.files, s.world, s.txns[t]);
    CommitForm(s, t, stamp, users, acknowledged);
  }

  lemma CompletionMoves(s: State, x: Txn, stamp: int, users: seq<User>)
    requires TxnOk(s.files, s.world, x) && x.phase.Judged? && FileInv(x.file)
    ensures Moves(x.file, CompletedFile(x.file, x.approver.id, x.reason, x.phase.final, x.now, stamp, users))
  {
    CompletionKeeps(x.file, x.approver.id, x.reason, x.phase.final, x.now, stamp, users);
    CompletionAccounts(x.file, x.approver.id, x.reason, x.phase.final, x.now, stamp, users);
  }

  lemma CommitMoves(s: State, t: nat, stamp: int, users: seq<User>, acknowledged: bool, a: nat)
    requires Inv(s) && CanCommit(s, t) && a in s.files
    ensures var r := Committed(s, t, stamp, users, acknowledged); a in r.files && Moves(s.files[a], r.files[a])
  {
    var x := s.txns[t];
    HeldFileValid(s, t);
    CommitFiles(s, t, stamp, users, acknowledged);
    CompletionMoves(s, x, stamp, users);
    PutMoves(s.files, x.action, CompletedFile(x.file, x.approver.id, x.reason, x.phase.final, x.now, stamp, users), a);
  }

  lemma EscalateMoves(s: State, t: nat, stamp: int, users: seq<User>, a: nat)
    requires Inv(s) && CanEscalate(s, t) && a in s.files
    ensures var r := EscalatedState(s, t, stamp, users); a in r.files && Moves(s.files[a], r.files[a])
  {
    var x := s.txns[t];
    HeldFileValid(s, t);
    EscalationIsFirst(x);
    EscalationKeeps(x.file, x.approver.id, x.phase.final, stamp, users);
    PutMoves(s.files, x.action, EscalatedFile(x.file, x.approver.id, x.phase.final, stamp, users), a);
  }

  lemma RecordMoves(s: State, t: nat, category: string, stamp: int, users: seq<User>, a: nat)
    requires FilesOk(s.files) && CanRecord(s, t) && a in s.files
    ensures var r := Recorded(s, t, category, stamp, users); a in r.files && Moves(s.files[a], r.files[a])
  {
    var x := s.txns[t];
    var f := s.files[x.action];
    FailureKeeps(f, x.approver.id, x.reason, category, x.now, stamp, users);
    FailureCompletesNothing(f, x.approver.id, x.reason, category, x.now, stamp, users);
    PutMoves(s.files, x.action, FailedFile(f, x.approver.id, x.reason, category, x.now, stamp, users), a);
  }

  // ----- what a commit executes

  lemma SkippedCountIsLength(p: Preview)
    requires Valid(p)
    ensures p.skippedCount == |p.skipped|
  {
  }

  /** What may be said of the records a transaction is about to execute. */
  ghost predicate SoundSet(s: State, x: Txn)
    requires x.phase.Judged?
  {
    var p, initial, final := x.file.preview, x.phase.initial, x.phase.final;
    var ids := ExecutableIds(final.executable);
    && Sorting.Distinct(ids) && TargetIds(p).Some?
    && (forall id | id in ids :: id in ExecutableIds(initial.executable))
    && (forall e | e in initial.executable :: e.id in TargetIds(p).value)
    && (forall e | e in final.executable :: Eligible(s.world, x, e) && Live(s.world, p.kind, e.id))
    && EvaluateApproval(x.approver, p.requester, p.scopeType, p.scopeKey, |ids|,
                        exists e | e in final.executable :: e.crosses,
                        exists e | e in final.executable :: e.overrides != []).allowed
    && |ids| + CompletedPreview(p, final.skipped).skippedCount == p.recordCount + p.skippedCount
  }

  lemma SoundDecision(x: Txn)
    requires x.phase.Judged? && Accounts(x, x.phase.final) && FinalDecision(x, x.phase.final).allowed
    ensures var p, final := x.file.preview, x.phase.final;
            EvaluateApproval(x.approver, p.requester, p.scopeType, p.scopeKey, |ExecutableIds(final.executable)|,
                             exists e | e in final.executable :: e.crosses,
                             exists e | e in final.executable :: e.overrides != []).allowed
  {
    var final := x.phase.final;
    assert final.crosses == (exists e | e in final.executable :: e.crosses);
    assert final.RequiresOverride() == (exists e | e in final.executable :: e.overrides != []);
  }

  lemma SoundRecords(w: World, x: Txn)
    requires x.phase.Judged? && FinalOk(w, x, x.phase.initial, x.phase.final) && Admitted(x)
    ensures var p, initial, final := x.file.preview, x.phase.initial, x.phase.final;
            var ids := ExecutableIds(final.executable);
            && Sorting.Distinct(ids) && TargetIds(p).Some?
            && (forall id | id in ids :: id in ExecutableIds(initial.executable))
            && (forall e | e in initial.executable :: e.id in TargetIds(p).value)
            && (forall e | e in final.executable :: Eligible(w, x, e) && Live(w, p.kind, e.id))
  {
    CommitGoesThrough(w, x);
  }

  lemma SoundCount(x: Txn)
    requires x.phase.Judged? && Accounts(x, x.phase.final) && x.file.preview.skippedCount == |x.file.preview.skipped|
    ensures var p, final := x.file.preview, x.phase.final;
            |ExecutableIds(final.executable)| + CompletedPreview(p, final.skipped).skippedCount == p.recordCount
              + p.skippedCount
  {
  }

  lemma SoundSetNow(s: State, t: nat)
    requires Core(s) && CanCommit(s, t) && s.txns[t].file.preview.skippedCount == |s.txns[t].file.preview.skipped|
    ensures SoundSet(s, s.txns[t])
  {
    assert TxnOk(s.files, s.world, s.txns[t]);
    SoundRecords(s.world, s.txns[t]);
    SoundDecision(s.txns[t]);
    SoundCount(s.txns[t]);
  }

  /** At the commit: the executed records were admitted by both passes, are still eligible, are the whole of what
      the policy decided on, and together with the skips account for every target. */
  lemma ExecutedSetIsSound(s: State, t: nat)
    requires Inv(s) && CanCommit(s, t)
    ensures SoundSet(s, s.txns[t])
  {
    HeldFileValid(s, t);
    SkippedCountIsLength(s.txns[t].file.preview);
    SoundSetNow(s, t);
  }

  /** A commit executes exactly its final records, logs each once and completes its own action. */
  lemma CommitIsExact(s: State, t: nat, stamp: int, users: seq<User>, acknowledged: bool)
    requires Core(s) && CanCommit(s, t)
    ensures var x, r := s.txns[t], Committed(s, t, stamp, users, acknowledged);
            var ids := ExecutableIds(x.phase.final.executable);
            && r.world == Changed(s.world, x.file.preview.kind, Sorting.Elements(ids))
            && r.history == s.history + RanRows(AuditRows(x.phase.final.executable, x.file.preview.kind, x.action,
                                                          x.approver.id, x.now))
            && x.action in s.files && s.files[x.action].status == Pending
            && x.action in r.files && r.files[x.action].status == Completed && ExecutedIds(r.files[x.action]) == ids
  {
    var x := s.txns[t];
    assert TxnOk(s.files, s.world, x);
    CommitForm(s, t, stamp, users, acknowledged);
    CompletedExecutes(x.file, x.approver.id, x.reason, x.phase.final, x.now, stamp, users);
  }

  lemma CommitTurns(s: State, t: nat, stamp: int, users: seq<User>, acknowledged: bool, target: Target)
    requires Core(s) && CanCommit(s, t)
    ensures LiveTarget(s.world, target) && !LiveTarget(Committed(s, t, stamp, users, acknowledged).world, target) <==>
            target.0 == s.txns[t].file.preview.kind && target.1 in ExecutableIds(s.txns[t].phase.final.executable)
  {
    var x := s.txns[t];
    var ids := ExecutableIds(x.phase.final.executable);
    CommitIsExact(s, t, stamp, users, acknowledged);
    assert TxnOk(s.files, s.world, x);
    CommitGoesThrough(s.world, x);
    UpdateTurnsExactly(s.world, x.file.preview.kind, Sorting.Elements(ids), target.0, target.1);
    if target.1 in ids {
      var i :| 0 <= i < |ids| && ids[i] == target.1;
      assert x.phase.final.executable[i] in x.phase.final.executable;
    }
  }
}
