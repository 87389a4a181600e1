/** The invariant of all interleavings, step by step. */
module Safety {
  import opened Policy
  import opened Revalidation
  import opened Snapshot
  import opened Notices
  import opened Lifecycle
  import opened Locking
  import opened Execution
  import opened History
  import opened Protocol
  import Sorting

  predicate Holding(x: Txn) {
    !x.phase.Gap?
  }

  /** The ids the audit trail of a completed action says it executed. */
  function ExecutedIds(f: CaseFile): seq<nat> {
    if f.status == Completed && f.trail != [] then f.trail[|f.trail| - 1].records else []
  }

  function Executed(files: map<nat, CaseFile>, action: nat): seq<nat> {
    if action in files then ExecutedIds(files[action]) else []
  }

  /** The admitted records are targets, and their locks are held as far as the statements have come. */
  ghost predicate PassOk(w: World, x: Txn, initial: Result, stage: nat) {
    && TargetIds(x.file.preview).Some? && stage <= Stages(x.file.preview.kind)
    && forall e | e in initial.executable ::
         e.id in TargetIds(x.file.preview).value && Held(w, x.file.preview.kind, e, x.locks, stage)
  }

  predicate Eligible(w: World, x: Txn, e: Executable) {
    VerdictOn(w, x.file.preview.kind, ScopeOf(x.file.preview), x.approver, x.now, e.id) == Execute(e)
  }

  /** Each target is on exactly one of the two lists, as often as it is a target. */
  predicate Partitioned(p: Preview, final: Result) {
    && TargetIds(p).Some?
    && multiset(ExecutableIds(final.executable)) + multiset(SkippedIds(final.skipped)) == multiset(TargetIds(p).value)
  }

  /** What the second pass found accounts for every target, and its summary is exact. */
  ghost predicate Accounts(x: Txn, final: Result) {
    && |final.executable| + |final.skipped| == x.file.preview.recordCount
    && Describable(x.file.preview.kind, final.skipped) && Partitioned(x.file.preview, final)
    && (final.RequiresOverride() <==> exists e | e in final.executable :: e.overrides != [])
    && (final.crosses <==> exists e | e in final.executable :: e.crosses)
  }

  /** Every record about to be executed was admitted first, is a locked target, and is eligible at this moment. */
  ghost predicate FinalOk(w: World, x: Txn, initial: Result, final: Result) {
    && Stable(initial, final)
    && PassOk(w, x, initial, Stages(x.file.preview.kind))
    && Accounts(x, final)
    && forall e | e in final.executable :: Eligible(w, x, e) && TargetRow(x.file.preview.kind, e.id) in x.locks
  }

  ghost predicate PhaseOk(w: World, x: Txn) {
    match x.phase
    case Gap => x.locks == {}
    case Begun => x.locks == {}
    case Looking(initial, stage) => PassOk(w, x, initial, stage)
    case Judged(initial, final) => FinalOk(w, x, initial, final)
  }

  predicate Admitted(x: Txn) {
    Open(x.file) && !EitherPassed(x.file, x.now) && DecisionOn(x.file.preview, x.approver).allowed
  }

  ghost predicate TxnOk(files: map<nat, CaseFile>, w: World, x: Txn) {
    && x.action in files
    && (Holding(x) ==> files[x.action] == x.file && Admitted(x))
    && PhaseOk(w, x)
  }

  ghost predicate FilesOk(files: map<nat, CaseFile>) {
    forall a | a in files :: FileInv(files[a])
  }

  ghost predicate TxnsOk(s: State) {
    forall t | t in s.txns :: TxnOk(s.files, s.world, s.txns[t])
  }

  predicate Separate(x: Txn, y: Txn) {
    x.locks !! y.locks && (Holding(x) && Holding(y) ==> x.action != y.action)
  }

  ghost predicate Apart(s: State) {
    forall t, u | t in s.txns && u in s.txns && t != u :: Separate(s.txns[t], s.txns[u])
  }

  ghost predicate HistoryOk(s: State) {
    && Alternates(s.history) && Dormant(s.history, s.world)
    && forall a: nat :: RanBy(s.history, a) == Executed(s.files, a)
  }

  /** All of the invariant but the files themselves. */
  ghost predicate Core(s: State) {
    References(s.world) && TxnsOk(s) && Apart(s) && HistoryOk(s)
  }

  ghost predicate Inv(s: State) {
    FilesOk(s.files) && Core(s)
  }

  // ----- one component at a time

  lemma PutFileTxns(s: State, a: nat, g: CaseFile)
    requires TxnsOk(s) && Apart(s) && !Busy(s, a)
    ensures TxnsOk(PutFile(s, a, g)) && Apart(PutFile(s, a, g))
  {
    var r := PutFile(s, a, g);
    forall t | t in r.txns ensures TxnOk(r.files, r.world, r.txns[t]) {
      assert TxnOk(s.files, s.world, s.txns[t]);
    }
    forall t, u | t in r.txns && u in r.txns && t != u ensures Separate(r.txns[t], r.txns[u]) {
      assert Separate(s.txns[t], s.txns[u]);
    }
  }

  lemma PutFileHistory(s: State, a: nat, g: CaseFile)
    requires HistoryOk(s) && ExecutedIds(g) == Executed(s.files, a)
    ensures HistoryOk(PutFile(s, a, g))
  {
    var r := PutFile(s, a, g);
    forall action: nat ensures RanBy(r.history, action) == Executed(r.files, action) {
      assert RanBy(s.history, action) == Executed(s.files, action);
    }
  }

  lemma PutFileFiles(files: map<nat, CaseFile>, a: nat, g: CaseFile)
    requires FilesOk(files) && FileInv(g)
    ensures FilesOk(files[a := g])
  {
  }

  lemma PutFileCore(s: State, a: nat, g: CaseFile)
    requires Core(s) && !Busy(s, a) && ExecutedIds(g) == Executed(s.files, a)
    ensures Core(PutFile(s, a, g))
  {
    PutFileTxns(s, a, g);
    PutFileHistory(s, a, g);
  }

  lemma PutTxnCore(s: State, t: nat, x: Txn)
    requires Core(s) && TxnOk(s.files, s.world, x)
    requires forall u | u in s.txns && u != t :: Separate(x, s.txns[u])
    ensures Core(PutTxn(s, t, x))
  {
    var r := PutTxn(s, t, x);
    forall u | u in r.txns ensures TxnOk(r.files, r.world, r.txns[u]) {
      assert u != t ==> TxnOk(s.files, s.world, s.txns[u]);
    }
    forall u, v | u in r.txns && v in r.txns && u != v ensures Separate(r.txns[u], r.txns[v]) {
      if u != t && v != t {
        assert Separate(s.txns[u], s.txns[v]);
      }
    }
  }

  lemma DropCore(s: State, t: nat)
    requires Core(s)
    ensures Core(Drop(s, t))
  {
    var r := Drop(s, t);
    assert forall u | u in r.txns :: u in s.txns && r.txns[u] == s.txns[u];
    forall u | u in r.txns ensures TxnOk(r.files, r.world, r.txns[u]) {
      assert TxnOk(s.files, s.world, s.txns[u]);
    }
    forall u, v | u in r.txns && v in r.txns && u != v ensures Separate(r.txns[u], r.txns[v]) {
      assert Separate(s.txns[u], s.txns[v]);
    }
  }

  /** Rolling back frees the locks and forgets everything but who tried. */
  lemma RollBackCore(s: State, t: nat)
    requires Core(s) && t in s.txns
    ensures Core(PutTxn(s, t, RolledBack(s.txns[t])))
  {
    assert TxnOk(s.files, s.world, s.txns[t]);
    forall u | u in s.txns && u != t ensures Separate(RolledBack(s.txns[t]), s.txns[u]) {
      assert Separate(s.txns[t], s.txns[u]);
    }
    PutTxnCore(s, t, RolledBack(s.txns[t]));
  }

  /** What a transaction relies on survives every change its locks allow. */
  lemma EligibleLasts(w: World, v: World, x: Txn, initial: Result, final: Result, e: Executable)
    requires FinalOk(w, x, initial, final) && e in final.executable && Allowed(w, v, x.locks)
    ensures Eligible(v, x, e)
  {
    var p := x.file.preview;
    var d := AdmittedBefore(initial, final, e);
    VerdictLasts(w, v, p.kind, ScopeOf(p), x.approver, x.now, d, x.locks);
  }

  lemma AdmittedBefore(initial: Result, final: Result, e: Executable) returns (d: Executable)
    requires Stable(initial, final) && e in final.executable
    ensures d in initial.executable && d.id == e.id
  {
    var i :| 0 <= i < |final.executable| && final.executable[i] == e;
    assert ExecutableIds(final.executable)[i] == e.id;
    assert e.id in ExecutableIds(initial.executable);
    var j :| 0 <= j < |initial.executable| && ExecutableIds(initial.executable)[j] == e.id;
    d := initial.executable[j];
  }

  lemma PassLasts(w: World, v: World, x: Txn, initial: Result, stage: nat)
    requires PassOk(w, x, initial, stage) && Allowed(w, v, x.locks)
    ensures PassOk(v, x, initial, stage)
  {
    forall e | e in initial.executable ensures Held(v, x.file.preview.kind, e, x.locks, stage) {
      HeldLasts(w, v, x.file.preview.kind, e, x.locks, stage);
    }
  }

  lemma TxnLasts(files: map<nat, CaseFile>, w: World, v: World, x: Txn)
    requires TxnOk(files, w, x) && Allowed(w, v, x.locks)
    ensures TxnOk(files, v, x)
  {
    match x.phase {
      case Gap =>
      case Begun =>
      case Looking(initial, stage) => PassLasts(w, v, x, initial, stage);
      case Judged(initial, final) =>
        PassLasts(w, v, x, initial, Stages(x.file.preview.kind));
        forall e | e in final.executable ensures Eligible(v, x, e) {
          EligibleLasts(w, v, x, initial, final, e);
        }
    }
  }

  // ----- the passes

  lemma AfterFirstPassOk(s: State, x: Txn, seen: World)
    requires TxnOk(s.files, s.world, x) && x.phase.Begun? && TargetIds(x.file.preview).Some?
    requires Current(s, seen, PassLocks(x, seen))
    ensures TxnOk(s.files, s.world, AfterFirstPass(x, seen))
  {
    var p := x.file.preview;
    var ids := TargetIds(p).value;
    var y := AfterFirstPass(x, seen);
    EveryTargetJudgedOnce(seen, p.kind, ScopeOf(p), x.approver, x.now, ids);
    forall e | e in y.phase.initial.executable ensures e.id in ids && Held(s.world, p.kind, e, y.locks, 0) {
      TargetsHeld(s.world, seen, p.kind, ScopeOf(p), x.approver, x.now, ids, e);
    }
  }

  lemma AfterLocksOk(s: State, x: Txn)
    requires TxnOk(s.files, s.world, x) && References(s.world)
    requires x.phase.Looking? && x.phase.stage < Stages(x.file.preview.kind)
    ensures TxnOk(s.files, s.world, x.(phase := Looking(x.phase.initial, x.phase.stage + 1),
                                       locks := x.locks + NextLocks(s, x)))
  {
    var kind, initial, stage := x.file.preview.kind, x.phase.initial, x.phase.stage;
    forall e | e in initial.executable ensures Held(s.world, kind, e, x.locks + NextLocks(s, x), stage + 1) {
      StageHolds(s.world, kind, initial.executable, e, x.locks, stage);
    }
  }

  lemma JudgedAccounts(x: Txn, seen: World)
    requires Valid(x.file.preview) && TargetIds(x.file.preview).Some?
    ensures Accounts(x, JudgeAll(seen, x, TargetIds(x.file.preview).value))
  {
    var p := x.file.preview;
    var ids := TargetIds(p).value;
    EveryTargetJudgedOnce(seen, p.kind, ScopeOf(p), x.approver, x.now, ids);
    OverrideExactly(seen, p.kind, ScopeOf(p), x.approver, x.now, ids);
    CompletionConserves(seen, p, ScopeOf(p), x.approver, x.now);
  }

  lemma EligibleNow(s: State, x: Txn, seen: World, final: Result, e: Executable)
    requires x.phase.Looking? && PassOk(s.world, x, x.phase.initial, Stages(x.file.preview.kind))
    requires final == JudgeAll(seen, x, TargetIds(x.file.preview).value)
    requires Stable(x.phase.initial, final) && e in final.executable && Allowed(s.world, seen, x.locks)
    ensures Eligible(s.world, x, e) && TargetRow(x.file.preview.kind, e.id) in x.locks
  {
    var p := x.file.preview;
    EveryTargetJudgedOnce(seen, p.kind, ScopeOf(p), x.approver, x.now, TargetIds(p).value);
    var d := AdmittedBefore(x.phase.initial, final, e);
    VerdictLasts(s.world, seen, p.kind, ScopeOf(p), x.approver, x.now, d, x.locks);
  }

  lemma AfterFinalPassOk(s: State, x: Txn, seen: World)
    requires TxnOk(s.files, s.world, x) && Valid(x.file.preview)
    requires x.phase.Looking? && x.phase.stage == Stages(x.file.preview.kind)
    requires Allowed(s.world, seen, x.locks)
    ensures TargetIds(x.file.preview).Some? && TxnOk(s.files, s.world, AfterFinalPass(x, seen))
  {
    var p, initial := x.file.preview, x.phase.initial;
    var final := JudgeAll(seen, x, TargetIds(p).value);
    var y := AfterFinalPass(x, seen);
    if Stable(initial, final) {
      JudgedAccounts(x, seen);
      assert Accounts(y, final);
      forall e | e in initial.executable ensures Held(s.world, p.kind, e, y.locks, Stages(p.kind)) {
        Locking.MoreLocks(s.world, p.kind, e, x.locks, PassLocks(x, seen), Stages(p.kind));
      }
      forall e | e in final.executable ensures Eligible(s.world, y, e) && TargetRow(p.kind, e.id) in y.locks {
        EligibleNow(s, x, seen, final, e);
      }
    }
  }

  // ----- the commit

  /** The claim and the update of a commit always go through. */
  lemma CommitGoesThrough(w: World, x: Txn)
    requires x.phase.Judged? && FinalOk(w, x, x.phase.initial, x.phase.final) && Admitted(x)
    ensures Open(x.file) && !Passed(x.file.deadline, x.now)
    ensures Sorting.Distinct(ExecutableIds(x.phase.final.executable))
    ensures forall e | e in x.phase.final.executable :: Live(w, x.file.preview.kind, e.id)
    ensures Update(w, x.file.preview.kind, ExecutableIds(x.phase.final.executable)).Some?
  {
    var p, final := x.file.preview, x.phase.final;
    var ids := ExecutableIds(final.executable);
    Sorting.UniqueDistinct(ids);
    forall e | e in final.executable ensures Live(w, p.kind, e.id) {
      assert Eligible(w, x, e);
      ExecutableIsLive(w, p.kind, ScopeOf(p), x.approver, x.now, e);
    }
    forall id | id in ids ensures Live(w, p.kind, id) {
      var i :| 0 <= i < |ids| && ids[i] == id;
      assert final.executable[i] in final.executable;
    }
    UpdateExactly(w, p.kind, ids);
  }

  lemma RowsOfRecords(records: seq<Executable>, kind: Kind, action: nat, actor: nat, now: int)
    requires Sorting.Distinct(ExecutableIds(records))
    ensures var rows := AuditRows(records, kind, action, actor, now);
            && NoRepeats(rows) && TargetsOf(rows) == ExecutableIds(records)
            && (forall row | row in rows :: row.action == action && row.kind == kind
                                            && row.target in Sorting.Elements(ExecutableIds(records)))
  {
    var rows := AuditRows(records, kind, action, actor, now);
    forall i, j | 0 <= i < j < |rows| ensures TargetOf(rows[i]) != TargetOf(rows[j]) {
      assert ExecutableIds(records)[i] != ExecutableIds(records)[j];
    }
    forall row | row in rows ensures row.target in Sorting.Elements(ExecutableIds(records)) && row.action == action
      && row.kind == kind {
      var i :| 0 <= i < |rows| && rows[i] == row;
      assert ExecutableIds(records)[i] == row.target;
    }
  }

  lemma RowsFresh(h: seq<Entry>, w: World, x: Txn, rows: seq<AuditRow>)
    requires Dormant(h, w) && x.phase.Judged?
    requires forall e | e in x.phase.final.executable :: Live(w, x.file.preview.kind, e.id)
    requires rows == AuditRows(x.phase.final.executable, x.file.preview.kind, x.action, x.approver.id, x.now)
    ensures forall row | row in rows :: !LastRan(h, TargetOf(row))
  {
    forall row | row in rows ensures !LastRan(h, TargetOf(row)) {
      var i :| 0 <= i < |rows| && rows[i] == row;
      assert x.phase.final.executable[i] in x.phase.final.executable;
      assert LiveTarget(w, TargetOf(row));
    }
  }

  lemma CommitHistory(s: State, x: Txn, g: CaseFile)
    requires HistoryOk(s) && x.phase.Judged? && x.action in s.files && s.files[x.action] == x.file && Open(x.file)
    requires Sorting.Distinct(ExecutableIds(x.phase.final.executable))
    requires forall e | e in x.phase.final.executable :: Live(s.world, x.file.preview.kind, e.id)
    requires ExecutedIds(g) == ExecutableIds(x.phase.final.executable)
    ensures var rows := AuditRows(x.phase.final.executable, x.file.preview.kind, x.action, x.approver.id, x.now);
            var w := Changed(s.world, x.file.preview.kind, Sorting.Elements(ExecutableIds(x.phase.final.executable)));
            HistoryOk(s.(files := s.files[x.action := g], world := w, history := s.history + RanRows(rows)))
  {
    var p, records := x.file.preview, x.phase.final.executable;
    var rows := AuditRows(records, p.kind, x.action, x.approver.id, x.now);
    RowsOfRecords(records, p.kind, x.action, x.approver.id, x.now);
    RowsFresh(s.history, s.world, x, rows);
    RowsAlternate(s.history, rows);
    RowsKeepDormant(s.history, s.world, p.kind, rows, Sorting.Elements(ExecutableIds(records)));
    var files := s.files[x.action := g];
    forall a: nat ensures RanBy(s.history + RanRows(rows), a) == Executed(files, a) {
      RanByRows(s.history, rows, x.action, a);
      assert RanBy(s.history, a) == Executed(s.files, a);
    }
  }

  lemma CommitTxns(s: State, t: nat, g: CaseFile, v: World, rest: map<nat, Txn>, history: seq<Entry>)
    requires TxnsOk(s) && Apart(s) && t in s.txns && Holding(s.txns[t])
    requires forall u | u in s.txns && u != t :: Allowed(s.world, v, s.txns[u].locks)
    requires rest == s.txns - {t} || rest == s.txns[t := RolledBack(s.txns[t])]
    ensures TxnsOk(State(s.files[s.txns[t].action := g], v, rest, history))
    ensures Apart(State(s.files[s.txns[t].action := g], v, rest, history))
  {
    var files := s.files[s.txns[t].action := g];
    forall u | u in rest ensures TxnOk(files, v, rest[u]) {
      if u != t {
        assert Separate(s.txns[t], s.txns[u]);
        TxnLasts(s.files, s.world, v, s.txns[u]);
      }
    }
    forall u, y | u in rest && y in rest && u != y ensures Separate(rest[u], rest[y]) {
      assert Separate(s.txns[u], s.txns[y]);
    }
  }

  lemma CommitWorld(s: State, t: nat, ids: seq<nat>)
    requires References(s.world) && Apart(s) && t in s.txns
    requires forall id | id in ids :: TargetRow(s.txns[t].file.preview.kind, id) in s.txns[t].locks
    ensures var v := Changed(s.world, s.txns[t].file.preview.kind, Sorting.Elements(ids));
            References(v) && forall u | u in s.txns && u != t :: Allowed(s.world, v, s.txns[u].locks)
  {
    var x := s.txns[t];
    var v := Changed(s.world, x.file.preview.kind, Sorting.Elements(ids));
    UpdateIsAllowed(s.world, x.file.preview.kind, Sorting.Elements(ids), x.locks, {});
    forall u | u in s.txns && u != t ensures Allowed(s.world, v, s.txns[u].locks) {
      assert Separate(x, s.txns[u]);
      UpdateIsAllowed(s.world, x.file.preview.kind, Sorting.Elements(ids), x.locks, s.txns[u].locks);
    }
  }

  lemma CompletedExecutes(f: CaseFile, user: nat, reason: string, final: Result, now: int, stamp: int, users: seq<User>)
    requires f.approval.Some?
    ensures ExecutedIds(CompletedFile(f, user, reason, final, now, stamp, users)) == ExecutableIds(final.executable)
  {
  }

  lemma TargetsLocked(w: World, x: Txn)
    requires x.phase.Judged? && FinalOk(w, x, x.phase.initial, x.phase.final)
    ensures forall id | id in ExecutableIds(x.phase.final.executable) :: TargetRow(x.file.preview.kind, id) in x.locks
  {
    var ids := ExecutableIds(x.phase.final.executable);
    forall id | id in ids ensures TargetRow(x.file.preview.kind, id) in x.locks {
      var i :| 0 <= i < |ids| && ids[i] == id;
      assert x.phase.final.executable[i] in x.phase.final.executable;
    }
  }

  lemma CommitForm(s: State, t: nat, stamp: int, users: seq<User>, acknowledged: bool)
    requires t in s.txns && s.txns[t].phase.Judged? && TxnOk(s.files, s.world, s.txns[t])
    ensures var x := s.txns[t];
            var p, final := x.file.preview, x.phase.final;
            Committed(s, t, stamp, users, acknowledged)
            == State(s.files[x.action := CompletedFile(x.file, x.approver.id, x.reason, final, x.now, stamp, users)],
                     Changed(s.world, p.kind, Sorting.Elements(ExecutableIds(final.executable))),
                     if acknowledged then s.txns - {t} else s.txns[t := RolledBack(x)],
                     s.history + RanRows(AuditRows(final.executable, p.kind, x.action, x.approver.id, x.now)))
  {
    CommitGoesThrough(s.world, s.txns[t]);
  }

  lemma CommitCore(s: State, t: nat, stamp: int, users: seq<User>, acknowledged: bool)
    requires Core(s) && t in s.txns && s.txns[t].phase.Judged?
    ensures Core(Committed(s, t, stamp, users, acknowledged))
  {
    var x := s.txns[t];
    var final := x.phase.final;
    assert TxnOk(s.files, s.world, x);
    CommitForm(s, t, stamp, users, acknowledged);
    CommitGoesThrough(s.world, x);
    var g := CompletedFile(x.file, x.approver.id, x.reason, final, x.now, stamp, users);
    CompletedExecutes(x.file, x.approver.id, x.reason, final, x.now, stamp, users);
    TargetsLocked(s.world, x);
    CommitWorld(s, t, ExecutableIds(final.executable));
    CommitHistory(s, x, g);
    var r := Committed(s, t, stamp, users, acknowledged);
    CommitTxns(s, t, g, r.world, r.txns, r.history);
  }

  lemma CommitFile(files: map<nat, CaseFile>, x: Txn, stamp: int, users: seq<User>)
    requires FilesOk(files) && x.action in files && files[x.action] == x.file && Open(x.file)
    requires x.phase.Judged? && Describable(x.file.preview.kind, x.phase.final.skipped)
    ensures FilesOk(files[x.action := CompletedFile(x.file, x.approver.id, x.reason, x.phase.final, x.now, stamp,
                                                    users)])
  {
    CompletionKeeps(x.file, x.approver.id, x.reason, x.phase.final, x.now, stamp, users);
    PutFileFiles(files, x.action, CompletedFile(x.file, x.approver.id, x.reason, x.phase.final, x.now, stamp, users));
  }

  lemma CommitKeeps(s: State, t: nat, stamp: int, users: seq<User>, acknowledged: bool)
    requires Inv(s) && t in s.txns && s.txns[t].phase.Judged?
    ensures Inv(Committed(s, t, stamp, users, acknowledged))
  {
    assert TxnOk(s.files, s.world, s.txns[t]);
    CommitCore(s, t, stamp, users, acknowledged);
    CommitFile(s.files, s.txns[t], stamp, users);
    CommitForm(s, t, stamp, users, acknowledged);
  }
}
