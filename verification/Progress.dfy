/** An approval nobody disturbs goes through: the protocol is not safe by never doing anything. */
module Progress {
  import opened Options
  import opened Policy
  import opened Revalidation
  import opened Snapshot
  import opened Lifecycle
  import opened Locking
  import opened Protocol
  import opened Safety
  import opened Runs
  import Sorting
  import Traces

  ghost predicate Leads(s: State, steps: seq<Step>, r: State) {
    Possible(s, steps) && After(s, steps) == r
  }

  lemma LeadsOn(s: State, a: seq<Step>, r: State, b: seq<Step>, q: State)
    requires Leads(s, a, r) && Leads(r, b, q)
    ensures Leads(s, a + b, q)
  {
    Traces.Compose(Can(), Next(), s, a, b);
  }

  lemma OneStep(s: State, step: Step)
    requires CanStep(s, step)
    ensures Leads(s, [step], Apply(s, step))
  {
    assert Can()(s, step) && Next()(s, step) == Apply(s, step);
    assert Possible(Apply(s, step), []) && After(Apply(s, step), []) == Apply(s, step);
    assert [step][1..] == [];
  }

  lemma Unchanged(w: World, locks: set<Row>)
    requires References(w)
    ensures Allowed(w, w, locks)
  {
  }

  function With(s: State, t: nat, x: Txn): State {
    s.(txns := map[t := x])
  }

  lemma PutAlone(s: State, t: nat, x: Txn, y: Txn)
    requires s == With(s, t, x)
    ensures PutTxn(s, t, y) == With(s, t, y)
  {
  }

  /** The lock statements, one after the other. */
  lemma {:induction false} TakeLocks(s: State, t: nat, x: Txn) returns (steps: seq<Step>, locks: set<Row>)
    requires s == With(s, t, x) && x.phase.Looking? && x.phase.stage <= Stages(x.file.preview.kind)
    ensures Leads(s, steps, With(s, t, x.(phase := Looking(x.phase.initial, Stages(x.file.preview.kind)),
                                          locks := locks)))
    decreases Stages(x.file.preview.kind) - x.phase.stage
  {
    if x.phase.stage == Stages(x.file.preview.kind) {
      steps, locks := [], x.locks;
    } else {
      var y := x.(phase := Looking(x.phase.initial, x.phase.stage + 1), locks := x.locks + NextLocks(s, x));
      OneLock(s, t, x, y);
      var more;
      more, locks := TakeLocks(With(s, t, y), t, y);
      LeadsOn(s, [LockMore(t)], With(s, t, y), more,
              With(s, t, x.(phase := Looking(x.phase.initial, Stages(x.file.preview.kind)), locks := locks)));
      steps := [LockMore(t)] + more;
    }
  }

  lemma OneLock(s: State, t: nat, x: Txn, y: Txn)
    requires s == With(s, t, x) && x.phase.Looking? && x.phase.stage < Stages(x.file.preview.kind)
    requires y == x.(phase := Looking(x.phase.initial, x.phase.stage + 1), locks := x.locks + NextLocks(s, x))
    ensures Leads(s, [LockMore(t)], With(s, t, y))
  {
    assert s.txns[t] == x && CanStep(s, LockMore(t));
    OneStep(s, LockMore(t));
    PutAlone(s, t, x, y);
  }

  lemma BothPassesAgree(x: Txn, w: World, final: Result)
    requires TargetIds(x.file.preview).Some? && Valid(x.file.preview)
    requires final == JudgeAll(w, x, TargetIds(x.file.preview).value)
    ensures Stable(final, final)
  {
    var p := x.file.preview;
    TargetsExactly(p);
    Revalidation.DistinctTargets(w, p.kind, ScopeOf(p), x.approver, x.now, TargetIds(p).value);
    Sorting.UniqueLength(ExecutableIds(final.executable));
  }

  lemma FirstLook(s: State, t: nat, x: Txn)
    requires s == With(s, t, x) && x.phase.Begun? && References(s.world) && TargetIds(x.file.preview).Some?
    ensures Leads(s, [FirstPass(t, s.world)], With(s, t, AfterFirstPass(x, s.world)))
  {
    assert s.txns[t] == x && CanStep(s, FirstPass(t, s.world));
    OneStep(s, FirstPass(t, s.world));
    PutAlone(s, t, x, AfterFirstPass(x, s.world));
  }

  lemma SecondLook(s: State, t: nat, x: Txn)
    requires s == With(s, t, x) && References(s.world) && TargetIds(x.file.preview).Some?
    requires x.phase.Looking? && x.phase.stage == Stages(x.file.preview.kind)
    ensures Leads(s, [FinalPass(t, s.world)], With(s, t, AfterFinalPass(x, s.world)))
  {
    Unchanged(s.world, x.locks);
    assert s.txns[t] == x && CanStep(s, FinalPass(t, s.world));
    OneStep(s, FinalPass(t, s.world));
    PutAlone(s, t, x, AfterFinalPass(x, s.world));
  }

  /** From the locked pair to the judged records. */
  lemma Judge(s: State, t: nat, x: Txn, final: Result) returns (steps: seq<Step>, locks: set<Row>)
    requires s == With(s, t, x) && x.phase.Begun? && References(s.world)
    requires TargetIds(x.file.preview).Some? && Stable(final, final)
    requires final == JudgeAll(s.world, x, TargetIds(x.file.preview).value)
    ensures Leads(s, steps, With(s, t, x.(phase := Judged(final, final), locks := locks)))
  {
    FirstLook(s, t, x);
    var y := AfterFirstPass(x, s.world);
    var taking, held := TakeLocks(With(s, t, y), t, y);
    var z := y.(phase := Looking(final, Stages(x.file.preview.kind)), locks := held);
    LeadsOn(s, [FirstPass(t, s.world)], With(s, t, y), taking, With(s, t, z));
    SecondLook(With(s, t, z), t, z);
    locks := held + PassLocks(z, s.world);
    var judged := x.(phase := Judged(final, final), locks := locks);
    assert AfterFinalPass(z, s.world) == judged;
    LeadsOn(s, [FirstPass(t, s.world)] + taking, With(s, t, z), [FinalPass(t, s.world)], With(s, t, judged));
    steps := [FirstPass(t, s.world)] + taking + [FinalPass(t, s.world)];
  }

  lemma Beginning(s: State, t: nat, a: nat, user: User, reason: string, now: int, stamp: int, x: Txn)
    requires s.txns == map[] && a in s.files && Gate(s.files[a], user, now, stamp).code == Done
    requires x == Txn(a, user, reason, now, s.files[a], Begun, {})
    ensures Leads(s, [ApproveCall(t, a, user, reason, now, stamp)], With(s, t, x))
  {
    var begin := ApproveCall(t, a, user, reason, now, stamp);
    assert CanStep(s, begin);
    OneStep(s, begin);
    assert PutTxn(s, t, x) == With(s, t, x);
  }

  lemma Closing(s: State, t: nat, x: Txn, stamp: int, users: seq<User>)
    requires Core(s) && s == With(s, t, x) && x.phase.Judged? && FinalDecision(x, x.phase.final).allowed
    ensures var commit := Commit(t, stamp, users, true);
            && Leads(s, [commit], Committed(s, t, stamp, users, true))
            && Committed(s, t, stamp, users, true).txns == map[]
            && TxnOk(s.files, s.world, x)
  {
    assert s.txns[t] == x && TxnOk(s.files, s.world, s.txns[t]);
    OneStep(s, Commit(t, stamp, users, true));
    CommitForm(s, t, stamp, users, true);
  }

  lemma LeadsKeeps(s: State, steps: seq<Step>, r: State)
    requires Inv(s) && Leads(s, steps, r)
    ensures Inv(r)
  {
    RunKeepsInv(s, steps);
  }

  /** Undisturbed and allowed by the policy, an approval executes exactly the targets that are eligible. */
  lemma QuietApprovalCompletes(s: State, t: nat, a: nat, user: User, reason: string, now: int, stamp: int,
                               users: seq<User>,
                               x: Txn, final: Result)
    returns (steps: seq<Step>, r: State)
    requires Inv(s) && s.txns == map[] && a in s.files && Gate(s.files[a], user, now, stamp).code == Done
    requires x == Txn(a, user, reason, now, s.files[a], Begun, {}) && TargetIds(x.file.preview).Some?
    requires final == JudgeAll(s.world, x, TargetIds(x.file.preview).value) && FinalDecision(x, final).allowed
    ensures Leads(s, steps, r) && x.file.approval.Some? && r.txns == map[]
    ensures r.files == s.files[a := CompletedFile(x.file, user.id, reason, final, now, stamp, users)]
    ensures r.world == Changed(s.world, x.file.preview.kind, Sorting.Elements(ExecutableIds(final.executable)))
  {
    assert FileInv(s.files[a]);
    BothPassesAgree(x, s.world, final);
    Beginning(s, t, a, user, reason, now, stamp, x);
    var begin := [ApproveCall(t, a, user, reason, now, stamp)];
    var judging, locks := Judge(With(s, t, x), t, x, final);
    var y := x.(phase := Judged(final, final), locks := locks);
    LeadsOn(s, begin, With(s, t, x), judging, With(s, t, y));
    LeadsKeeps(s, begin + judging, With(s, t, y));
    Closing(With(s, t, y), t, y, stamp, users);
    r := Committed(With(s, t, y), t, stamp, users, true);
    CommitForm(With(s, t, y), t, stamp, users, true);
    LeadsOn(s, begin + judging, With(s, t, y), [Commit(t, stamp, users, true)], r);
    steps := begin + judging + [Commit(t, stamp, users, true)];
  }

  // ----- one whole run

  const REQUESTER := User(5, {RequestAction}, [])
  const APPROVER := User(6, {ApproveScoped}, [Scope("department", "it", Some(0))])

  function OneAssignment(): World {
    World(map[7 := Assignment(1, 2, 0, Active, None, false, false)], map[1 := DirectoryUser(0, Human, Enabled, None)],
          map[2 := Some(Amount(1.0))], map[], {}, map[], map[])
  }

  function OneRecord(): Record {
    Record(LicenseAssignment, 7, 0, Some(7), None, Some(0), "department", "it", Some("a"), Some("b"), Some("c"),
           Some(Amount(1.0)), "no_recorded_usage", "unused", Some(true), None)
  }

  function OnePreview(access: Access): Preview {
    Preview(Reclaim, 5, "department", "it", Some(0), Some(0), [OneRecord()], [], [], [],
            ReclaimSummary(1, 1, 1, 0, 0, 1, Amount(1.0), Amount(0.0)),
            PolicyFlags([], false, false, false, None), false, 1, 0, access)
  }

  lemma OnePreviewValid(access: Access)
    ensures Valid(OnePreview(access)) && TargetIds(OnePreview(access)) == Some([7])
  {
    var p := OnePreview(access);
    assert p.eligible[..0] == [];
    assert CountConfident(p.eligible) == 1 && Savings(p.eligible) == 1.0;
    assert OverrideCodes(p.overrides) == [];
    assert ExpectedFlags(p) == {};
    assert PolicyMatches(p);
    assert Ids(p.eligible + p.overrides) == [7];
    TargetsExactly(p);
    assert TargetIds(p).Some? && |TargetIds(p).value| == 1;
    Sorting.SameElements(TargetIds(p).value, [7]);
  }

  lemma OneVerdict(x: Txn)
    requires x.approver == APPROVER && x.now == 0 && x.file.preview.kind == Reclaim
    requires ScopeOf(x.file.preview) == ActionScope("department", "it", Some(0))
    ensures var final := JudgeAll(OneAssignment(), x, [7]);
            ExecutableIds(final.executable) == [7] && !final.crosses && !final.RequiresOverride()
  {
    var w := OneAssignment();
    assert APPROVER.scopes[0] == Scope("department", "it", Some(0));
    assert APPROVER.Sees(0);
    assert [7][..0] == [];
    var v := VerdictOn(w, Reclaim, ScopeOf(x.file.preview), APPROVER, 0, 7);
    assert v.Execute? && v.record.id == 7 && v.record.overrides == [] && !v.record.crosses;
    assert CodeSet([]) == {};
  }

  lemma OneGate(f: CaseFile, access: Access, submitted: int, stamp: int)
    requires f == Submitted(Opened(OnePreview(access), 5, 0, 0), 5, 0, submitted, [])
    ensures Gate(f, APPROVER, 0, stamp).code == Done
  {
    assert APPROVER.scopes[0].scopeType == "department" && APPROVER.scopes[0].key == "it";
    assert APPROVER.HasScope("department", "it");
  }

  lemma OneDecision(x: Txn, final: Result, access: Access)
    requires x.approver == APPROVER && x.file.preview == OnePreview(access)
    requires ExecutableIds(final.executable) == [7] && !final.crosses && !final.RequiresOverride()
    ensures FinalDecision(x, final).allowed
  {
    assert |final.executable| == |ExecutableIds(final.executable)| == 1;
    assert APPROVER.scopes[0].scopeType == "department" && APPROVER.scopes[0].key == "it";
    assert APPROVER.HasScope("department", "it");
  }

  lemma OneSubmission(access: Access, stamp: int) returns (steps: seq<Step>, s: State)
    ensures Leads(Empty(OneAssignment()), steps, s) && s.txns == map[] && s.world == OneAssignment()
    ensures 0 in s.files && s.files[0] == Submitted(Opened(OnePreview(access), 5, 0, 0), 5, 0, stamp, [])
  {
    OnePreviewValid(access);
    var start := Empty(OneAssignment());
    var f := Opened(OnePreview(access), 5, 0, 0);
    var create := Create(0, OnePreview(access), 5, 0, 0);
    assert CanStep(start, create);
    OneStep(start, create);
    var drafted := Apply(start, create);
    assert drafted == PutFile(start, 0, f);
    var submit := SubmitCall(0, REQUESTER, 0, stamp, []);
    assert CanStep(drafted, submit);
    OneStep(drafted, submit);
    assert Submit(f, REQUESTER, 0, stamp, []) == Reply(Submitted(f, 5, 0, stamp, []), Done);
    s := Apply(drafted, submit);
    LeadsOn(start, [create], drafted, [submit], s);
    steps := [create] + [submit];
  }

  lemma OneReady(f: CaseFile, access: Access) returns (x: Txn, final: Result)
    requires f == Submitted(Opened(OnePreview(access), 5, 0, 0), 5, 0, 0, [])
    ensures Gate(f, APPROVER, 0, 0).code == Done
    ensures x == Txn(0, APPROVER, "", 0, f, Begun, {}) && f.preview.kind == Reclaim
    ensures TargetIds(f.preview) == Some([7]) && final == JudgeAll(OneAssignment(), x, [7])
    ensures FinalDecision(x, final).allowed && ExecutableIds(final.executable) == [7]
  {
    OnePreviewValid(access);
    OneGate(f, access, 0, 0);
    x := Txn(0, APPROVER, "", 0, f, Begun, {});
    final := JudgeAll(OneAssignment(), x, [7]);
    OneVerdict(x);
    OneDecision(x, final, access);
  }

  lemma ApprovalOf(s: State, a: nat, user: User, reason: string, x: Txn, ids: seq<nat>, final: Result)
    returns (steps: seq<Step>, r: State)
    requires Inv(s) && s.txns == map[] && a in s.files && Gate(s.files[a], user, 0, 0).code == Done
    requires x == Txn(a, user, reason, 0, s.files[a], Begun, {}) && TargetIds(x.file.preview) == Some(ids)
    requires final == JudgeAll(s.world, x, ids) && FinalDecision(x, final).allowed
             && ExecutableIds(final.executable) == ids
    ensures Leads(s, steps, r) && r.world == Changed(s.world, x.file.preview.kind, Sorting.Elements(ids))
    ensures a in r.files && r.files[a].status == Completed
  {
    steps, r := QuietApprovalCompletes(s, 0, a, user, reason, 0, 0, [], x, final);
  }

  lemma OneRowTurns()
    ensures References(OneAssignment()) && Live(OneAssignment(), Reclaim, 7)
    ensures !Live(Changed(OneAssignment(), Reclaim, {7}), Reclaim, 7)
  {
  }

  /** A submission from the empty state, followed by an undisturbed approval. */
  lemma WholeRun(w: World, submitting: seq<Step>, s: State, a: nat, user: User, reason: string, x: Txn, ids: seq<nat>,
                 final: Result)
    returns (steps: seq<Step>)
    requires References(w) && Leads(Empty(w), submitting, s) && s.txns == map[] && s.world == w && a in s.files
    requires Gate(s.files[a], user, 0, 0).code == Done && x == Txn(a, user, reason, 0, s.files[a], Begun, {})
    requires TargetIds(x.file.preview) == Some(ids) && ExecutableIds(final.executable) == ids
    requires final == JudgeAll(w, x, ids) && FinalDecision(x, final).allowed
    ensures Reachable(w, steps)
    ensures After(Empty(w), steps).world == Changed(w, x.file.preview.kind, Sorting.Elements(ids))
    ensures a in After(Empty(w), steps).files && After(Empty(w), steps).files[a].status == Completed
  {
    EmptyInv(w);
    LeadsKeeps(Empty(w), submitting, s);
    var approving, r := ApprovalOf(s, a, user, reason, x, ids, final);
    LeadsOn(Empty(w), submitting, s, approving, r);
    steps := submitting + approving;
  }

  /** A submitted request that an approver may decide and all of whose targets are eligible. */
  lemma OneSetup(access: Access)
    returns (w: World, submitting: seq<Step>, s: State, user: User, x: Txn, final: Result)
    ensures References(w) && Live(w, Reclaim, 7)
    ensures !Live(Changed(w, x.file.preview.kind, Sorting.Elements([7])), Reclaim, 7)
    ensures Leads(Empty(w), submitting, s) && s.txns == map[] && s.world == w && 0 in s.files
    ensures Gate(s.files[0], user, 0, 0).code == Done && x == Txn(0, user, "", 0, s.files[0], Begun, {})
    ensures TargetIds(x.file.preview) == Some([7])
    ensures final == JudgeAll(w, x, [7]) && FinalDecision(x, final).allowed && ExecutableIds(final.executable) == [7]
  {
    w := OneAssignment();
    OneRowTurns();
    submitting, s := OneSubmission(access, 0);
    user := APPROVER;
    x, final := OneReady(s.files[0], access);
    assert Sorting.Elements([7]) == {7};
  }

  /** There is a run, from no actions at all, that executes a record. */
  lemma SomeRunExecutes(access: Access) returns (w: World, steps: seq<Step>)
    ensures Reachable(w, steps) && Live(w, Reclaim, 7)
    ensures !Live(After(Empty(w), steps).world, Reclaim, 7)
    ensures 0 in After(Empty(w), steps).files && After(Empty(w), steps).files[0].status == Completed
  {
    var submitting, s, user, x, final;
    w, submitting, s, user, x, final := OneSetup(access);
    steps := WholeRun(w, submitting, s, 0, user, "", x, [7], final);
  }
}
