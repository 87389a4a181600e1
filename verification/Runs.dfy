/** What holds after every possible run. */
module Runs {
  import opened Snapshot
  import opened Notices
  import opened Lifecycle
  import opened Revalidation
  import opened Locking
  import opened History
  import opened Protocol
  import opened Safety
  import opened Steps
  import opened Accounting
  import Traces
  import Sorting

  // ----- any step

  lemma CallStepKeeps(s: State, step: Step)
    requires Inv(s) && CanStep(s, step) && IsFileCall(step)
    ensures Inv(Apply(s, step))
  {
    CallKeeps(s, step);
  }

  lemma PassStepKeeps(s: State, step: Step)
    requires Inv(s) && CanStep(s, step) && (step.FirstPass? || step.LockMore? || step.FinalPass?)
    ensures Inv(Apply(s, step))
  {
    match step {
      case FirstPass(t, seen) => PassesKeep(s, t, seen);
      case LockMore(t) => PassesKeep(s, t, s.world);
      case FinalPass(t, seen) => FinalPassKeeps(s, t, seen);
    }
  }

  lemma DecisionStepKeeps(s: State, step: Step)
    requires Inv(s) && CanStep(s, step) && (step.Commit? || step.Escalate?)
    ensures Inv(Apply(s, step))
  {
    match step {
      case Commit(t, stamp, users, acknowledged) => CommitKeeps(s, t, stamp, users, acknowledged);
      case Escalate(t, stamp, users) => EscalateKeeps(s, t, stamp, users);
    }
  }

  lemma DroppingStepKeeps(s: State, step: Step)
    requires Inv(s) && CanStep(s, step) && (step.Abort? || step.Fail? || step.ForgetFailure?)
    ensures Inv(Apply(s, step))
  {
    match step {
      case Abort(t) => DropKeeps(s, t);
      case Fail(t) => RollBackKeeps(s, t);
      case ForgetFailure(t) => DropKeeps(s, t);
    }
  }

  lemma OtherStepKeeps(s: State, step: Step)
    requires Inv(s) && CanStep(s, step) && (step.Create? || step.RecordFailure? || step.Environment?)
    ensures Inv(Apply(s, step))
  {
    match step {
      case Create(a, p, user, now, stamp) => CreateKeeps(s, a, p, user, now, stamp);
      case RecordFailure(t, category, stamp, users) => RecordKeeps(s, t, category, stamp, users);
      case Environment(next) => OutsideKeeps(s, next);
    }
  }

  lemma StepKeepsInv(s: State, step: Step)
    requires Inv(s) && CanStep(s, step)
    ensures Inv(Apply(s, step))
  {
    if IsFileCall(step) {
      CallStepKeeps(s, step);
    } else if step.FirstPass? || step.LockMore? || step.FinalPass? {
      PassStepKeeps(s, step);
    } else if step.Commit? || step.Escalate? {
      DecisionStepKeeps(s, step);
    } else if step.Abort? || step.Fail? || step.ForgetFailure? {
      DroppingStepKeeps(s, step);
    } else {
      OtherStepKeeps(s, step);
    }
  }

  lemma CommitStepMoves(s: State, step: Step, a: nat)
    requires Inv(s) && CanStep(s, step) && a in s.files && step.Commit?
    ensures a in Apply(s, step).files && Moves(s.files[a], Apply(s, step).files[a])
  {
    CommitMoves(s, step.txn, step.stamp, step.users, step.acknowledged, a);
  }

  lemma EscalateStepMoves(s: State, step: Step, a: nat)
    requires Inv(s) && CanStep(s, step) && a in s.files && step.Escalate?
    ensures a in Apply(s, step).files && Moves(s.files[a], Apply(s, step).files[a])
  {
    EscalateMoves(s, step.txn, step.stamp, step.users, a);
  }

  lemma CallStepMoves(s: State, step: Step, a: nat)
    requires FilesOk(s.files) && CanStep(s, step) && a in s.files && IsFileCall(step)
    ensures a in Apply(s, step).files && Moves(s.files[a], Apply(s, step).files[a])
  {
    CallMoves(s, step, a);
  }

  lemma RecordStepMoves(s: State, step: Step, a: nat)
    requires FilesOk(s.files) && CanStep(s, step) && a in s.files && step.RecordFailure?
    ensures a in Apply(s, step).files && Moves(s.files[a], Apply(s, step).files[a])
  {
    RecordMoves(s, step.txn, step.category, step.stamp, step.users, a);
  }

  lemma OtherStepMoves(s: State, step: Step, a: nat)
    requires Inv(s) && CanStep(s, step) && a in s.files
    requires !IsFileCall(step) && !step.Commit? && !step.Escalate? && !step.RecordFailure?
    ensures a in Apply(s, step).files && Moves(s.files[a], Apply(s, step).files[a])
  {
    OthersKeepFiles(s, step, a);
    NeverExecuting(s, a);
    UnmovedMoves(s.files[a]);
  }

  lemma StepMoves(s: State, step: Step, a: nat)
    requires Inv(s) && CanStep(s, step) && a in s.files
    ensures a in Apply(s, step).files && Moves(s.files[a], Apply(s, step).files[a])
  {
    if IsFileCall(step) {
      CallStepMoves(s, step, a);
    } else if step.RecordFailure? {
      RecordStepMoves(s, step, a);
    } else if step.Commit? {
      CommitStepMoves(s, step, a);
    } else if step.Escalate? {
      EscalateStepMoves(s, step, a);
    } else {
      OtherStepMoves(s, step, a);
    }
  }

  lemma OthersKeepFiles(s: State, step: Step, a: nat)
    requires CanStep(s, step) && a in s.files
    requires !IsFileCall(step) && !step.Commit? && !step.Escalate? && !step.RecordFailure?
    ensures a in Apply(s, step).files && Apply(s, step).files[a] == s.files[a]
  {
  }

  /** Every step but a commit leaves the tables and the log alone, unless it is the outside that acts. */
  lemma OthersExecuteNothing(s: State, step: Step)
    requires CanStep(s, step) && !step.Commit? && !step.Environment?
    ensures Apply(s, step).world == s.world && Apply(s, step).history == s.history
  {
  }

  // ----- runs

  ghost function Can(): (State, Step) -> bool {
    (s: State, step: Step) => CanStep(s, step)
  }

  ghost function Next(): (State, Step) -> State {
    (s: State, step: Step) => if CanStep(s, step) then Apply(s, step) else s
  }

  ghost predicate Possible(s: State, steps: seq<Step>) {
    Traces.Possible(Can(), Next(), s, steps)
  }

  ghost function After(s: State, steps: seq<Step>): State
    requires Possible(s, steps)
  {
    Traces.After(Next(), s, steps)
  }

  /** A run is a first step and a run from there. */
  lemma FirstStep(s: State, steps: seq<Step>) returns (next: State)
    requires Possible(s, steps) && steps != []
    ensures CanStep(s, steps[0]) && next == Apply(s, steps[0])
    ensures Possible(next, steps[1..]) && After(s, steps) == After(next, steps[1..])
  {
    assert Can()(s, steps[0]);
    next := Next()(s, steps[0]);
  }

  function Empty(w: World): State {
    State(map[], w, map[], [])
  }

  lemma RunKeepsInv(s: State, steps: seq<Step>)
    requires Inv(s) && Possible(s, steps)
    ensures Inv(After(s, steps))
  {
    var inv := (r: State) => Inv(r);
    forall r, step | inv(r) && Can()(r, step) ensures inv(Next()(r, step)) {
      StepKeepsInv(r, step);
    }
    Traces.Keeps(Can(), Next(), inv, s, steps);
  }

  lemma EmptyInv(w: World)
    requires References(w)
    ensures Inv(Empty(w))
  {
  }

  // ----- files along a run

  ghost function Changes(s: State, steps: seq<Step>, a: nat): nat
    decreases |steps|
  {
    if steps == [] || a !in s.files || a !in Next()(s, steps[0]).files then 0
    else (if Next()(s, steps[0]).files[a] == s.files[a] then 0 else 1) + Changes(Next()(s, steps[0]), steps[1..], a)
  }

  /** The first step of a run, as far as one file is concerned. */
  lemma FirstMove(s: State, steps: seq<Step>, a: nat) returns (next: State)
    requires Inv(s) && Possible(s, steps) && steps != [] && a in s.files
    ensures next == Next()(s, steps[0]) && Inv(next) && a in next.files && Moves(s.files[a], next.files[a])
    ensures Possible(next, steps[1..]) && After(s, steps) == After(next, steps[1..])
  {
    next := FirstStep(s, steps);
    StepKeepsInv(s, steps[0]);
    StepMoves(s, steps[0], a);
  }

  /** However the sessions interleave, an action changes at most three times after its preview, and never once it
   *  has ended. */
  lemma {:induction false} FilesOnlyAdvance(s: State, steps: seq<Step>, a: nat)
    requires Inv(s) && Possible(s, steps) && a in s.files
    ensures a in After(s, steps).files
    ensures Changes(s, steps, a) + Rank(After(s, steps).files[a]) <= Rank(s.files[a]) <= 3
    ensures Terminal(s.files[a]) ==> After(s, steps).files[a] == s.files[a]
    decreases |steps|
  {
    if steps != [] {
      var next := FirstMove(s, steps, a);
      FilesOnlyAdvance(next, steps[1..], a);
      MovesDown(s.files[a], next.files[a]);
    }
  }

  lemma MovesDown(f: CaseFile, g: CaseFile)
    requires Moves(f, g)
    ensures Rank(g) + (if g == f then 0 else 1) <= Rank(f) <= 3
    ensures Terminal(f) ==> g == f
  {
  }

  lemma RequestPersists(f: CaseFile, g: CaseFile, h: CaseFile)
    requires Moves(f, g) && SameRequest(g, h) && g.status != Executing && (Terminal(g) ==> h == g)
    ensures SameRequest(f, h)
  {
  }

  lemma NeverExecuting(s: State, a: nat)
    requires FilesOk(s.files) && a in s.files
    ensures s.files[a].status != Executing && Shape(s.files[a])
  {
    assert FileInv(s.files[a]);
  }

  /** As long as a request stays pending, in whatever run, its deadlines are those it was submitted with. */
  lemma {:induction false} DeadlinesStay(s: State, steps: seq<Step>, a: nat)
    requires Inv(s) && Possible(s, steps) && a in s.files
    ensures a in After(s, steps).files && SameRequest(s.files[a], After(s, steps).files[a])
    decreases |steps|
  {
    NeverExecuting(s, a);
    if steps == [] {
      UnmovedMoves(s.files[a]);
    } else {
      var next := FirstMove(s, steps, a);
      DeadlinesStay(next, steps[1..], a);
      FilesOnlyAdvance(next, steps[1..], a);
      NeverExecuting(next, a);
      RequestPersists(s.files[a], next.files[a], After(next, steps[1..]).files[a]);
    }
  }

  // ----- what a reader may rely on after any run that starts with no actions

  ghost predicate Reachable(w: World, steps: seq<Step>) {
    References(w) && Possible(Empty(w), steps)
  }

  lemma ReachableInv(w: World, steps: seq<Step>)
    requires Reachable(w, steps)
    ensures Inv(After(Empty(w), steps))
  {
    EmptyInv(w);
    RunKeepsInv(Empty(w), steps);
  }

  /** Every committed file: an allowed pair of states, a valid preview, the one trail that fits, no repeated notice. */
  lemma CommittedFiles(w: World, steps: seq<Step>, a: nat)
    requires Reachable(w, steps) && a in After(Empty(w), steps).files
    ensures var f := After(Empty(w), steps).files[a];
            && PairAllowed(f.status, f.approval) && f.status != Executing
            && Valid(f.preview)
            && Kinds(f.trail) == Story(f.status, f.approval.Some?, f.preview.policy.escalation.Some?)
            && multiset(Kinds(f.trail))[ApprovalEscalated] <= 1
            && Sorting.Distinct(Keys(f.notices)) && DecisionFits(f)
  {
    ReachableInv(w, steps);
    FileFacts(After(Empty(w), steps).files[a]);
  }

  lemma FileFacts(f: CaseFile)
    requires FileInv(f)
    ensures PairAllowed(f.status, f.approval) && f.status != Executing && Valid(f.preview)
    ensures Kinds(f.trail) == Story(f.status, f.approval.Some?, f.preview.policy.escalation.Some?)
    ensures multiset(Kinds(f.trail))[ApprovalEscalated] <= 1
    ensures Sorting.Distinct(Keys(f.notices)) && DecisionFits(f)
  {
    OneEscalation(f.status, f.approval.Some?, f.preview.policy.escalation.Some?);
  }

  lemma NoEscalationInEnding(status: ActionStatus)
    ensures ApprovalEscalated !in Ending(status)
  {
  }

  lemma OpeningEscalations(requested: bool, escalated: bool)
    ensures multiset(Opening(requested, escalated))[ApprovalEscalated] <= 1
  {
    var front := [PreviewCreated] + (if requested then [ActionRequested] else []);
    assert ApprovalEscalated !in front;
    assert multiset(Opening(requested, escalated)) == multiset(front)
        + multiset(if escalated then [ApprovalEscalated] else []);
  }

  lemma OneEscalation(status: ActionStatus, requested: bool, escalated: bool)
    ensures multiset(Story(status, requested, escalated))[ApprovalEscalated] <= 1
  {
    NoEscalationInEnding(status);
    OpeningEscalations(requested, escalated);
    assert multiset(Story(status, requested, escalated)) == multiset(Opening(requested, escalated))
        + multiset(Ending(status));
  }

  /** An overdue pending pair under its lock always expires. */
  lemma OverdueAlwaysExpires(w: World, steps: seq<Step>, a: nat, user: nat, now: int, stamp: int)
    requires Reachable(w, steps) && a in After(Empty(w), steps).files
    requires Open(After(Empty(w), steps).files[a]) && EitherPassed(After(Empty(w), steps).files[a], now)
    ensures ExpirePair(After(Empty(w), steps).files[a], user, now, stamp).Some?
  {
    ReachableInv(w, steps);
    ExpirePairExactly(After(Empty(w), steps).files[a], user, now, stamp);
  }

  lemma NewFilesAreDrafts(s: State, step: Step, a: nat)
    requires CanStep(s, step) && a in Apply(s, step).files && a !in s.files
    requires step.Commit? || step.Escalate? ==> s.txns[step.txn].action in s.files
    ensures Apply(s, step).files[a].status == Draft
  {
  }

  lemma StepAccounts(s: State, step: Step)
    requires Inv(s) && AllAccounted(s.files) && CanStep(s, step)
    ensures AllAccounted(Apply(s, step).files)
  {
    if step.Commit? || step.Escalate? {
      HeldFileValid(s, step.txn);
    }
    forall a | a in Apply(s, step).files ensures AccountedFor(Apply(s, step).files[a]) {
      if a in s.files {
        StepMoves(s, step, a);
      } else {
        NewFilesAreDrafts(s, step, a);
      }
    }
  }

  lemma RunAccounts(s: State, steps: seq<Step>)
    requires Inv(s) && AllAccounted(s.files) && Possible(s, steps)
    ensures AllAccounted(After(s, steps).files)
  {
    var inv := (r: State) => Inv(r) && AllAccounted(r.files);
    forall r, step | inv(r) && Can()(r, step) ensures inv(Next()(r, step)) {
      StepKeepsInv(r, step);
      StepAccounts(r, step);
    }
    Traces.Keeps(Can(), Next(), inv, s, steps);
  }

  lemma CompletedExactly(files: map<nat, CaseFile>, a: nat)
    requires FilesOk(files) && AllAccounted(files)
    ensures Sorting.Distinct(Executed(files, a))
    ensures Executed(files, a) != [] ==> a in files && files[a].status == Completed
    ensures a in files && files[a].status == Completed ==>
              exists n: nat :: Settles(files[a], n) && OnlyTargets(files[a], n)
  {
    if a in files && files[a].status == Completed {
      var n: nat :| Settles(files[a], n);
      SettledOnce(files[a], n);
    }
  }

  /** All or nothing: an action that completed is logged for exactly the records its trail names, once each, any other
      action for none. They are targets of its stored preview, and every other target has its stored skip. */
  lemma AllOrNothing(w: World, steps: seq<Step>, a: nat)
    requires Reachable(w, steps)
    ensures var r := After(Empty(w), steps);
            var logged := RanBy(r.history, a);
            && logged == Executed(r.files, a) && Sorting.Distinct(logged)
            && (logged != [] ==> a in r.files && r.files[a].status == Completed)
            && (a in r.files && r.files[a].status == Completed ==>
                  exists n: nat :: Settles(r.files[a], n) && OnlyTargets(r.files[a], n))
  {
    ReachableInv(w, steps);
    EmptyInv(w);
    RunAccounts(Empty(w), steps);
    CompletedExactly(After(Empty(w), steps).files, a);
  }

  /** No row is executed twice, by whatever actions, unless an outside change revived it in between. */
  lemma NeverTwice(w: World, steps: seq<Step>, i: nat, j: nat) returns (m: nat)
    requires Reachable(w, steps) && i < j < |After(Empty(w), steps).history|
    requires After(Empty(w), steps).history[i].Ran? && After(Empty(w), steps).history[j].Ran?
    requires TargetOf(After(Empty(w), steps).history[i].row) == TargetOf(After(Empty(w), steps).history[j].row)
    ensures i < m < j && After(Empty(w), steps).history[m].Moved?
            && TargetOf(After(Empty(w), steps).history[i].row) in After(Empty(w), steps).history[m].revived
  {
    ReachableInv(w, steps);
    m := AtMostOnce(After(Empty(w), steps).history, i, j);
  }

  /** No commit of any reachable state executes a record that is not, at that moment, locked in by both passes,
      eligible, and part of exactly the set the policy allows. */
  lemma CommitsAreSound(w: World, steps: seq<Step>, t: nat)
    requires Reachable(w, steps)
    ensures var s := After(Empty(w), steps); CanCommit(s, t) ==> SoundSet(s, s.txns[t])
  {
    ReachableInv(w, steps);
    if CanCommit(After(Empty(w), steps), t) {
      ExecutedSetIsSound(After(Empty(w), steps), t);
    }
  }

  /** A row stops being executable only by an outside change or by the commit that executes it. */
  lemma OnlyCommitsExecute(s: State, step: Step, target: Target)
    requires Core(s) && CanStep(s, step) && !step.Environment?
    ensures LiveTarget(s.world, target) && !LiveTarget(Apply(s, step).world, target) <==>
            && step.Commit? && target.0 == s.txns[step.txn].file.preview.kind
            && target.1 in ExecutableIds(s.txns[step.txn].phase.final.executable)
  {
    if step.Commit? {
      CommitTurns(s, step.txn, step.stamp, step.users, step.acknowledged, target);
    } else {
      OthersExecuteNothing(s, step);
    }
  }

  /** In any reachable state a step of the system takes a row out of the executable state iff it is the commit
      that executes it. */
  lemma RowsTurnOnlyInCommits(w: World, steps: seq<Step>, step: Step, target: Target)
    requires Reachable(w, steps)
    ensures var s := After(Empty(w), steps);
            CanStep(s, step) && !step.Environment? ==>
              (LiveTarget(s.world, target) && !LiveTarget(Apply(s, step).world, target) <==>
                 && step.Commit? && target.0 == s.txns[step.txn].file.preview.kind
                 && target.1 in ExecutableIds(s.txns[step.txn].phase.final.executable))
  {
    ReachableInv(w, steps);
    var s := After(Empty(w), steps);
    if CanStep(s, step) && !step.Environment? {
      OnlyCommitsExecute(s, step, target);
    }
  }

  /** Once an action of a reachable state has ended, no continuation of the run changes any of its rows. */
  lemma EndedStaysEnded(w: World, steps: seq<Step>, more: seq<Step>, a: nat)
    requires Reachable(w, steps)
    ensures var s := After(Empty(w), steps);
            Possible(s, more) && a in s.files ==>
              && a in After(s, more).files
              && Rank(After(s, more).files[a]) <= Rank(s.files[a])
              && (Terminal(s.files[a]) ==> After(s, more).files[a] == s.files[a])
  {
    ReachableInv(w, steps);
    var s := After(Empty(w), steps);
    if Possible(s, more) && a in s.files {
      FilesOnlyAdvance(s, more, a);
    }
  }
}
