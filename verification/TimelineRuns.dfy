/** The timeline of reachable actions, and a run in which it is not the order of writing. */
module TimelineRuns {
  import opened Revalidation
  import opened Snapshot
  import opened Lifecycle
  import opened Protocol
  import opened Runs
  import opened Progress
  import opened Timeline

  /** In every reachable state, in whatever order an action's rows are read, they are shown as they were written
      exactly when no later row carries an earlier time. */
  lemma ShownAsWrittenInRuns(w: World, steps: seq<Step>, a: nat, written: seq<Logged>, read: seq<Logged>)
    requires Reachable(w, steps) && a in After(Empty(w), steps).files
    requires Events(written) == After(Empty(w), steps).files[a].trail && multiset(read) == multiset(written)
    ensures Shown(read) == written <==> NeverBack(written)
  {
    ReachableInv(w, steps);
    NeverExecuting(After(Empty(w), steps), a);
    ShownAsWritten(After(Empty(w), steps).files[a], written, read);
  }

  lemma CancelledEarlier(s: State, f: CaseFile, stamp: int)
    requires s.txns == map[] && 0 in s.files && s.files[0] == f && f.approval.Some?
    requires Cancel(f, REQUESTER, "", 0, stamp).code == Done
    ensures var cancel := CancelCall(0, REQUESTER, "", 0, stamp);
            Leads(s, [cancel], PutFile(s, 0, Withdrawn(f, REQUESTER.id, "", 0, stamp)))
  {
    var cancel := CancelCall(0, REQUESTER, "", 0, stamp);
    assert CanStep(s, cancel);
    OneStep(s, cancel);
  }

  function Numbered(trail: seq<Event>): (rows: seq<Logged>)
    ensures Events(rows) == trail
  {
    seq(|trail|, i requires 0 <= i < |trail| => Logged(trail[i], i))
  }

  lemma WithdrawnGoesBack(f: CaseFile, user: nat, stamp: int)
    requires f.approval.Some? && f.trail != [] && f.trail[|f.trail| - 1].at > stamp
    ensures !NeverBack(Numbered(Withdrawn(f, user, "", 0, stamp).trail))
  {
    var trail := Withdrawn(f, user, "", 0, stamp).trail;
    assert Numbered(trail)[|f.trail| - 1].event == f.trail[|f.trail| - 1];
    assert Numbered(trail)[|f.trail|].event.at == stamp;
  }

  /** A cancellation whose transaction starts at time 1, before the submission of time 2, and waits for the action's
      row, which the submission holds: the cancellation is written after the request and shown before it. */
  lemma CancellationShownFirst(access: Access) returns (w: World, steps: seq<Step>, written: seq<Logged>)
    ensures Reachable(w, steps) && 0 in After(Empty(w), steps).files
    ensures Events(written) == After(Empty(w), steps).files[0].trail && Shown(written) != written
    ensures Kinds(Events(written)) == [PreviewCreated, ActionRequested, ActionCancelled]
  {
    w := OneAssignment();
    OneRowTurns();
    var submitting, s := OneSubmission(access, 2);
    var f := s.files[0];
    OneCancels(f, access);
    CancelledEarlier(s, f, 1);
    var r := PutFile(s, 0, Withdrawn(f, REQUESTER.id, "", 0, 1));
    var cancel := CancelCall(0, REQUESTER, "", 0, 1);
    LeadsOn(Empty(w), submitting, s, [cancel], r);
    steps := submitting + [cancel];
    WithdrawnGoesBack(f, REQUESTER.id, 1);
    written := Numbered(r.files[0].trail);
    ShownAsWrittenInRuns(w, steps, 0, written, written);
  }

  lemma OneCancels(f: CaseFile, access: Access)
    requires f == Submitted(Opened(OnePreview(access), 5, 0, 0), 5, 0, 2, [])
    ensures Cancel(f, REQUESTER, "", 0, 1).code == Done
    ensures f.approval.Some? && f.trail != [] && f.trail[|f.trail| - 1].at == 2
    ensures Kinds(Withdrawn(f, REQUESTER.id, "", 0, 1).trail) == [PreviewCreated, ActionRequested, ActionCancelled]
  {
    OnePreviewValid(access);
  }
}
