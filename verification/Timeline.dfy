/** The order in which an action's audit rows are shown, and when it is the order in which they were written. */
module Timeline {
  import opened Lifecycle
  import Sorting

  /** The position of each kind of event in the fixed timeline order. */
  function Position(kind: EventKind): nat {
    match kind
    case PreviewCreated => 0
    case ActionRequested => 1
    case ApprovalEscalated => 2
    case ActionApproved => 3
    case ActionExecuted => 4
    case ActionRejected => 5
    case ActionCancelled => 6
    case ActionExpired => 7
    case ActionFailed => 8
  }

  /** An audit row with its random key. */
  datatype Logged = Logged(event: Event, id: nat)

  predicate Before(a: Logged, b: Logged) {
    if a.event.at != b.event.at then a.event.at < b.event.at
    else if Position(a.event.kind) != Position(b.event.kind) then Position(a.event.kind) < Position(b.event.kind)
    else a.id <= b.id
  }

  function Shown(rows: seq<Logged>): seq<Logged> {
    Sorting.Sort((a: Logged, b: Logged) => Before(a, b), rows)
  }

  function Events(rows: seq<Logged>): (events: seq<Event>)
    ensures |events| == |rows| && forall i | 0 <= i < |rows| :: events[i] == rows[i].event
  {
    seq(|rows|, i requires 0 <= i < |rows| => rows[i].event)
  }

  predicate NeverBack(rows: seq<Logged>) {
    forall i, j | 0 <= i < j < |rows| :: rows[i].event.at <= rows[j].event.at
  }

  predicate Climbing(kinds: seq<EventKind>) {
    forall i, j | 0 <= i < j < |kinds| :: Position(kinds[i]) < Position(kinds[j])
  }

  lemma ClimbOn(front: seq<EventKind>, end: seq<EventKind>)
    requires Climbing(front) && Climbing(end)
    requires forall k | k in front :: Position(k) < 3
    requires forall k | k in end :: Position(k) >= 3
    ensures Climbing(front + end)
  {
  }

  lemma OpeningClimbs(requested: bool, escalated: bool)
    ensures Climbing(Opening(requested, escalated)) && forall k | k in Opening(requested, escalated) :: Position(k) < 3
  {
  }

  lemma EndingClimbs(status: ActionStatus)
    ensures Climbing(Ending(status)) && forall k | k in Ending(status) :: Position(k) >= 3
  {
  }

  /** Every trail climbs through the timeline order. */
  lemma StoryClimbs(status: ActionStatus, requested: bool, escalated: bool)
    ensures Climbing(Story(status, requested, escalated))
  {
    OpeningClimbs(requested, escalated);
    EndingClimbs(status);
    ClimbOn(Opening(requested, escalated), Ending(status));
  }

  lemma RowsBefore(rows: seq<Logged>, i: nat, j: nat)
    requires Climbing(Kinds(Events(rows))) && i < j < |rows|
    ensures Before(rows[i], rows[j]) <==> rows[i].event.at <= rows[j].event.at
    ensures !(Before(rows[i], rows[j]) && Before(rows[j], rows[i]))
  {
    assert Position(Kinds(Events(rows))[i]) < Position(Kinds(Events(rows))[j]);
  }

  lemma RowsTotal(rows: seq<Logged>)
    requires Climbing(Kinds(Events(rows)))
    ensures Sorting.TotalOn((a: Logged, b: Logged) => Before(a, b), rows)
  {
    forall i, j | 0 <= i < j < |rows|
      ensures !(Before(rows[i], rows[j]) && Before(rows[j], rows[i]))
    {
      RowsBefore(rows, i, j);
    }
  }

  lemma RowsOrdered(rows: seq<Logged>)
    requires Climbing(Kinds(Events(rows)))
    ensures Sorting.SortedBy((a: Logged, b: Logged) => Before(a, b), rows) <==> NeverBack(rows)
  {
    forall i, j | 0 <= i < j < |rows|
      ensures Before(rows[i], rows[j]) <==> rows[i].event.at <= rows[j].event.at
    {
      RowsBefore(rows, i, j);
    }
  }

  /** In whatever order the table is read, the timeline is shown as it was written exactly when no later row
      carries an earlier time. Rows of one transaction share their time; the fixed order tells them apart. */
  lemma ShownAsWritten(f: CaseFile, written: seq<Logged>, read: seq<Logged>)
    requires Shape(f) && Events(written) == f.trail && multiset(read) == multiset(written)
    ensures Shown(read) == written <==> NeverBack(written)
  {
    var le := (a: Logged, b: Logged) => Before(a, b);
    StoryClimbs(f.status, f.approval.Some?, f.preview.policy.escalation.Some?);
    RowsTotal(written);
    RowsOrdered(written);
    Sorting.SortForgetsOrder(le, written, read);
    Sorting.SortSorted(le, written);
    if NeverBack(written) {
      Sorting.SameElements(written, Sorting.Sort(le, written));
      Sorting.SortedUnique(le, written, Sorting.Sort(le, written));
    }
  }
}
