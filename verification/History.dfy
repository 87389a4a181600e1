/** The log of executed rows and outside changes, and why no row is executed twice without a revival in between. */
module History {
  import opened Revalidation
  import opened Locking
  import opened Execution

  type Target = (Kind, nat)

  datatype Entry = Ran(row: AuditRow) | Moved(revived: set<Target>)

  function TargetOf(row: AuditRow): Target {
    (row.kind, row.target)
  }

  predicate LiveTarget(w: World, t: Target) {
    Live(w, t.0, t.1)
  }

  /** The rows an outside change made executable again. */
  function Revived(w: World, v: World): set<Target> {
    (set id | id in v.assignments && !Live(w, Reclaim, id) && Live(v, Reclaim, id) :: (Reclaim, id))
    + (set id | id in v.users && !Live(w, Disable, id) && Live(v, Disable, id) :: (Disable, id))
  }

  /** The last thing the log says of `t` is that it was executed. */
  predicate LastRan(h: seq<Entry>, t: Target) {
    if h == [] then false
    else
      match h[|h| - 1]
      case Ran(row) => TargetOf(row) == t || LastRan(h[..|h| - 1], t)
      case Moved(revived) => t !in revived && LastRan(h[..|h| - 1], t)
  }

  function RanRows(rows: seq<AuditRow>): (entries: seq<Entry>)
    ensures |entries| == |rows| && forall i | 0 <= i < |rows| :: entries[i] == Ran(rows[i])
  {
    seq(|rows|, i requires 0 <= i < |rows| => Ran(rows[i]))
  }

  /** No execution finds its row executed already. */
  predicate Alternates(h: seq<Entry>) {
    forall j | 0 <= j < |h| :: h[j].Ran? ==> !LastRan(h[..j], TargetOf(h[j].row))
  }

  ghost predicate Dormant(h: seq<Entry>, w: World) {
    forall t: Target :: LastRan(h, t) ==> !LiveTarget(w, t)
  }

  predicate Named(rows: seq<AuditRow>, t: Target) {
    exists i | 0 <= i < |rows| :: TargetOf(rows[i]) == t
  }

  lemma {:induction false} LastRanAfterRows(h: seq<Entry>, rows: seq<AuditRow>, t: Target)
    ensures LastRan(h + RanRows(rows), t) <==> LastRan(h, t) || Named(rows, t)
  {
    if rows == [] {
      assert h + RanRows(rows) == h;
    } else {
      var front, last := rows[..|rows| - 1], rows[|rows| - 1];
      LastRanAfterRows(h, front, t);
      var all := h + RanRows(rows);
      assert all[..|all| - 1] == h + RanRows(front);
      if Named(rows, t) {
        var i :| 0 <= i < |rows| && TargetOf(rows[i]) == t;
        assert i < |front| ==> front[i] == rows[i];
      }
      if Named(front, t) {
        var i :| 0 <= i < |front| && TargetOf(front[i]) == t;
        assert rows[i] == front[i];
      }
      assert TargetOf(last) == t ==> TargetOf(rows[|rows| - 1]) == t;
    }
  }

  predicate NoRepeats(rows: seq<AuditRow>) {
    forall i, j | 0 <= i < j < |rows| :: TargetOf(rows[i]) != TargetOf(rows[j])
  }

  /** Executing distinct rows that were not yet executed keeps the log alternating. */
  lemma RowsAlternate(h: seq<Entry>, rows: seq<AuditRow>)
    requires Alternates(h) && NoRepeats(rows)
    requires forall row | row in rows :: !LastRan(h, TargetOf(row))
    ensures Alternates(h + RanRows(rows))
  {
    var all := h + RanRows(rows);
    forall j | 0 <= j < |all| && all[j].Ran? ensures !LastRan(all[..j], TargetOf(all[j].row)) {
      if j < |h| {
        assert all[..j] == h[..j];
      } else {
        var i := j - |h|;
        assert all[..j] == h + RanRows(rows[..i]);
        LastRanAfterRows(h, rows[..i], TargetOf(rows[i]));
        assert rows[i] in rows;
      }
    }
  }

  lemma MoveAlternates(h: seq<Entry>, revived: set<Target>)
    requires Alternates(h)
    ensures Alternates(h + [Moved(revived)])
  {
    var all := h + [Moved(revived)];
    forall j | 0 <= j < |all| && all[j].Ran? ensures !LastRan(all[..j], TargetOf(all[j].row)) {
      assert all[..j] == h[..j];
    }
  }

  lemma MoveKeepsDormant(h: seq<Entry>, w: World, v: World)
    requires Dormant(h, w)
    ensures Dormant(h + [Moved(Revived(w, v))], v)
  {
    var all := h + [Moved(Revived(w, v))];
    assert all[..|all| - 1] == h;
    forall t: Target | LastRan(all, t) ensures !LiveTarget(v, t) {
      assert LastRan(h, t) && t !in Revived(w, v);
      if t.0 == Reclaim {
        assert t == (Reclaim, t.1);
      } else {
        assert t == (Disable, t.1);
      }
    }
  }

  lemma RowsKeepDormant(h: seq<Entry>, w: World, kind: Kind, rows: seq<AuditRow>, ids: set<nat>)
    requires Dormant(h, w)
    requires forall row | row in rows :: row.kind == kind && row.target in ids
    ensures Dormant(h + RanRows(rows), Changed(w, kind, ids))
  {
    forall t: Target | LastRan(h + RanRows(rows), t) ensures !LiveTarget(Changed(w, kind, ids), t) {
      LastRanAfterRows(h, rows, t);
      UpdateTurnsExactly(w, kind, ids, t.0, t.1);
      if Named(rows, t) {
        var i :| 0 <= i < |rows| && TargetOf(rows[i]) == t;
        assert rows[i] in rows;
      }
    }
  }

  lemma {:induction false} StaysRan(h: seq<Entry>, i: nat, t: Target)
    requires i < |h| && h[i].Ran? && TargetOf(h[i].row) == t
    requires forall m | i < m < |h| && h[m].Moved? :: t !in h[m].revived
    ensures LastRan(h, t)
  {
    if i < |h| - 1 {
      StaysRan(h[..|h| - 1], i, t);
    }
  }

  /** Between two executions of one row there is an outside change that revived it. */
  lemma AtMostOnce(h: seq<Entry>, i: nat, j: nat) returns (m: nat)
    requires Alternates(h) && i < j < |h| && h[i].Ran? && h[j].Ran?
    requires TargetOf(h[i].row) == TargetOf(h[j].row)
    ensures i < m < j && h[m].Moved? && TargetOf(h[i].row) in h[m].revived
  {
    var t := TargetOf(h[i].row);
    if forall n | i < n < j && h[n].Moved? :: t !in h[n].revived {
      StaysRan(h[..j], i, t);
      assert false;
    }
    m :| i < m < j && h[m].Moved? && t in h[m].revived;
  }

  /** What the log says one action executed. */
  function RanBy(h: seq<Entry>, action: nat): seq<nat> {
    if h == [] then []
    else
      RanBy(h[..|h| - 1], action)
      + (match h[|h| - 1]
         case Ran(row) => if row.action == action then [row.target] else []
         case Moved(_) => [])
  }

  function TargetsOf(rows: seq<AuditRow>): seq<nat> {
    seq(|rows|, i requires 0 <= i < |rows| => rows[i].target)
  }

  lemma RanByOne(h: seq<Entry>, row: AuditRow, action: nat)
    ensures RanBy(h + [Ran(row)], action) == RanBy(h, action) + (if row.action == action then [row.target] else [])
  {
    assert (h + [Ran(row)])[..|h|] == h;
  }

  lemma RanRowsOne(h: seq<Entry>, front: seq<AuditRow>, last: AuditRow)
    ensures h + RanRows(front + [last]) == h + RanRows(front) + [Ran(last)]
    ensures TargetsOf(front + [last]) == TargetsOf(front) + [last.target]
  {
  }

  lemma {:induction false} RanByRows(h: seq<Entry>, rows: seq<AuditRow>, mine: nat, action: nat)
    requires forall row | row in rows :: row.action == mine
    ensures RanBy(h + RanRows(rows), action) == RanBy(h, action) + (if action == mine then TargetsOf(rows) else [])
  {
    if rows == [] {
      assert h + RanRows(rows) == h;
    } else {
      var front, last := rows[..|rows| - 1], rows[|rows| - 1];
      assert last in rows && rows == front + [last];
      RanByRows(h, front, mine, action);
      var before := h + RanRows(front);
      RanByOne(before, last, action);
      RanRowsOne(h, front, last);
    }
  }
}
