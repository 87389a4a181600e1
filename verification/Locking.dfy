/** Row locks on the operational tables: what they forbid, and why a verdict on locked rows lasts. */
module Locking {
  import opened Options
  import opened Policy
  import opened Revalidation
  import Sorting

  datatype Row =
    | AssignmentRow(id: nat) | UserRow(id: nat) | LicenseRow(id: nat) | LoginRow(id: nat)
    | MembershipRow(user: nat, group: nat) | GroupRow(id: nat) | EventRow(id: nat)

  function Lookup<V>(table: map<nat, V>, id: nat): Option<V> {
    if id in table then Some(table[id]) else None
  }

  predicate SameRow(w: World, v: World, row: Row) {
    match row
    case AssignmentRow(id) => Lookup(w.assignments, id) == Lookup(v.assignments, id)
    case UserRow(id) => Lookup(w.users, id) == Lookup(v.users, id)
    case LicenseRow(id) => Lookup(w.licenses, id) == Lookup(v.licenses, id)
    case LoginRow(id) => Lookup(w.logins, id) == Lookup(v.logins, id)
    case MembershipRow(user, group) => (user, group) in w.memberships <==> (user, group) in v.memberships
    case GroupRow(id) => Lookup(w.groups, id) == Lookup(v.groups, id)
    case EventRow(id) => Lookup(w.events, id) == Lookup(v.events, id)
  }

  /** The foreign keys of the schema. */
  predicate References(w: World) {
    && (forall a | a in w.assignments :: w.assignments[a].user in w.users && w.assignments[a].license in w.licenses)
    && (forall l | l in w.logins :: w.logins[l].user in w.users)
    && (forall m | m in w.memberships :: m.0 in w.users && m.1 in w.groups)
    && (forall e | e in w.events :: w.events[e].user.Some? ==> w.events[e].user.value in w.users)
  }

  /** A row that refers to a locked user can be neither inserted nor pointed there: the key check waits for the lock. */
  predicate NoNewReferences(w: World, v: World, locks: set<Row>) {
    && (forall l | l in v.logins :: UserRow(v.logins[l].user) in locks ==>
                                      l in w.logins && w.logins[l].user == v.logins[l].user)
    && (forall m | m in v.memberships :: UserRow(m.0) in locks ==> m in w.memberships)
    && (forall e | e in v.events :: v.events[e].user.Some? && UserRow(v.events[e].user.value) in locks ==>
                                      e in w.events && w.events[e].user == v.events[e].user)
  }

  /** What other sessions may make of the tables while `locks` are held. */
  ghost predicate Allowed(w: World, v: World, locks: set<Row>) {
    && (forall row | row in locks :: SameRow(w, v, row))
    && NoNewReferences(w, v, locks)
    && References(v)
  }

  // ----- the rows an approval locks

  function TargetRow(kind: Kind, id: nat): Row {
    if kind == Reclaim then AssignmentRow(id) else UserRow(id)
  }

  predicate Found(w: World, kind: Kind, approver: User, id: nat) {
    if kind == Reclaim then id in w.assignments && approver.Sees(w.assignments[id].department)
    else Lockable(w, approver, id)
  }

  /** A pass locks the target rows its query finds. */
  function TargetLocks(w: World, kind: Kind, approver: User, ids: seq<nat>): set<Row> {
    set id | id in ids && Found(w, kind, approver, id) :: TargetRow(kind, id)
  }

  function Stages(kind: Kind): nat {
    if kind == Reclaim then 2 else 4
  }

  /** The dependency rows taken one statement after the other, for the records the first pass admitted. */
  function StageLocks(w: World, kind: Kind, records: seq<Executable>, stage: nat): set<Row> {
    if kind == Reclaim then
      if stage == 0 then set x | x in records && x.user in w.users :: UserRow(x.user)
      else set x | x in records && x.license in w.licenses :: LicenseRow(x.license)
    else
      var ids := set x | x in records :: x.id;
      if stage == 0 then set l | l in w.logins && w.logins[l].user in ids :: LoginRow(l)
      else if stage == 1 then set m | m in w.memberships && m.0 in ids :: MembershipRow(m.0, m.1)
      else if stage == 2 then set m | m in w.memberships && m.0 in ids && m.1 in w.groups :: GroupRow(m.1)
      else set e | e in w.events && w.events[e].user.Some? && w.events[e].user.value in ids :: EventRow(e)
  }

  /** The locks held for a record once `stage` statements have run. */
  predicate HeldReclaim(w: World, x: Executable, locks: set<Row>, stage: nat) {
    && x.id in w.assignments && AssignmentRow(x.id) in locks
    && w.assignments[x.id].user == x.user && w.assignments[x.id].license == x.license
    && (stage >= 1 ==> UserRow(x.user) in locks)
    && (stage >= 2 ==> LicenseRow(x.license) in locks)
  }

  predicate HeldDisable(w: World, x: Executable, locks: set<Row>, stage: nat) {
    && UserRow(x.id) in locks
    && (stage >= 1 ==> forall l | l in w.logins :: w.logins[l].user == x.id ==> LoginRow(l) in locks)
    && (stage >= 2 ==> forall m | m in w.memberships :: m.0 == x.id ==> MembershipRow(m.0, m.1) in locks)
    && (stage >= 3 ==> forall m | m in w.memberships :: m.0 == x.id ==> GroupRow(m.1) in locks)
    && (stage >= 4 ==> forall e | e in w.events :: w.events[e].user == Some(x.id) ==> EventRow(e) in locks)
  }

  predicate Held(w: World, kind: Kind, x: Executable, locks: set<Row>, stage: nat) {
    if kind == Reclaim then HeldReclaim(w, x, locks, stage) else HeldDisable(w, x, locks, stage)
  }

  /** A pass locks exactly the rows of its targets that its session can read and, for users, may update. */
  lemma LocksExactly(w: World, kind: Kind, approver: User, ids: seq<nat>, row: Row)
    ensures row in TargetLocks(w, kind, approver, ids) <==>
            exists id | id in ids ::
              if kind == Reclaim then row == AssignmentRow(id) && VisibleAssignment(w, approver, id)
              else row == UserRow(id) && ActiveHuman(w, approver, id)
  {
  }

  /** The first pass may read dependencies that are already out of date, but its target rows are current and locked. */
  lemma TargetsHeld(w: World, seen: World, kind: Kind, scope: ActionScope, approver: User, now: int, ids: seq<nat>,
                    x: Executable)
    requires forall row | row in TargetLocks(seen, kind, approver, ids) :: SameRow(seen, w, row)
    requires x.id in ids && VerdictOn(seen, kind, scope, approver, now, x.id) == Execute(x)
    ensures Held(w, kind, x, TargetLocks(seen, kind, approver, ids), 0)
  {
    assert Found(seen, kind, approver, x.id);
    assert TargetRow(kind, x.id) in TargetLocks(seen, kind, approver, ids);
    assert SameRow(seen, w, TargetRow(kind, x.id));
  }

  lemma StageHolds(w: World, kind: Kind, records: seq<Executable>, x: Executable, locks: set<Row>, stage: nat)
    requires References(w) && x in records && stage < Stages(kind)
    requires Held(w, kind, x, locks, stage)
    ensures Held(w, kind, x, locks + StageLocks(w, kind, records, stage), stage + 1)
  {
    var more := StageLocks(w, kind, records, stage);
    if kind == Reclaim {
      assert x.user in w.users && x.license in w.licenses;
    } else if stage == 0 {
      forall l | l in w.logins && w.logins[l].user == x.id ensures LoginRow(l) in more {
      }
    } else if stage == 1 {
      forall m | m in w.memberships && m.0 == x.id ensures MembershipRow(m.0, m.1) in more {
      }
    } else if stage == 2 {
      forall m | m in w.memberships && m.0 == x.id ensures GroupRow(m.1) in more {
      }
    } else {
      forall e | e in w.events && w.events[e].user == Some(x.id) ensures EventRow(e) in more {
      }
    }
  }

  lemma MoreLocks(w: World, kind: Kind, x: Executable, locks: set<Row>, more: set<Row>, stage: nat)
    requires Held(w, kind, x, locks, stage)
    ensures Held(w, kind, x, locks + more, stage)
  {
  }

  /** What is held stays held, whatever the other sessions do. */
  lemma HeldLasts(w: World, v: World, kind: Kind, x: Executable, locks: set<Row>, stage: nat)
    requires Held(w, kind, x, locks, stage) && Allowed(w, v, locks)
    ensures Held(v, kind, x, locks, stage)
  {
    if kind == Reclaim {
      assert SameRow(w, v, AssignmentRow(x.id));
    }
  }

  lemma ReclaimVerdictLasts(w: World, v: World, scope: ActionScope, approver: User, now: int, x: Executable,
                            locks: set<Row>)
    requires HeldReclaim(w, x, locks, 2) && Allowed(w, v, locks)
    ensures ReclaimVerdict(w, scope, approver, now, x.id) == ReclaimVerdict(v, scope, approver, now, x.id)
  {
    assert SameRow(w, v, AssignmentRow(x.id)) && SameRow(w, v, UserRow(x.user)) && SameRow(w, v, LicenseRow(x.license));
  }

  lemma LoginsLast(w: World, v: World, id: nat, cutoff: int, locks: set<Row>)
    requires UserRow(id) in locks && Allowed(w, v, locks) && id in w.users && id in v.users
    requires forall l | l in w.logins :: w.logins[l].user == id ==> LoginRow(l) in locks
    ensures LoggedInAfter(w, id, cutoff) == LoggedInAfter(v, id, cutoff)
  {
    assert SameRow(w, v, UserRow(id));
    forall l | l in w.logins && w.logins[l].user == id ensures l in v.logins && v.logins[l] == w.logins[l] {
      assert SameRow(w, v, LoginRow(l));
    }
    forall l | l in v.logins && v.logins[l].user == id ensures l in w.logins && w.logins[l] == v.logins[l] {
      assert SameRow(w, v, LoginRow(l));
    }
  }

  lemma PrivilegeLasts(w: World, v: World, id: nat, locks: set<Row>)
    requires UserRow(id) in locks && Allowed(w, v, locks)
    requires forall m | m in w.memberships :: m.0 == id ==> MembershipRow(m.0, m.1) in locks
    requires forall m | m in w.memberships :: m.0 == id ==> GroupRow(m.1) in locks
    ensures Privileged(w, id) == Privileged(v, id)
  {
    forall m | m in w.memberships && m.0 == id ensures m in v.memberships
      && Lookup(w.groups, m.1) == Lookup(v.groups, m.1) {
      assert SameRow(w, v, MembershipRow(m.0, m.1)) && SameRow(w, v, GroupRow(m.1));
    }
  }

  lemma EventsLast(w: World, v: World, id: nat, locks: set<Row>)
    requires UserRow(id) in locks && Allowed(w, v, locks)
    requires forall e | e in w.events :: w.events[e].user == Some(id) ==> EventRow(e) in locks
    ensures OpenCritical(w, id) == OpenCritical(v, id)
  {
    forall e | e in w.events && w.events[e].user == Some(id) ensures e in v.events && v.events[e] == w.events[e] {
      assert SameRow(w, v, EventRow(e));
    }
    forall e | e in v.events && v.events[e].user == Some(id) ensures e in w.events && w.events[e] == v.events[e] {
      assert SameRow(w, v, EventRow(e));
    }
  }

  lemma DisableVerdictLasts(w: World, v: World, scope: ActionScope, approver: User, now: int, x: Executable,
                            locks: set<Row>)
    requires HeldDisable(w, x, locks, 4) && Allowed(w, v, locks)
    ensures DisableVerdict(w, scope, approver, now, x.id) == DisableVerdict(v, scope, approver, now, x.id)
  {
    assert SameRow(w, v, UserRow(x.id));
    if x.id in w.users {
      LoginsLast(w, v, x.id, now - INACTIVITY_DAYS * DAY, locks);
      PrivilegeLasts(w, v, x.id, locks);
      EventsLast(w, v, x.id, locks);
    }
  }

  /** With every stage locked, no other session can change the verdict. */
  lemma VerdictLasts(w: World, v: World, kind: Kind, scope: ActionScope, approver: User, now: int, x: Executable,
                     locks: set<Row>)
    requires Held(w, kind, x, locks, Stages(kind)) && Allowed(w, v, locks)
    ensures VerdictOn(w, kind, scope, approver, now, x.id) == VerdictOn(v, kind, scope, approver, now, x.id)
  {
    if kind == Reclaim {
      ReclaimVerdictLasts(w, v, scope, approver, now, x, locks);
    } else {
      DisableVerdictLasts(w, v, scope, approver, now, x, locks);
    }
  }

  // ----- the guarded update

  /** The rows the `WHERE` clause of the update matches. */
  predicate Live(w: World, kind: Kind, id: nat) {
    if kind == Reclaim then id in w.assignments && w.assignments[id].status == Active
    else id in w.users && w.users[id].accountType == Human && w.users[id].status == Enabled
  }

  function Changed(w: World, kind: Kind, ids: set<nat>): World {
    if kind == Reclaim then
      w.(assignments := map a | a in w.assignments ::
           if a in ids && Live(w, Reclaim, a) then w.assignments[a].(status := Reclaimed) else w.assignments[a])
    else
      w.(users := map u | u in w.users ::
           if u in ids && Live(w, Disable, u) then w.users[u].(status := Disabled) else w.users[u])
  }

  function Matched(w: World, kind: Kind, ids: set<nat>): set<nat> {
    set id | id in ids && Live(w, kind, id)
  }

  /** The update, refused unless it matches one row for each requested id. */
  function Update(w: World, kind: Kind, ids: seq<nat>): Option<World> {
    var wanted := Sorting.Elements(ids);
    if |Matched(w, kind, wanted)| == |ids| then Some(Changed(w, kind, wanted)) else None
  }

  /** The update goes through exactly when the ids are distinct and each one is still live. */
  lemma UpdateExactly(w: World, kind: Kind, ids: seq<nat>)
    ensures Update(w, kind, ids).Some? <==> Sorting.Distinct(ids) && forall id | id in ids :: Live(w, kind, id)
  {
    var wanted := Sorting.Elements(ids);
    var matched := Matched(w, kind, wanted);
    Sorting.ElementsSize(ids);
    Sorting.SubsetSize(matched, wanted);
    if |matched| == |ids| {
      Sorting.SubsetOfEqualSize(matched, wanted);
      forall id | id in ids ensures Live(w, kind, id) {
        assert id in wanted;
      }
    } else if forall id | id in ids :: Live(w, kind, id) {
      assert matched == wanted;
    }
  }

  lemma ExecutableIsLive(w: World, kind: Kind, scope: ActionScope, approver: User, now: int, x: Executable)
    requires VerdictOn(w, kind, scope, approver, now, x.id) == Execute(x)
    ensures Live(w, kind, x.id)
  {
  }

  /** The update only writes rows its own transaction holds, so it respects everybody else's locks. */
  lemma UpdateIsAllowed(w: World, kind: Kind, ids: set<nat>, mine: set<Row>, others: set<Row>)
    requires References(w) && mine !! others
    requires forall id | id in ids :: TargetRow(kind, id) in mine
    ensures Allowed(w, Changed(w, kind, ids), others)
  {
    var v := Changed(w, kind, ids);
    forall row | row in others ensures SameRow(w, v, row) {
      if kind == Reclaim {
        if row.AssignmentRow? {
          assert row.id in ids ==> TargetRow(kind, row.id) in mine;
        }
      } else if row.UserRow? {
        assert row.id in ids ==> TargetRow(kind, row.id) in mine;
      }
    }
  }

  /** The requested live assignments are reclaimed and nothing else in the tables changes. */
  lemma ReclaimedExactly(w: World, ids: set<nat>)
    ensures var v := Changed(w, Reclaim, ids);
            && v == w.(assignments := v.assignments) && v.assignments.Keys == w.assignments.Keys
            && forall a | a in w.assignments ::
                 var before, after := w.assignments[a], v.assignments[a];
                 && after == before.(status := after.status)
                 && (after.status == if a in ids && before.status == Active then Reclaimed else before.status)
  {
  }

  /** The requested active human accounts are disabled and nothing else in the tables changes. */
  lemma DisabledExactly(w: World, ids: set<nat>)
    ensures var v := Changed(w, Disable, ids);
            && v == w.(users := v.users) && v.users.Keys == w.users.Keys
            && forall u | u in w.users ::
                 var before, after := w.users[u], v.users[u];
                 && after == before.(status := after.status)
                 && (after.status ==
                     if u in ids && before.accountType == Human && before.status == Enabled then Disabled
                     else before.status)
  {
  }

  /** Exactly the requested live rows turn, and nothing else does. */
  lemma UpdateTurnsExactly(w: World, kind: Kind, ids: set<nat>, other: Kind, id: nat)
    ensures Live(w, other, id) && !Live(Changed(w, kind, ids), other, id) <==>
            kind == other && id in ids && Live(w, kind, id)
    ensures Live(Changed(w, kind, ids), other, id) ==> Live(w, other, id)
  {
  }
}
