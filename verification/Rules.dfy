/** What a possible commit of any reachable state may do, told on the tables and on the approver's permissions. */
module Rules {
  import opened Options
  import opened Policy
  import opened Revalidation
  import opened Snapshot
  import opened Notices
  import opened Lifecycle
  import opened Locking
  import opened Execution
  import opened History
  import opened Protocol
  import opened Safety
  import opened Steps
  import opened Runs
  import Sorting

  // ----- the rows

  function DepartmentOf(w: World, kind: Kind, id: nat): Option<nat> {
    if kind == Reclaim then if id in w.assignments then Some(w.assignments[id].department) else None
    else if id in w.users then Some(w.users[id].department) else None
  }

  /** The directory user a row is about. */
  function UserOf(w: World, kind: Kind, id: nat): Option<nat> {
    if kind == Reclaim then if id in w.assignments then Some(w.assignments[id].user) else None
    else if id in w.users then Some(id) else None
  }

  /** The row lies outside the department the action was requested for. */
  predicate Outside(w: World, p: Preview, id: nat) {
    !(p.scopeType == "department" && p.department.Some? && DepartmentOf(w, p.kind, id) == p.department)
  }

  /** What makes a row need an override by itself. */
  predicate Sensitive(w: World, kind: Kind, id: nat) {
    if kind == Reclaim then SensitiveAssignment(w, id) else PrivilegedMember(w, id) || UnderInvestigation(w, id)
  }

  lemma EligibleFacts(w: World, x: Txn, e: Executable)
    requires Eligible(w, x, e)
    ensures var p := x.file.preview;
            && ReadyFor(w, p.kind, x.approver, x.now, e.id)
            && (e.crosses <==> Outside(w, p, e.id))
            && (e.overrides != [] <==> Outside(w, p, e.id) || Sensitive(w, p.kind, e.id))
            && DepartmentOf(w, p.kind, e.id) == Some(e.department) && UserOf(w, p.kind, e.id) == Some(e.user)
  {
    var p := x.file.preview;
    ExecutedExactlyWhenReady(w, p.kind, ScopeOf(p), x.approver, x.now, e.id);
    if p.kind == Reclaim {
      ReclaimOverrides(w, ScopeOf(p), x.approver, x.now, e.id);
    } else {
      DisableOverrides(w, ScopeOf(p), x.approver, x.now, e.id);
    }
  }

  // ----- the approver

  /** Whether executing these ids takes the global permission, by the rows and by what the request stores. */
  predicate TakesGlobalNow(w: World, p: Preview, ids: seq<nat>) {
    |ids| > 20 || p.scopeType == "global" || exists id | id in ids :: Outside(w, p, id)
  }

  predicate TakesOverrideNow(w: World, p: Preview, ids: seq<nat>) {
    exists id | id in ids :: Outside(w, p, id) || Sensitive(w, p.kind, id)
  }

  /** The approver holds what the executed rows take, and what the stored preview took to get there. */
  predicate Authorised(w: World, p: Preview, user: User, ids: seq<nat>) {
    && (if TakesGlobalNow(w, p, ids) then HoldsGlobal(user) else HoldsScoped(user, p.scopeType, p.scopeKey))
    && (TakesGlobal(p) ==> HoldsGlobal(user))
    && (TakesOverrideNow(w, p, ids) || p.policy.requiresOverride || p.policy.escalation.Some? ==>
          ApproveOverride in user.permissions)
    && (user.id == p.requester ==> SelfApprove in user.permissions)
  }

  lemma SomeRecord(w: World, x: Txn, records: seq<Executable>)
    requires forall e | e in records :: Eligible(w, x, e)
    ensures (exists e | e in records :: e.crosses) <==>
            exists id | id in ExecutableIds(records) :: Outside(w, x.file.preview, id)
    ensures (exists e | e in records :: e.overrides != []) <==>
            TakesOverrideNow(w, x.file.preview, ExecutableIds(records))
    ensures forall id | id in ExecutableIds(records) :: ReadyFor(w, x.file.preview.kind, x.approver, x.now, id)
  {
    var ids := ExecutableIds(records);
    forall i | 0 <= i < |records|
      ensures records[i] in records && ids[i] == records[i].id
      ensures ReadyFor(w, x.file.preview.kind, x.approver, x.now, ids[i])
      ensures records[i].crosses <==> Outside(w, x.file.preview, ids[i])
      ensures records[i].overrides != [] <==>
              Outside(w, x.file.preview, ids[i]) || Sensitive(w, x.file.preview.kind, ids[i])
    {
      EligibleFacts(w, x, records[i]);
    }
    forall id | id in ids ensures exists i :: 0 <= i < |records| && ids[i] == id {
    }
    forall e | e in records ensures exists i :: 0 <= i < |records| && records[i] == e {
    }
  }

  lemma AllowedMeans(x: Txn, records: seq<Executable>, crosses: bool, overrides: bool)
    requires var p := x.file.preview;
             EvaluateApproval(x.approver, p.requester, p.scopeType, p.scopeKey, |records|, crosses, overrides).allowed
    requires DecisionOn(x.file.preview, x.approver).allowed
    ensures var p, user := x.file.preview, x.approver;
            && (if Wide(p.scopeType, |records|, crosses) then HoldsGlobal(user)
                else HoldsScoped(user, p.scopeType, p.scopeKey))
            && (TakesGlobal(p) ==> HoldsGlobal(user))
            && (overrides || p.policy.requiresOverride || p.policy.escalation.Some? ==>
                  ApproveOverride in user.permissions)
            && (user.id == p.requester ==> SelfApprove in user.permissions)
  {
    var p := x.file.preview;
    ApprovalExactly(x.approver, p.requester, p.scopeType, p.scopeKey, |records|, crosses, overrides);
    DecisionExactly(p, x.approver);
  }

  lemma CommitIsAuthorised(w: World, x: Txn)
    requires x.phase.Judged? && Admitted(x) && FinalOk(w, x, x.phase.initial, x.phase.final)
    requires FinalDecision(x, x.phase.final).allowed
    ensures var ids := ExecutableIds(x.phase.final.executable);
            && Authorised(w, x.file.preview, x.approver, ids)
            && forall id | id in ids :: ReadyFor(w, x.file.preview.kind, x.approver, x.now, id)
  {
    var final := x.phase.final;
    SomeRecord(w, x, final.executable);
    AllowedMeans(x, final.executable, final.crosses, final.RequiresOverride());
    assert final.crosses == (exists e | e in final.executable :: e.crosses);
    assert final.RequiresOverride() == (exists e | e in final.executable :: e.overrides != []);
  }

  // ----- in any run

  /** In every reachable state the approver of a possible commit holds exactly the kind of permission and scope that
      the rows it would execute take at that moment, and each of these rows is ready by the tables themselves. */
  lemma CommitsAreAuthorised(w: World, steps: seq<Step>, t: nat)
    requires Reachable(w, steps)
    ensures var s := After(Empty(w), steps);
            CanCommit(s, t) ==>
              var x := s.txns[t];
              var ids := ExecutableIds(x.phase.final.executable);
              && Authorised(s.world, x.file.preview, x.approver, ids)
              && forall id | id in ids :: ReadyFor(s.world, x.file.preview.kind, x.approver, x.now, id)
  {
    ReachableInv(w, steps);
    if CanCommit(After(Empty(w), steps), t) {
      CommitAuthorisedNow(After(Empty(w), steps), t);
    }
  }

  lemma CommitAuthorisedNow(s: State, t: nat)
    requires Inv(s) && CanCommit(s, t)
    ensures var x := s.txns[t];
            var ids := ExecutableIds(x.phase.final.executable);
            && Authorised(s.world, x.file.preview, x.approver, ids)
            && forall id | id in ids :: ReadyFor(s.world, x.file.preview.kind, x.approver, x.now, id)
  {
    HeldFileValid(s, t);
    assert TxnOk(s.files, s.world, s.txns[t]);
    CommitIsAuthorised(s.world, s.txns[t]);
  }

  lemma ChangedExactly(w: World, kind: Kind, ids: seq<nat>)
    requires forall id | id in ids :: Live(w, kind, id)
    ensures TurnedOnly(w, Changed(w, kind, Sorting.Elements(ids)), kind, ids)
  {
    if kind == Reclaim {
      ReclaimedExactly(w, Sorting.Elements(ids));
    } else {
      DisabledExactly(w, Sorting.Elements(ids));
    }
  }

  /** The rows of `ids` are now reclaimed or disabled; no other row, column or table differs. */
  ghost predicate TurnedOnly(w: World, v: World, kind: Kind, ids: seq<nat>) {
    && v == w.(assignments := v.assignments, users := v.users)
    && v.assignments.Keys == w.assignments.Keys && v.users.Keys == w.users.Keys
    && (forall a | a in w.assignments ::
          v.assignments[a] == if kind == Reclaim && a in ids then w.assignments[a].(status := Reclaimed)
                              else w.assignments[a])
    && (forall u | u in w.users ::
          v.users[u] == if kind == Disable && u in ids then w.users[u].(status := Disabled) else w.users[u])
  }

  /** A commit makes exactly its rows reclaimed or disabled; no other row, column or table changes. */
  lemma CommitSetsExactly(s: State, t: nat, stamp: int, users: seq<User>, acknowledged: bool)
    requires Core(s) && CanCommit(s, t)
    ensures TurnedOnly(s.world, Committed(s, t, stamp, users, acknowledged).world, s.txns[t].file.preview.kind,
                       ExecutableIds(s.txns[t].phase.final.executable))
  {
    var x := s.txns[t];
    CommitIsExact(s, t, stamp, users, acknowledged);
    assert TxnOk(s.files, s.world, x);
    LiveIds(s.world, x);
    ChangedExactly(s.world, x.file.preview.kind, ExecutableIds(x.phase.final.executable));
  }

  /** An audit row tells the truth about the row it was written for. */
  predicate Truthful(w: World, x: Txn, row: AuditRow) {
    && row.action == x.action && row.actor == x.approver.id && row.kind == x.file.preview.kind && row.at == x.now
    && DepartmentOf(w, row.kind, row.target) == Some(row.department)
    && UserOf(w, row.kind, row.target) == Some(row.user)
  }

  /** A commit logs one row for each executed record, in order, and each says who did what to whom and when. */
  lemma CommitLogsExactly(s: State, t: nat)
    requires Core(s) && CanCommit(s, t)
    ensures var x := s.txns[t];
            var rows := AuditRows(x.phase.final.executable, x.file.preview.kind, x.action, x.approver.id, x.now);
            TargetsOf(rows) == ExecutableIds(x.phase.final.executable)
            && forall row | row in rows :: Truthful(s.world, x, row)
  {
    var x := s.txns[t];
    assert TxnOk(s.files, s.world, x);
    var records := x.phase.final.executable;
    var rows := AuditRows(records, x.file.preview.kind, x.action, x.approver.id, x.now);
    forall row | row in rows ensures Truthful(s.world, x, row) {
      var i :| 0 <= i < |rows| && rows[i] == row;
      assert records[i] in records;
      EligibleFacts(s.world, x, records[i]);
    }
  }

  lemma LiveIds(w: World, x: Txn)
    requires x.phase.Judged? && Admitted(x) && FinalOk(w, x, x.phase.initial, x.phase.final)
    ensures forall id | id in ExecutableIds(x.phase.final.executable) :: Live(w, x.file.preview.kind, id)
  {
    CommitGoesThrough(w, x);
    var ids := ExecutableIds(x.phase.final.executable);
    forall id | id in ids ensures Live(w, x.file.preview.kind, id) {
      var i :| 0 <= i < |ids| && ids[i] == id;
      assert x.phase.final.executable[i] in x.phase.final.executable;
    }
  }
}
