/** The operational rows an approved action may touch, and the verdict on each of its targets. */
module Revalidation {
  import opened Options
  import opened Policy
  import Sorting

  const DAY := 86_400
  const ELIGIBILITY_DAYS := 60
  const INACTIVITY_DAYS := 90

  datatype Kind = Reclaim | Disable

  datatype AssignmentStatus = Active | Reclaimed | Suspended | OtherStatus
  datatype Cost = Amount(usd: real) | NotFinite
  datatype AccountType = Human | Service | OtherType
  datatype AccountStatus = Enabled | Disabled | OtherAccount

  datatype Assignment = Assignment(user: nat, license: nat, department: nat, status: AssignmentStatus,
                                   lastUsedAt: Option<int>, mandatory: bool, exceptional: bool)
  datatype DirectoryUser = DirectoryUser(department: nat, accountType: AccountType, status: AccountStatus,
                                         lastLoginAt: Option<int>)
  datatype Login = Login(user: nat, success: bool, at: int)
  datatype SecurityEvent = SecurityEvent(user: Option<nat>, critical: bool, unresolved: bool)

  /** The tables: licenses hold their monthly cost, groups their privilege flag. */
  datatype World = World(assignments: map<nat, Assignment>, users: map<nat, DirectoryUser>,
                         licenses: map<nat, Option<Cost>>,
                         logins: map<nat, Login>, memberships: set<(nat, nat)>, groups: map<nat, bool>,
                         events: map<nat, SecurityEvent>)

  /** What a verdict reads of the action itself. */
  datatype ActionScope = ActionScope(scopeType: string, scopeKey: string, department: Option<nat>)

  /** A target that may be executed; `user` and `license` are the related rows a reclaim depends on. */
  datatype Executable = Executable(id: nat, user: nat, license: nat, department: nat, scopeKey: string,
                                   overrides: seq<string>, crosses: bool)

  datatype Verdict = Execute(record: Executable) | Skip(code: string)

  function ScopeKeyFor(scopes: seq<Scope>, department: nat): Option<string> {
    if scopes == [] then None
    else if scopes[0].scopeType == "department" && scopes[0].department == Some(department) then Some(scopes[0].key)
    else ScopeKeyFor(scopes[1..], department)
  }

  function ScopeKey(approver: User, department: nat): Option<string> {
    var key := ScopeKeyFor(approver.scopes, department);
    if key.Some? then key else if approver.HasGlobalScope() then Some("global") else None
  }

  predicate CrossesScope(scope: ActionScope, department: nat) {
    scope.scopeType != "department" || scope.department != Some(department)
  }

  function Codes(condition: bool, code: string): seq<string> {
    if condition then [code] else []
  }

  // ----- reclaiming an unused license

  predicate JoinedUser(w: World, approver: User, user: nat) {
    user in w.users && approver.Sees(w.users[user].department)
  }

  predicate StructurallyValid(w: World, approver: User, a: Assignment) {
    && JoinedUser(w, approver, a.user)
    && w.users[a.user].department == a.department
    && a.license in w.licenses && w.licenses[a.license].Some?
    && w.licenses[a.license].value.Amount? && w.licenses[a.license].value.usd >= 0.0
  }

  function ReclaimVerdict(w: World, scope: ActionScope, approver: User, now: int, id: nat): Verdict {
    if id !in w.assignments || !approver.Sees(w.assignments[id].department) then Skip("record_unavailable")
    else
      var a := w.assignments[id];
      if a.status == Reclaimed then Skip("already_reclaimed")
      else if a.status == Suspended then Skip("assignment_suspended")
      else if a.status != Active then Skip("invalid_current_state")
      else if a.lastUsedAt.Some? && a.lastUsedAt.value >= now - ELIGIBILITY_DAYS * DAY then Skip("recent_usage")
      else if !StructurallyValid(w, approver, a) then Skip("invalid_current_state")
      else
        var key := ScopeKey(approver, a.department);
        if key.None? then Skip("scope_unavailable")
        else
          var u := w.users[a.user];
          if u.accountType == OtherType then Skip("invalid_current_state")
          else
            var crosses := CrossesScope(scope, a.department);
            Execute(Executable(id, a.user, a.license, a.department, key.value,
                               Codes(crosses, "cross_scope") + Codes(a.exceptional, "exception_assignment")
                               + Codes(a.mandatory, "mandatory_license")
                               + Codes(u.accountType == Service, "service_account"),
                               crosses))
  }

  // ----- disabling an inactive user

  predicate LoggedInAfter(w: World, id: nat, cutoff: int)
    requires id in w.users
  {
    || (w.users[id].lastLoginAt.Some? && w.users[id].lastLoginAt.value > cutoff)
    || exists l | l in w.logins :: w.logins[l].user == id && w.logins[l].success && w.logins[l].at > cutoff
  }

  predicate Privileged(w: World, id: nat) {
    exists m | m in w.memberships :: m.0 == id && m.1 in w.groups && w.groups[m.1]
  }

  predicate OpenCritical(w: World, id: nat) {
    exists e | e in w.events :: w.events[e].user == Some(id) && w.events[e].critical && w.events[e].unresolved
  }

  /** The users a disable pass can lock and read: the action role's update policy hides all but active human
   *  accounts. */
  predicate Lockable(w: World, approver: User, id: nat) {
    && id in w.users && approver.Sees(w.users[id].department)
    && w.users[id].accountType == Human && w.users[id].status == Enabled
  }

  function DisableVerdict(w: World, scope: ActionScope, approver: User, now: int, id: nat): Verdict {
    if !Lockable(w, approver, id) then Skip("record_not_found_or_not_authorized")
    else
      var u := w.users[id];
      if u.accountType == Service then Skip("service_account_excluded")
      else if u.accountType != Human then Skip("invalid_current_state")
      else if u.status == Disabled then Skip("user_already_disabled")
      else if u.status != Enabled then Skip("invalid_current_state")
      else if LoggedInAfter(w, id, now - INACTIVITY_DAYS * DAY) then Skip("recent_successful_login")
      else
        var key := ScopeKey(approver, u.department);
        if key.None? then Skip("scope_unavailable")
        else
          var crosses := CrossesScope(scope, u.department);
          Execute(Executable(id, id, 0, u.department, key.value,
                             Codes(Privileged(w, id), "privileged_user")
                             + Codes(OpenCritical(w, id), "open_critical_security_event")
                             + Codes(crosses, "cross_scope_target"),
                             crosses))
  }

  function VerdictOn(w: World, kind: Kind, scope: ActionScope, approver: User, now: int, id: nat): Verdict {
    match kind
    case Reclaim => ReclaimVerdict(w, scope, approver, now, id)
    case Disable => DisableVerdict(w, scope, approver, now, id)
  }

  /** A row the session can read always lies in one of the approver's scopes: `scope_unavailable` is dead code. */
  lemma ScopeIsAlwaysAvailable(w: World, kind: Kind, scope: ActionScope, approver: User, now: int, id: nat)
    ensures VerdictOn(w, kind, scope, approver, now, id) != Skip("scope_unavailable")
  {
    forall department: nat | approver.Sees(department) ensures ScopeKey(approver, department).Some? {
      if !approver.HasGlobalScope() {
        var s :| s in approver.scopes && s.scopeType == "department" && s.department == Some(department);
        FindsScope(approver.scopes, department, s);
      }
    }
  }

  /** A record is filed under the first of the approver's scopes for its department, or else under the global one. */
  lemma {:induction false} ScopeKeyExactly(scopes: seq<Scope>, department: nat) returns (i: nat)
    ensures ScopeKeyFor(scopes, department).None? <==>
            forall s | s in scopes :: s.scopeType != "department" || s.department != Some(department)
    ensures ScopeKeyFor(scopes, department).Some? ==>
            && i < |scopes| && ScopeKeyFor(scopes, department) == Some(scopes[i].key)
            && scopes[i].scopeType == "department" && scopes[i].department == Some(department)
            && forall j | 0 <= j < i :: scopes[j].scopeType != "department" || scopes[j].department != Some(department)
  {
    i := 0;
    if scopes != [] && !(scopes[0].scopeType == "department" && scopes[0].department == Some(department)) {
      i := ScopeKeyExactly(scopes[1..], department);
      i := i + 1;
      assert scopes == [scopes[0]] + scopes[1..];
    }
  }

  // ----- the verdicts, condition by condition on the tables

  predicate VisibleAssignment(w: World, approver: User, id: nat) {
    id in w.assignments && approver.Sees(w.assignments[id].department)
  }

  /** Not used in the sixty days before `now`. */
  predicate Unused(a: Assignment, now: int) {
    a.lastUsedAt.None? || a.lastUsedAt.value < now - 60 * 86_400
  }

  /** Held by a human or a service account of its own department, at a known cost. */
  predicate Sound(w: World, approver: User, a: Assignment) {
    && a.user in w.users && approver.Sees(w.users[a.user].department)
    && w.users[a.user].department == a.department && w.users[a.user].accountType in {Human, Service}
    && a.license in w.licenses
    && match w.licenses[a.license] { case Some(Amount(usd)) => usd >= 0.0 case _ => false }
  }

  predicate ReclaimReady(w: World, approver: User, now: int, id: nat) {
    && VisibleAssignment(w, approver, id) && w.assignments[id].status == Active
    && Unused(w.assignments[id], now) && Sound(w, approver, w.assignments[id])
  }

  lemma ReclaimVerdicts(w: World, scope: ActionScope, approver: User, now: int, id: nat)
    ensures var v := ReclaimVerdict(w, scope, approver, now, id);
            var visible := VisibleAssignment(w, approver, id);
            && (v == Skip("record_unavailable") <==> !visible)
            && (v == Skip("already_reclaimed") <==> visible && w.assignments[id].status == Reclaimed)
            && (v == Skip("assignment_suspended") <==> visible && w.assignments[id].status == Suspended)
            && (v == Skip("recent_usage") <==>
                  visible && w.assignments[id].status == Active && !Unused(w.assignments[id], now))
            && (v == Skip("invalid_current_state") <==>
                  && visible
                  && (w.assignments[id].status == OtherStatus
                      || (w.assignments[id].status == Active && Unused(w.assignments[id], now)
                          && !Sound(w, approver, w.assignments[id]))))
            && (v.Execute? <==> ReclaimReady(w, approver, now, id))
  {
    ScopeIsAlwaysAvailable(w, Reclaim, scope, approver, now, id);
    assert VerdictOn(w, Reclaim, scope, approver, now, id) == ReclaimVerdict(w, scope, approver, now, id);
  }

  /** An active human account the approver can read, without a successful login in the ninety days before `now`. */
  predicate Inactive(w: World, now: int, id: nat)
    requires id in w.users
  {
    && (w.users[id].lastLoginAt.Some? ==> w.users[id].lastLoginAt.value <= now - 90 * 86_400)
    && forall l | l in w.logins && w.logins[l].user == id && w.logins[l].success :: w.logins[l].at <= now - 90 * 86_400
  }

  predicate ActiveHuman(w: World, approver: User, id: nat) {
    && id in w.users && approver.Sees(w.users[id].department)
    && w.users[id].accountType == Human && w.users[id].status == Enabled
  }

  predicate DisableReady(w: World, approver: User, now: int, id: nat) {
    ActiveHuman(w, approver, id) && Inactive(w, now, id)
  }

  /** Under the update policy a disable target is executable, skipped as recently active, or skipped as unavailable:
      the branches for service, disabled and other accounts cannot be reached. */
  lemma DisableVerdicts(w: World, scope: ActionScope, approver: User, now: int, id: nat)
    ensures var v := DisableVerdict(w, scope, approver, now, id);
            && (v == Skip("record_not_found_or_not_authorized") <==> !ActiveHuman(w, approver, id))
            && (v == Skip("recent_successful_login") <==> ActiveHuman(w, approver, id) && !Inactive(w, now, id))
            && (v.Execute? <==> DisableReady(w, approver, now, id))
  {
    ScopeIsAlwaysAvailable(w, Disable, scope, approver, now, id);
    var v := DisableVerdict(w, scope, approver, now, id);
    assert VerdictOn(w, Disable, scope, approver, now, id) == v;
    if ActiveHuman(w, approver, id) {
      assert LoggedInAfter(w, id, now - INACTIVITY_DAYS * DAY) <==> !Inactive(w, now, id);
      assert v.Execute? || v == Skip("scope_unavailable") || v == Skip("recent_successful_login");
    }
  }

  predicate ReadyFor(w: World, kind: Kind, approver: User, now: int, id: nat) {
    if kind == Reclaim then ReclaimReady(w, approver, now, id) else DisableReady(w, approver, now, id)
  }

  lemma ExecutedExactlyWhenReady(w: World, kind: Kind, scope: ActionScope, approver: User, now: int, id: nat)
    ensures VerdictOn(w, kind, scope, approver, now, id).Execute? <==> ReadyFor(w, kind, approver, now, id)
  {
    if kind == Reclaim {
      ReclaimVerdicts(w, scope, approver, now, id);
    } else {
      DisableVerdicts(w, scope, approver, now, id);
    }
  }

  /** The row lies outside the department the action was requested for. */
  predicate Elsewhere(scope: ActionScope, department: nat) {
    !(scope.scopeType == "department" && scope.department == Some(department))
  }

  /** An executable reclaim record carries exactly the codes whose conditions hold, and the related rows. */
  lemma ReclaimOverrides(w: World, scope: ActionScope, approver: User, now: int, id: nat)
    requires ReclaimVerdict(w, scope, approver, now, id).Execute?
    ensures var x := ReclaimVerdict(w, scope, approver, now, id).record;
            && id in w.assignments && w.assignments[id].user in w.users
            && (var a := w.assignments[id];
                && x.id == id && x.user == a.user && x.license == a.license && x.department == a.department
                && (x.crosses <==> Elsewhere(scope, a.department))
                && ("cross_scope" in x.overrides <==> Elsewhere(scope, a.department))
                && ("exception_assignment" in x.overrides <==> a.exceptional)
                && ("mandatory_license" in x.overrides <==> a.mandatory)
                && ("service_account" in x.overrides <==> w.users[a.user].accountType == Service)
                && (x.overrides != [] <==> Elsewhere(scope, a.department) || SensitiveAssignment(w, id)))
  {
  }

  predicate SensitiveAssignment(w: World, id: nat) {
    && id in w.assignments
    && (w.assignments[id].exceptional || w.assignments[id].mandatory
        || (w.assignments[id].user in w.users && w.users[w.assignments[id].user].accountType == Service))
  }

  predicate PrivilegedMember(w: World, id: nat) {
    exists m | m in w.memberships && m.1 in w.groups :: m.0 == id && w.groups[m.1]
  }

  predicate UnderInvestigation(w: World, id: nat) {
    exists e | e in w.events && w.events[e].unresolved && w.events[e].critical :: w.events[e].user == Some(id)
  }

  /** The same for an executable disable record. */
  lemma DisableOverrides(w: World, scope: ActionScope, approver: User, now: int, id: nat)
    requires DisableVerdict(w, scope, approver, now, id).Execute?
    ensures var x := DisableVerdict(w, scope, approver, now, id).record;
            && id in w.users
            && x.id == x.user == id && x.department == w.users[id].department
            && (x.crosses <==> Elsewhere(scope, w.users[id].department))
            && ("cross_scope_target" in x.overrides <==> Elsewhere(scope, w.users[id].department))
            && ("privileged_user" in x.overrides <==> PrivilegedMember(w, id))
            && ("open_critical_security_event" in x.overrides <==> UnderInvestigation(w, id))
            && (x.overrides != [] <==>
                  Elsewhere(scope, w.users[id].department) || PrivilegedMember(w, id) || UnderInvestigation(w, id))
  {
    assert Privileged(w, id) == PrivilegedMember(w, id);
    assert OpenCritical(w, id) == UnderInvestigation(w, id);
  }

  lemma {:induction false} FindsScope(scopes: seq<Scope>, department: nat, s: Scope)
    requires s in scopes && s.scopeType == "department" && s.department == Some(department)
    ensures ScopeKeyFor(scopes, department).Some?
  {
    if s != scopes[0] {
      FindsScope(scopes[1..], department, s);
    }
  }

  // ----- the pass over all targets

  datatype Skipped = Skipped(id: nat, code: string)

  datatype Result = Result(executable: seq<Executable>, skipped: seq<Skipped>, overrides: set<string>, crosses: bool) {
    predicate RequiresOverride() {
      overrides != {}
    }
  }

  function CodeSet(codes: seq<string>): set<string> {
    set c | c in codes
  }

  /** The results of the targets in turn. */
  function Collect(verdict: nat -> Verdict, ids: seq<nat>): Result {
    if ids == [] then Result([], [], {}, false)
    else Added(Collect(verdict, ids[..|ids| - 1]), ids[|ids| - 1], verdict(ids[|ids| - 1]))
  }

  function Revalidate(w: World, kind: Kind, scope: ActionScope, approver: User, now: int, ids: seq<nat>): Result {
    Collect((id: nat) => VerdictOn(w, kind, scope, approver, now, id), ids)
  }

  function Added(r: Result, id: nat, verdict: Verdict): Result {
    match verdict
    case Skip(code) => r.(skipped := r.skipped + [Skipped(id, code)])
    case Execute(record) => Result(r.executable + [record], r.skipped, r.overrides + CodeSet(record.overrides),
                                   r.crosses || record.crosses)
  }

  method RevalidateTargets(w: World, kind: Kind, scope: ActionScope, approver: User, now: int, ids: seq<nat>)
    returns (r: Result)
    ensures r == Revalidate(w, kind, scope, approver, now, ids)
  {
    ghost var verdict := (id: nat) => VerdictOn(w, kind, scope, approver, now, id);
    var executable: seq<Executable> := [];
    var skipped: seq<Skipped> := [];
    var overrides: set<string> := {};
    var crosses := false;
    for n := 0 to |ids|
      invariant Result(executable, skipped, overrides, crosses) == Collect(verdict, ids[..n])
    {
      assert ids[..n + 1][..n] == ids[..n];
      var judged := VerdictOn(w, kind, scope, approver, now, ids[n]);
      assert judged == verdict(ids[n]);
      match judged {
        case Skip(code) =>
          skipped := skipped + [Skipped(ids[n], code)];
        case Execute(record) =>
          if record.crosses {
            crosses := true;
          }
          overrides := overrides + CodeSet(record.overrides);
          executable := executable + [record];
      }
    }
    assert ids[..|ids|] == ids;
    r := Result(executable, skipped, overrides, crosses);
  }

  function ExecutableIds(records: seq<Executable>): seq<nat> {
    seq(|records|, i requires 0 <= i < |records| => records[i].id)
  }

  function SkippedIds(skips: seq<Skipped>): seq<nat> {
    seq(|skips|, i requires 0 <= i < |skips| => skips[i].id)
  }

  lemma VerdictKeepsId(w: World, kind: Kind, scope: ActionScope, approver: User, now: int, id: nat)
    ensures var v := VerdictOn(w, kind, scope, approver, now, id);
            && (v.Execute? ==> v.record.id == id && (v.record.crosses ==> v.record.overrides != []))
            && (v.Skip? ==> v.code != "")
  {
  }

  ghost predicate KeepsIds(verdict: nat -> Verdict) {
    forall id: nat :: verdict(id).Execute? ==> verdict(id).record.id == id
                                               && (verdict(id).record.crosses ==> verdict(id).record.overrides != [])
  }

  lemma VerdictsKeepIds(w: World, kind: Kind, scope: ActionScope, approver: User, now: int)
    ensures KeepsIds((id: nat) => VerdictOn(w, kind, scope, approver, now, id))
  {
    forall id: nat
      ensures var v := VerdictOn(w, kind, scope, approver, now, id);
              v.Execute? ==> v.record.id == id && (v.record.crosses ==> v.record.overrides != [])
    {
      VerdictKeepsId(w, kind, scope, approver, now, id);
    }
  }

  lemma {:induction false} CollectsEach(verdict: nat -> Verdict, ids: seq<nat>)
    requires KeepsIds(verdict)
    ensures var r := Collect(verdict, ids);
            && multiset(ExecutableIds(r.executable)) + multiset(SkippedIds(r.skipped)) == multiset(ids)
            && |r.executable| + |r.skipped| == |ids|
            && (forall x | x in r.executable :: x.id in ids && verdict(x.id) == Execute(x))
            && (forall x | x in r.skipped :: x.id in ids && verdict(x.id) == Skip(x.code))
  {
    if ids != [] {
      var front, last := ids[..|ids| - 1], ids[|ids| - 1];
      CollectsEach(verdict, front);
      assert ids == front + [last];
      var r := Collect(verdict, front);
      match verdict(last) {
        case Skip(code) => assert SkippedIds(r.skipped + [Skipped(last, code)]) == SkippedIds(r.skipped) + [last];
        case Execute(record) => assert ExecutableIds(r.executable + [record]) == ExecutableIds(r.executable) + [last];
      }
    }
  }

  lemma {:induction false} CollectsOverrides(verdict: nat -> Verdict, ids: seq<nat>)
    requires KeepsIds(verdict)
    ensures var r := Collect(verdict, ids);
            && (r.RequiresOverride() <==> exists x | x in r.executable :: x.overrides != [])
            && (r.crosses <==> exists x | x in r.executable :: x.crosses)
            && (r.crosses ==> r.RequiresOverride())
  {
    if ids != [] {
      var front, last := ids[..|ids| - 1], ids[|ids| - 1];
      CollectsOverrides(verdict, front);
      var v := verdict(last);
      var r := Collect(verdict, front);
      if v.Execute? {
        assert v.record.overrides != [] ==> v.record.overrides[0] in CodeSet(v.record.overrides);
        assert forall x :: x in r.executable + [v.record] <==> x in r.executable || x == v.record;
      }
    }
  }

  /** Every target ends on exactly one list, with the record its own verdict gives. */
  lemma EveryTargetJudgedOnce(w: World, kind: Kind, scope: ActionScope, approver: User, now: int, ids: seq<nat>)
    ensures var r := Revalidate(w, kind, scope, approver, now, ids);
            && multiset(ExecutableIds(r.executable)) + multiset(SkippedIds(r.skipped)) == multiset(ids)
            && |r.executable| + |r.skipped| == |ids|
            && (forall x | x in r.executable ::
                  x.id in ids && VerdictOn(w, kind, scope, approver, now, x.id) == Execute(x))
            && (forall x | x in r.skipped ::
                  x.id in ids && VerdictOn(w, kind, scope, approver, now, x.id) == Skip(x.code))
  {
    VerdictsKeepIds(w, kind, scope, approver, now);
    CollectsEach((id: nat) => VerdictOn(w, kind, scope, approver, now, id), ids);
  }

  /** An override is required exactly when some executable record carries a code, and crossing scopes is one. */
  lemma OverrideExactly(w: World, kind: Kind, scope: ActionScope, approver: User, now: int, ids: seq<nat>)
    ensures var r := Revalidate(w, kind, scope, approver, now, ids);
            && (r.RequiresOverride() <==> exists x | x in r.executable :: x.overrides != [])
            && (r.crosses <==> exists x | x in r.executable :: x.crosses)
            && (r.crosses ==> r.RequiresOverride())
  {
    VerdictsKeepIds(w, kind, scope, approver, now);
    CollectsOverrides((id: nat) => VerdictOn(w, kind, scope, approver, now, id), ids);
  }

  /** A pass executes exactly the targets that are ready by the tables. */
  lemma ExecutesTheReady(w: World, kind: Kind, scope: ActionScope, approver: User, now: int, ids: seq<nat>, id: nat)
    ensures id in ExecutableIds(Revalidate(w, kind, scope, approver, now, ids).executable) <==>
            id in ids && ReadyFor(w, kind, approver, now, id)
  {
    var r := Revalidate(w, kind, scope, approver, now, ids);
    EveryTargetJudgedOnce(w, kind, scope, approver, now, ids);
    ExecutedExactlyWhenReady(w, kind, scope, approver, now, id);
    var done, skipped := ExecutableIds(r.executable), SkippedIds(r.skipped);
    if id in done {
      var i :| 0 <= i < |done| && done[i] == id;
      assert r.executable[i] in r.executable;
    }
    if id in ids && id !in done {
      assert id in multiset(ids) && id in multiset(skipped);
      var i :| 0 <= i < |skipped| && skipped[i] == id;
      assert r.skipped[i] in r.skipped;
    }
  }

  lemma DistinctTargets(w: World, kind: Kind, scope: ActionScope, approver: User, now: int, ids: seq<nat>)
    requires Sorting.Distinct(ids)
    ensures Sorting.Distinct(ExecutableIds(Revalidate(w, kind, scope, approver, now, ids).executable))
  {
    EveryTargetJudgedOnce(w, kind, scope, approver, now, ids);
    var r := Revalidate(w, kind, scope, approver, now, ids);
    Sorting.PartOfDistinct(ExecutableIds(r.executable), SkippedIds(r.skipped), ids);
  }
}
