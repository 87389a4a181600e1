/** Who may approve an action. */
module Policy {
  import opened Options

  const SCOPED_APPROVAL_RECORD_LIMIT := 20

  datatype Permission = RequestAction | ApproveScoped | ApproveGlobal | ApproveOverride | SelfApprove

  datatype Scope = Scope(scopeType: string, key: string, department: Option<nat>)

  /** An access context: who the user is and what they may do, read once per request. */
  datatype User = User(id: nat, permissions: set<Permission>, scopes: seq<Scope>) {
    predicate HasGlobalScope() {
      exists s | s in scopes :: s.scopeType == "global" && s.key == "global"
    }

    predicate HasScope(scopeType: string, key: string) {
      exists s | s in scopes :: s.scopeType == scopeType && s.key == key
    }

    /** Row-level security: the departments whose rows the user's session can read. */
    predicate Sees(department: nat) {
      HasGlobalScope() || exists s | s in scopes :: s.scopeType == "department" && s.department == Some(department)
    }
  }

  datatype Decision = Decision(allowed: bool, code: string, requiresAdmin: bool, selfApproved: bool)

  function Deny(code: string, requiresAdmin: bool): Decision {
    Decision(false, code, requiresAdmin, false)
  }

  predicate MatchesScope(user: User, scopeType: string, scopeKey: string) {
    scopeType != "" && scopeKey != "" && (user.HasGlobalScope() || user.HasScope(scopeType, scopeKey))
  }

  function EvaluateApproval(user: User, requester: nat, scopeType: string, scopeKey: string, recordCount: int,
                            crossesScopes: bool, requiresOverride: bool): Decision
  {
    if recordCount < 0 then Deny("invalid_record_count", false)
    else
      var own := user.id == requester;
      if own && SelfApprove !in user.permissions then Deny("self_approval_permission_required", false)
      else if requiresOverride && ApproveOverride !in user.permissions then Deny("override_permission_required", true)
      else
        var needsGlobal := crossesScopes || recordCount > SCOPED_APPROVAL_RECORD_LIMIT || scopeType == "global";
        if needsGlobal && ApproveGlobal !in user.permissions then Deny("global_approval_permission_required", true)
        else if needsGlobal && !user.HasGlobalScope() then Deny("global_scope_required", true)
        else if !needsGlobal && ApproveScoped !in user.permissions then
          Deny("scoped_approval_permission_required", false)
        else if !needsGlobal && !MatchesScope(user, scopeType, scopeKey) then Deny("approval_scope_required", false)
        else Decision(true, "approval_allowed", needsGlobal || requiresOverride, own)
  }

  /** The override permission is the missing one exactly when nothing denied earlier is missing. */
  lemma OverrideDenied(user: User, requester: nat, scopeType: string, scopeKey: string, recordCount: int,
                       crossesScopes: bool, requiresOverride: bool)
    ensures var d := EvaluateApproval(user, requester, scopeType, scopeKey, recordCount, crossesScopes,
                                      requiresOverride);
            && (d.code == "override_permission_required" <==>
                  && recordCount >= 0 && (user.id == requester ==> SelfApprove in user.permissions)
                  && requiresOverride && ApproveOverride !in user.permissions)
            && (d.allowed && requiresOverride ==> ApproveOverride in user.permissions)
  {
  }

  /** The global scope shows every row, a department scope the rows of its department, and nothing else shows any. */
  lemma SeesExactly(user: User, department: nat)
    ensures user.Sees(department) <==>
            exists s | s in user.scopes ::
              || (s.scopeType == "global" && s.key == "global")
              || (s.scopeType == "department" && s.department == Some(department))
  {
  }

  // ----- when a decision is allowed, over permissions and scopes alone

  predicate HoldsGlobal(user: User) {
    ApproveGlobal in user.permissions && exists s | s in user.scopes :: s.scopeType == "global" && s.key == "global"
  }

  /** The scoped permission, and a scope that is the request's own or the global one. */
  predicate HoldsScoped(user: User, scopeType: string, scopeKey: string) {
    && ApproveScoped in user.permissions && scopeType != "" && scopeKey != ""
    && exists s | s in user.scopes ::
         (s.scopeType == "global" && s.key == "global") || (s.scopeType == scopeType && s.key == scopeKey)
  }

  /** More than twenty records, a global request, or records outside its scope take the global permission. */
  predicate Wide(scopeType: string, recordCount: int, crossesScopes: bool) {
    recordCount > 20 || scopeType == "global" || crossesScopes
  }

  /** Nobody decides on an own request, or overrides the policy, without the permission for it. */
  predicate MayTry(user: User, requester: nat, recordCount: int, requiresOverride: bool) {
    && recordCount >= 0
    && (user.id == requester ==> SelfApprove in user.permissions)
    && (requiresOverride ==> ApproveOverride in user.permissions)
  }

  lemma ApprovalExactly(user: User, requester: nat, scopeType: string, scopeKey: string, recordCount: int,
                        crossesScopes: bool, requiresOverride: bool)
    ensures var d := EvaluateApproval(user, requester, scopeType, scopeKey, recordCount, crossesScopes,
                                      requiresOverride);
            var wide := Wide(scopeType, recordCount, crossesScopes);
            && (d.allowed <==>
                  && MayTry(user, requester, recordCount, requiresOverride)
                  && (if wide then HoldsGlobal(user) else HoldsScoped(user, scopeType, scopeKey)))
            && (d.allowed ==> (d.requiresAdmin <==> wide || requiresOverride)
                              && (d.selfApproved <==> user.id == requester))
  {
    ScopesMatch(user, scopeType, scopeKey);
  }

  lemma ScopesMatch(user: User, scopeType: string, scopeKey: string)
    ensures HoldsGlobal(user) <==> ApproveGlobal in user.permissions && user.HasGlobalScope()
    ensures HoldsScoped(user, scopeType, scopeKey) <==>
            ApproveScoped in user.permissions && MatchesScope(user, scopeType, scopeKey)
  {
  }

  lemma EarlyDenials(user: User, requester: nat, scopeType: string, scopeKey: string, recordCount: int,
                     crossesScopes: bool, requiresOverride: bool)
    ensures var code := EvaluateApproval(user, requester, scopeType, scopeKey, recordCount, crossesScopes,
                                         requiresOverride).code;
            && (code == "invalid_record_count" <==> recordCount < 0)
            && (code == "self_approval_permission_required" <==>
                  recordCount >= 0 && user.id == requester && SelfApprove !in user.permissions)
  {
  }

  /** Past the checks that come first, the code of a denial names the permission or the scope that is missing. */
  lemma LateDenials(user: User, requester: nat, scopeType: string, scopeKey: string, recordCount: int,
                    crossesScopes: bool, requiresOverride: bool)
    requires MayTry(user, requester, recordCount, requiresOverride)
    ensures var code := EvaluateApproval(user, requester, scopeType, scopeKey, recordCount, crossesScopes,
                                         requiresOverride).code;
            && (Wide(scopeType, recordCount, crossesScopes) ==>
                  && (code == "global_approval_permission_required" <==> ApproveGlobal !in user.permissions)
                  && (code == "global_scope_required" <==>
                        ApproveGlobal in user.permissions && !HoldsGlobal(user)))
            && (!Wide(scopeType, recordCount, crossesScopes) ==>
                  && (code == "scoped_approval_permission_required" <==> ApproveScoped !in user.permissions)
                  && (code == "approval_scope_required" <==>
                        ApproveScoped in user.permissions && !HoldsScoped(user, scopeType, scopeKey)))
  {
    ScopesMatch(user, scopeType, scopeKey);
  }
}
