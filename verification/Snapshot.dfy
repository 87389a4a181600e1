/** The preview stored with an action, what every later step checks of it, and the two ways it is rewritten. */
module Snapshot {
  import opened Options
  import opened Revalidation
  import Sorting
  import Strings

  const ANALYST_THRESHOLD := 20
  const OVER_THRESHOLD := "record_count_over_analyst_threshold"
  const GLOBAL_SCOPE_REQUEST := "global_scope_request"
  const CROSS_SCOPE := "cross_scope_target"
  const PRIVILEGED := "privileged_user"
  const OPEN_CRITICAL := "open_critical_security_event"
  const SERVICE_ACCOUNT := "service_account_excluded"
  const RECENT_LOGIN := "recent_successful_login"
  const DISABLE_TABLES := {"directory_users", "login_events", "groups", "user_group_memberships", "security_events"}

  datatype RecordType = LicenseAssignment | DirectoryUserRecord | OtherRecord

  /** `spelling` tells apart the texts that parse to one id; 0 is the canonical one. */
  datatype Record = Record(recordType: RecordType, id: nat, spelling: nat, assignment: Option<nat>, user: Option<nat>,
                           scopeId: Option<nat>,
                           scopeType: string, scopeKey: string, shownAs: Option<string>, product: Option<string>,
                           vendor: Option<string>, cost: Option<Cost>, reasonCode: string, reason: string,
                           highConfidence: Option<bool>, overrideCodes: Option<seq<string>>)

  datatype Summary =
    | ReclaimSummary(affected: int, users: int, normal: int, skipped: int, overrides: int, highConfidence: int,
                     savings: Cost, overrideSavings: Cost)
    | DisableSummary(affected: int, privileged: int, serviceAccounts: int, openEvents: int, recentLogins: int,
                     normal: int, skipped: int, overrides: int)

  datatype Flag = Flag(code: string, requiresAdmin: bool, overridable: bool)

  /** The four `revalidation_` keys an escalation adds to the stored policy, always together. */
  datatype Escalation = Escalation(flags: seq<Flag>, crosses: bool)

  datatype PolicyFlags = PolicyFlags(flags: seq<Flag>, requiresAdmin: bool, crosses: bool, requiresOverride: bool,
                                     escalation: Option<Escalation>)

  datatype Exclusion = Exclusion(code: string, count: int)

  datatype Resource = Resource(table: string, name: string, sensitivity: string)
  datatype ResourceDecision = ResourceDecision(table: string, allowed: bool, permission: string)

  /** The requester's access when the preview was built; only a disable action's validator reads it. */
  datatype Access = Access(requesterScopes: seq<nat>, targetScopes: seq<nat>, resources: seq<Resource>, user: nat,
                           permissions: seq<string>, assignedScopes: seq<nat>, allowed: bool, reason: string,
                           permission: string, decisions: seq<ResourceDecision>, role: string, readOnly: bool,
                           rowSecurity: bool)

  datatype Preview = Preview(kind: Kind, requester: nat, scopeType: string, scopeKey: string, scopeId: Option<nat>,
                             department: Option<nat>, eligible: seq<Record>, overrides: seq<Record>,
                             skipped: seq<Record>,
                             exclusions: seq<Exclusion>, summary: Summary, policy: PolicyFlags, requiresAdmin: bool,
                             recordCount: int, skippedCount: int, access: Access)

  // ----- single records

  predicate Money(cost: Cost) {
    cost.Amount? && cost.usd >= 0.0
  }

  predicate NonEmpty(text: Option<string>) {
    text.Some? && text.value != ""
  }

  predicate Described(r: Record) {
    r.scopeType != "" && r.scopeKey != "" && r.reasonCode != "" && r.reason != ""
  }

  /** `actionable` records may be executed; `override` ones carry the codes that need an override. */
  predicate OverridesFit(r: Record, override: bool) {
    if override
    then && r.overrideCodes.Some? && r.overrideCodes.value != [] && "" !in r.overrideCodes.value
         && r.reasonCode == r.overrideCodes.value[0]
    else r.overrideCodes.None?
  }

  predicate ReclaimRecordValid(r: Record, actionable: bool, override: bool) {
    && r.recordType != OtherRecord
    && (actionable ==> r.recordType == LicenseAssignment)
    && r.assignment == (if r.recordType == LicenseAssignment then Some(r.id) else None)
    && Described(r) && r.highConfidence.Some?
    && (actionable ==>
          r.scopeId.Some? && NonEmpty(r.shownAs) && NonEmpty(r.product) && NonEmpty(r.vendor) && r.cost.Some?)
    && (r.cost.Some? ==> Money(r.cost.value))
    && OverridesFit(r, override)
  }

  predicate DisableRecordValid(r: Record, actionable: bool, override: bool) {
    && r.recordType == DirectoryUserRecord && r.user == Some(r.id)
    && Described(r)
    && (actionable ==> r.scopeId.Some? && r.shownAs.Some?)
    && OverridesFit(r, override)
    && (override ==> Sorting.Unique(r.overrideCodes.value) == r.overrideCodes.value)
  }

  predicate RecordValid(kind: Kind, r: Record, actionable: bool, override: bool) {
    if kind == Reclaim then ReclaimRecordValid(r, actionable, override) else DisableRecordValid(r, actionable, override)
  }

  predicate RecordsValid(kind: Kind, records: seq<Record>, actionable: bool, override: bool) {
    forall r | r in records :: RecordValid(kind, r, actionable, override)
  }

  // ----- figures over the records

  function Ids(records: seq<Record>): (ids: seq<nat>)
    ensures |ids| == |records| && forall i | 0 <= i < |ids| :: ids[i] == records[i].id
  {
    seq(|records|, i requires 0 <= i < |records| => records[i].id)
  }

  /** The ids as they are written. */
  function RawIds(records: seq<Record>): (ids: seq<(nat, nat)>)
    ensures |ids| == |records| && forall i | 0 <= i < |ids| :: ids[i] == (records[i].id, records[i].spelling)
  {
    seq(|records|, i requires 0 <= i < |records| => (records[i].id, records[i].spelling))
  }

  function ReasonCodes(records: seq<Record>): (codes: seq<string>)
    ensures |codes| == |records| && forall i | 0 <= i < |codes| :: codes[i] == records[i].reasonCode
  {
    seq(|records|, i requires 0 <= i < |records| => records[i].reasonCode)
  }

  function CodesOf(r: Record): seq<string> {
    if r.overrideCodes.Some? then r.overrideCodes.value else []
  }

  function OverrideCodes(records: seq<Record>): seq<string> {
    if records == [] then [] else OverrideCodes(records[..|records| - 1]) + CodesOf(records[|records| - 1])
  }

  function CountCode(records: seq<Record>, code: string): nat {
    if records == [] then 0
    else CountCode(records[..|records| - 1], code) + (if code in CodesOf(records[|records| - 1]) then 1 else 0)
  }

  function CountReason(records: seq<Record>, code: string): nat {
    multiset(ReasonCodes(records))[code]
  }

  function CountConfident(records: seq<Record>): nat {
    if records == [] then 0
    else CountConfident(records[..|records| - 1])
         + (if records[|records| - 1].highConfidence == Some(true) then 1 else 0)
  }

  function Savings(records: seq<Record>): real {
    if records == [] then 0.0
    else
      var cost := records[|records| - 1].cost;
      Savings(records[..|records| - 1]) + (if cost.Some? && cost.value.Amount? then cost.value.usd else 0.0)
  }

  // ----- what the figures count

  ghost function Number(records: seq<Record>, p: Record -> bool): nat {
    |set i | 0 <= i < |records| && p(records[i])|
  }

  lemma NumberFront(front: seq<Record>, last: Record, p: Record -> bool)
    ensures Number(front + [last], p) == Number(front, p) + if p(last) then 1 else 0
  {
    var all := front + [last];
    var before := set i | 0 <= i < |front| && p(front[i]);
    var after := set i | 0 <= i < |all| && p(all[i]);
    if p(last) {
      assert after == before + {|front|};
    } else {
      assert after == before;
    }
  }

  lemma {:induction false} ConfidentExactly(records: seq<Record>)
    ensures CountConfident(records) == Number(records, (r: Record) => r.highConfidence == Some(true))
  {
    if records != [] {
      var front, last := records[..|records| - 1], records[|records| - 1];
      ConfidentExactly(front);
      NumberFront(front, last, (r: Record) => r.highConfidence == Some(true));
      assert records == front + [last];
    }
  }

  function Carries(code: string): Record -> bool {
    (r: Record) => r.overrideCodes.Some? && code in r.overrideCodes.value
  }

  /** How many records carry a code, and which codes are carried at all. */
  lemma {:induction false} CodesExactly(records: seq<Record>, code: string)
    ensures CountCode(records, code) == Number(records, Carries(code))
    ensures code in OverrideCodes(records) <==> exists r | r in records :: Carries(code)(r)
  {
    if records != [] {
      var front, last := records[..|records| - 1], records[|records| - 1];
      CodesExactly(front, code);
      NumberFront(front, last, Carries(code));
      assert records == front + [last];
    }
  }

  function Reasoned(code: string): Record -> bool {
    (r: Record) => r.reasonCode == code
  }

  lemma {:induction false} ReasonsExactly(records: seq<Record>, code: string)
    ensures CountReason(records, code) == Number(records, Reasoned(code))
  {
    if records != [] {
      var front, last := records[..|records| - 1], records[|records| - 1];
      ReasonsExactly(front, code);
      NumberFront(front, last, Reasoned(code));
      assert records == front + [last];
      assert ReasonCodes(records) == ReasonCodes(front) + [last.reasonCode];
    }
  }

  /** A preview that validates states the true numbers of its own records. */
  lemma ValidFigures(s: Preview)
    requires Valid(s)
    ensures s.recordCount == |s.eligible| + |s.overrides| && s.skippedCount == |s.skipped|
    ensures s.summary.affected == s.recordCount && s.summary.normal == |s.eligible|
            && s.summary.overrides == |s.overrides| && s.summary.skipped == |s.skipped|
    ensures s.kind == Reclaim ==>
              && s.summary.ReclaimSummary? && 0 <= s.summary.users <= s.recordCount
              && s.summary.highConfidence
                 == Number(s.eligible + s.overrides, (r: Record) => r.highConfidence == Some(true))
              && s.summary.savings == Amount(Savings(s.eligible))
              && s.summary.overrideSavings == Amount(Savings(s.overrides))
    ensures s.kind == Disable ==>
              && s.summary.DisableSummary?
              && s.summary.privileged == Number(s.overrides, Carries("privileged_user"))
              && s.summary.openEvents == Number(s.overrides, Carries("open_critical_security_event"))
              && s.summary.serviceAccounts == Number(s.skipped, Reasoned("service_account_excluded"))
              && s.summary.recentLogins == Number(s.skipped, Reasoned("recent_successful_login"))
    ensures s.policy.crosses <==> exists r | r in s.overrides :: Carries("cross_scope_target")(r)
    ensures s.policy.requiresOverride <==> exists r :: r in s.overrides
  {
    CodesExactly(s.overrides, "cross_scope_target");
    assert s.overrides != [] ==> s.overrides[0] in s.overrides;
    if s.kind == Reclaim {
      ConfidentExactly(s.eligible + s.overrides);
      ConfidentSum(s.eligible, s.overrides);
    } else {
      CodesExactly(s.overrides, "privileged_user");
      CodesExactly(s.overrides, "open_critical_security_event");
      ReasonsExactly(s.skipped, "service_account_excluded");
      ReasonsExactly(s.skipped, "recent_successful_login");
    }
  }

  /** A preview that validates flags exactly what its records and its scope call for, each code once and each flag one
      that an admin may override. */
  lemma ValidFlags(s: Preview, code: string)
    requires Valid(s)
    ensures code in FlagCodes(s.policy.flags) <==>
            || (exists r | r in s.overrides :: Carries(code)(r))
            || (s.recordCount > 20 && code == "record_count_over_analyst_threshold")
            || (s.scopeType == "global" && code == "global_scope_request")
    ensures Sorting.Distinct(FlagCodes(s.policy.flags))
    ensures forall f | f in s.policy.flags :: f.code != "" && f.requiresAdmin && f.overridable
    ensures s.policy.requiresAdmin <==> s.policy.flags != []
    ensures s.requiresAdmin <==> s.policy.flags != [] || s.policy.escalation.Some?
  {
    CodesExactly(s.overrides, code);
    assert code in FlagCodes(s.policy.flags) <==> code in ExpectedFlags(s);
    assert s.policy.flags != [] ==> FlagCodes(s.policy.flags)[0] in CodeSet(FlagCodes(s.policy.flags));
    assert s.policy.flags == [] ==> CodeSet(FlagCodes(s.policy.flags)) == {};
  }

  /** Whatever a valid preview would execute is described, in a scope, and of the kind of its action. */
  lemma ValidTargets(s: Preview, r: Record)
    requires Valid(s) && (r in s.eligible || r in s.overrides)
    ensures r.scopeType != "" && r.scopeKey != "" && r.reasonCode != "" && r.reason != "" && r.scopeId.Some?
    ensures r in s.eligible ==> r in s.overrides || r.overrideCodes.None?
    ensures r in s.overrides ==>
              r.overrideCodes.Some? && r.overrideCodes.value != [] && r.reasonCode == r.overrideCodes.value[0]
    ensures s.kind == Reclaim ==>
              && r.recordType == LicenseAssignment && r.assignment == Some(r.id) && r.highConfidence.Some?
              && (match r.cost { case Some(Amount(usd)) => usd >= 0.0 case _ => false })
              && (forall text | text in [r.shownAs, r.product, r.vendor] :: text.Some? && text.value != "")
    ensures s.kind == Disable ==>
              r.recordType == DirectoryUserRecord && r.user == Some(r.id) && r.shownAs.Some?
  {
    if r in s.eligible {
      assert RecordValid(s.kind, r, true, false);
    }
    if r in s.overrides {
      assert RecordValid(s.kind, r, true, true);
    }
  }

  /** A valid disable preview was built for its own requester, who was allowed exactly the five tables, in a read-only
      session under row security. */
  lemma ValidAccess(s: Preview, table: string)
    requires Valid(s) && s.kind == Disable
    ensures s.access.user == s.requester && s.access.allowed && s.access.permissions == ["can_request_action"]
    ensures s.access.role == "queryops_query_runtime" && s.access.readOnly && s.access.rowSecurity
    ensures s.scopeId.Some? && s.scopeId.value in s.access.targetScopes
    ensures table in DISABLE_TABLES <==> exists r | r in s.access.resources :: r.table == table
    ensures table in DISABLE_TABLES <==>
            exists d | d in s.access.decisions :: d.table == table && d.allowed && d.permission == "can_request_action"
  {
    ResourceTables(s.access.resources, table);
    assert table in AllowedTables(s.access.decisions) <==> table in DISABLE_TABLES;
  }

  lemma ResourceTables(resources: seq<Resource>, table: string)
    ensures table in CodeSet(Tables(resources)) <==> exists r | r in resources :: r.table == table
  {
    if table in CodeSet(Tables(resources)) {
      var i :| 0 <= i < |resources| && Tables(resources)[i] == table;
      assert resources[i] in resources;
    }
    if r :| r in resources && r.table == table {
      var i :| 0 <= i < |resources| && resources[i] == r;
      assert Tables(resources)[i] == table;
    }
  }

  lemma {:induction false} ConfidentSum(a: seq<Record>, b: seq<Record>)
    ensures CountConfident(a + b) == CountConfident(a) + CountConfident(b)
  {
    if b == [] {
      assert a + b == a;
    } else {
      ConfidentSum(a, b[..|b| - 1]);
      assert (a + b)[..|a + b| - 1] == a + b[..|b| - 1];
    }
  }

  /** Savings are a sum: they do not depend on where a list is cut, and one record adds its cost. */
  lemma {:induction false} SavingsAdd(a: seq<Record>, b: seq<Record>)
    ensures Savings(a + b) == Savings(a) + Savings(b)
    ensures |a| == 1 && a[0].cost.Some? && a[0].cost.value.Amount? ==> Savings(a) == a[0].cost.value.usd
  {
    if b == [] {
      assert a + b == a;
    } else {
      SavingsAdd(a, b[..|b| - 1]);
      assert (a + b)[..|a + b| - 1] == a + b[..|b| - 1];
    }
  }

  // ----- policy flags and exclusions

  predicate FlagValid(flag: Flag) {
    flag.code != "" && flag.requiresAdmin && flag.overridable
  }

  function FlagCodes(flags: seq<Flag>): (codes: seq<string>)
    ensures |codes| == |flags| && forall i | 0 <= i < |codes| :: codes[i] == flags[i].code
  {
    seq(|flags|, i requires 0 <= i < |flags| => flags[i].code)
  }

  ghost predicate FlagsMatch(flags: seq<Flag>, expected: set<string>) {
    && (forall f | f in flags :: FlagValid(f))
    && Sorting.Distinct(FlagCodes(flags))
    && CodeSet(FlagCodes(flags)) == expected
  }

  function ExpectedFlags(s: Preview): set<string> {
    CodeSet(OverrideCodes(s.overrides))
    + (if |s.eligible| + |s.overrides| > ANALYST_THRESHOLD then {OVER_THRESHOLD} else {})
    + (if s.scopeType == "global" then {GLOBAL_SCOPE_REQUEST} else {})
  }

  ghost predicate PolicyMatches(s: Preview) {
    var expected := ExpectedFlags(s);
    && FlagsMatch(s.policy.flags, expected)
    && s.policy.requiresAdmin == (expected != {})
    && s.requiresAdmin == (expected != {} || s.policy.escalation.Some?)
    && s.policy.requiresOverride == (s.overrides != [])
    && s.policy.crosses == (CROSS_SCOPE in OverrideCodes(s.overrides))
  }

  function ExclusionCodes(exclusions: seq<Exclusion>): (codes: seq<string>)
    ensures |codes| == |exclusions| && forall i | 0 <= i < |codes| :: codes[i] == exclusions[i].code
  {
    seq(|exclusions|, i requires 0 <= i < |exclusions| => exclusions[i].code)
  }

  predicate CountsNatural(exclusions: seq<Exclusion>) {
    forall e | e in exclusions :: e.count >= 0
  }

  /** One entry for each code that occurs, with the number of its occurrences. */
  ghost predicate CountsOf(exclusions: seq<Exclusion>, codes: seq<string>) {
    && Sorting.Distinct(ExclusionCodes(exclusions))
    && (forall c | c in codes :: c in ExclusionCodes(exclusions))
    && (forall e | e in exclusions :: e.code in codes && e.count == multiset(codes)[e.code])
  }

  // ----- the validators

  predicate ReclaimCounts(s: Preview) {
    && s.summary.ReclaimSummary?
    && s.summary.normal == |s.eligible| && s.summary.overrides == |s.overrides| && s.summary.skipped == |s.skipped|
    && s.summary.affected == |s.eligible| + |s.overrides|
    && s.recordCount == |s.eligible| + |s.overrides| && s.skippedCount == |s.skipped|
    && 0 <= s.summary.users <= s.summary.affected
    && 0 <= s.summary.highConfidence <= s.summary.affected
    && Money(s.summary.savings) && Money(s.summary.overrideSavings)
  }

  predicate ReclaimFigures(s: Preview)
    requires ReclaimCounts(s)
  {
    && s.summary.highConfidence == CountConfident(s.eligible) + CountConfident(s.overrides)
    && s.summary.savings.usd == Savings(s.eligible)
    && s.summary.overrideSavings.usd == Savings(s.overrides)
  }

  ghost predicate ReclaimValid(s: Preview) {
    && RecordsValid(Reclaim, s.eligible, true, false) && RecordsValid(Reclaim, s.overrides, true, true)
    && RecordsValid(Reclaim, s.skipped, false, false)
    && ReclaimCounts(s) && ReclaimFigures(s)
    && CountsNatural(s.exclusions)
    && PolicyMatches(s)
  }

  predicate DisableCounts(s: Preview) {
    && s.summary.DisableSummary?
    && s.summary.normal == |s.eligible| && s.summary.overrides == |s.overrides| && s.summary.skipped == |s.skipped|
    && s.summary.affected == |s.eligible| + |s.overrides|
    && s.summary.privileged == CountCode(s.overrides, PRIVILEGED)
    && s.summary.openEvents == CountCode(s.overrides, OPEN_CRITICAL)
    && s.summary.serviceAccounts == CountReason(s.skipped, SERVICE_ACCOUNT)
    && s.summary.recentLogins == CountReason(s.skipped, RECENT_LOGIN)
    && s.recordCount == |s.eligible| + |s.overrides| && s.skippedCount == |s.skipped|
  }

  function Tables(resources: seq<Resource>): seq<string> {
    seq(|resources|, i requires 0 <= i < |resources| => resources[i].table)
  }

  function AllowedTables(decisions: seq<ResourceDecision>): set<string> {
    set d | d in decisions && d.allowed && d.permission == "can_request_action" :: d.table
  }

  ghost predicate AccessValid(s: Preview) {
    var a := s.access;
    && Sorting.Distinct(a.requesterScopes) && Sorting.Distinct(a.targetScopes) && Sorting.Distinct(a.assignedScopes)
    && s.scopeId.Some? && s.scopeId.value in a.targetScopes
    && (forall r | r in a.resources :: r.table != "" && r.name != "" && r.sensitivity != "")
    && Sorting.Distinct(Tables(a.resources)) && CodeSet(Tables(a.resources)) == DISABLE_TABLES
    && a.user == s.requester && a.permissions == ["can_request_action"]
    && a.allowed && a.reason == "all_required_resources_authorized" && a.permission == "can_request_action"
    && |a.decisions| == |DISABLE_TABLES| && AllowedTables(a.decisions) == DISABLE_TABLES
    && a.role == "queryops_query_runtime" && a.readOnly && a.rowSecurity
  }

  ghost predicate DisableValid(s: Preview) {
    && RecordsValid(Disable, s.eligible, true, false) && RecordsValid(Disable, s.overrides, true, true)
    && RecordsValid(Disable, s.skipped, false, false)
    && Sorting.Distinct(RawIds(s.eligible + s.overrides))
    && DisableCounts(s)
    && CountsNatural(s.exclusions)
    && CountsOf(s.exclusions, ReasonCodes(s.skipped) + OverrideCodes(s.overrides))
    && PolicyMatches(s) && AccessValid(s)
  }

  ghost predicate Valid(s: Preview) {
    if s.kind == Reclaim then ReclaimValid(s) else DisableValid(s)
  }

  // ----- the targets of the action

  function TargetType(kind: Kind): RecordType {
    if kind == Reclaim then LicenseAssignment else DirectoryUserRecord
  }

  function IdsOfType(records: seq<Record>, recordType: RecordType): seq<nat> {
    if records == [] then []
    else IdsOfType(records[..|records| - 1], recordType)
         + (if records[|records| - 1].recordType == recordType then [records[|records| - 1].id] else [])
  }

  function OrderedIds(ids: seq<nat>): seq<nat> {
    Sorting.Sort((a: nat, b: nat) => a <= b, Sorting.Unique(ids))
  }

  /** The persisted targets, in order; nothing when they do not add up to the recorded count. */
  function TargetIds(s: Preview): Option<seq<nat>> {
    var ids := OrderedIds(IdsOfType(s.eligible + s.overrides, TargetType(s.kind)));
    if |ids| == s.recordCount then Some(ids) else None
  }

  lemma {:induction false} AllOfType(records: seq<Record>, recordType: RecordType)
    requires forall r | r in records :: r.recordType == recordType
    ensures IdsOfType(records, recordType) == Ids(records)
  {
    if records != [] {
      AllOfType(records[..|records| - 1], recordType);
    }
  }

  lemma OrderedIdsExactly(ids: seq<nat>)
    ensures Sorting.Distinct(OrderedIds(ids))
    ensures |OrderedIds(ids)| == |ids| <==> Sorting.Distinct(ids)
    ensures Sorting.Distinct(ids) ==> multiset(OrderedIds(ids)) == multiset(ids)
  {
    Sorting.UniqueLength(ids);
    Sorting.UniqueDistinct(ids);
    Sorting.SameElements(OrderedIds(ids), Sorting.Unique(ids));
    Sorting.DistinctPermutation(Sorting.Unique(ids), OrderedIds(ids));
  }

  lemma TargetsListed(s: Preview)
    requires Valid(s)
    ensures s.recordCount == |s.eligible + s.overrides|
    ensures IdsOfType(s.eligible + s.overrides, TargetType(s.kind)) == Ids(s.eligible + s.overrides)
  {
    forall r | r in s.eligible + s.overrides ensures r.recordType == TargetType(s.kind) {
      assert r in s.eligible || r in s.overrides;
    }
    AllOfType(s.eligible + s.overrides, TargetType(s.kind));
  }

  /** A valid preview names its targets exactly when no record is listed twice. */
  lemma TargetsExactly(s: Preview)
    requires Valid(s)
    ensures TargetIds(s).Some? <==> Sorting.Distinct(Ids(s.eligible + s.overrides))
    ensures TargetIds(s).Some? ==> Sorting.Distinct(TargetIds(s).value)
                                   && multiset(TargetIds(s).value) == multiset(Ids(s.eligible + s.overrides))
                                   && |TargetIds(s).value| == s.recordCount
  {
    TargetsListed(s);
    OrderedIdsExactly(Ids(s.eligible + s.overrides));
  }

  /** The disable validator compares the ids as written, so a valid preview names its targets exactly when no id
      is written in two ways. */
  lemma DisableTargetsExactly(s: Preview)
    requires s.kind == Disable && Valid(s)
    ensures var records := s.eligible + s.overrides;
            TargetIds(s).Some? <==>
            forall i, j | 0 <= i < j < |records| && records[i].id == records[j].id ::
              records[i].spelling == records[j].spelling
  {
    TargetsExactly(s);
    var records := s.eligible + s.overrides;
    assert Sorting.Distinct(RawIds(records));
    RawDistinct(records);
  }

  lemma RawDistinct(records: seq<Record>)
    requires Sorting.Distinct(RawIds(records))
    ensures Sorting.Distinct(Ids(records)) <==>
            forall i, j | 0 <= i < j < |records| && records[i].id == records[j].id ::
              records[i].spelling == records[j].spelling
  {
    forall i, j | 0 <= i < j < |records| ensures RawIds(records)[i] != RawIds(records)[j] {
    }
  }

  /** In the canonical spelling, which previews are built with, a valid disable preview always names its targets. */
  lemma DisableTargetsExist(s: Preview)
    requires s.kind == Disable && Valid(s)
    requires forall r | r in s.eligible + s.overrides :: r.spelling == 0
    ensures TargetIds(s).Some?
  {
    DisableTargetsExactly(s);
  }

  // ----- escalation

  function Escalated(s: Preview, flags: seq<Flag>, crosses: bool): Preview {
    s.(policy := s.policy.(escalation := Some(Escalation(flags, crosses))), requiresAdmin := true)
  }

  // ----- completion

  function SafeReason(kind: Kind, code: string): string {
    if code == "scope_unavailable" then
      if kind == Reclaim then "The record is no longer in an authorized scope."
      else "The user is no longer in an authorized scope."
    else if kind == Reclaim then
      if code == "record_unavailable" then "The record is no longer available for this action."
      else if code == "already_reclaimed" then "The license assignment was already reclaimed."
      else if code == "assignment_suspended" then "The license assignment is suspended."
      else if code == "recent_usage" then "The license was used too recently."
      else if code == "invalid_current_state" then "The record no longer has a valid executable state."
      else ""
    else
      if code == "record_not_found_or_not_authorized" then "The selected record is unavailable."
      else if code == "user_already_disabled" then "The user account is already disabled."
      else if code == SERVICE_ACCOUNT then "Service accounts are excluded from this action."
      else if code == RECENT_LOGIN then "The user logged in successfully within the last 90 days."
      else if code == "invalid_current_state" then "The user no longer has a valid executable state."
      else ""
  }

  /** A skip of the final pass, as the record that is stored for it. */
  function SkipRecord(kind: Kind, skip: Skipped): Record {
    var reason := SafeReason(kind, skip.code);
    if kind == Reclaim then
      Record(LicenseAssignment, skip.id, 0, Some(skip.id), None, None, "unavailable", "unavailable", None, None, None,
             None,
             skip.code, reason, Some(false), None)
    else
      Record(DirectoryUserRecord, skip.id, 0, None, Some(skip.id), None, "unavailable", "unavailable", None, None,
             None, None,
             skip.code, reason, None, None)
  }

  function SkipRecords(kind: Kind, skips: seq<Skipped>): (records: seq<Record>)
    ensures |records| == |skips|
    ensures forall i | 0 <= i < |skips| :: records[i] == SkipRecord(kind, skips[i])
  {
    seq(|skips|, i requires 0 <= i < |skips| => SkipRecord(kind, skips[i]))
  }

  function CountEntries(codes: seq<string>, all: seq<string>): (r: seq<Exclusion>)
    ensures |r| == |codes|
    ensures forall i | 0 <= i < |r| :: r[i] == Exclusion(codes[i], multiset(all)[codes[i]])
  {
    seq(|codes|, i requires 0 <= i < |codes| => Exclusion(codes[i], multiset(all)[codes[i]]))
  }

  function InOrder(keys: seq<string>): (r: seq<string>)
    ensures multiset(r) == multiset(keys)
  {
    Sorting.Sort((a: string, b: string) => Strings.StringLe(a, b), keys)
  }

  function SkipCounts(codes: seq<string>): seq<Exclusion> {
    CountEntries(InOrder(Sorting.Unique(codes)), codes)
  }

  method Tally(codes: seq<string>) returns (counts: map<string, int>, keys: seq<string>)
    ensures keys == Sorting.Unique(codes)
    ensures forall c | c in codes :: c in counts && counts[c] == multiset(codes)[c]
    ensures forall c | c in counts :: c in codes
  {
    counts, keys := map[], [];
    for n := 0 to |codes|
      invariant keys == Sorting.Unique(codes[..n])
      invariant forall c | c in codes[..n] :: c in counts && counts[c] == multiset(codes[..n])[c]
      invariant forall c | c in counts :: c in codes[..n]
    {
      assert codes[..n + 1] == codes[..n] + [codes[n]];
      assert codes[..n + 1][..n] == codes[..n];
      if codes[n] !in counts {
        keys := keys + [codes[n]];
        counts := counts[codes[n] := 1];
      } else {
        counts := counts[codes[n] := counts[codes[n]] + 1];
      }
    }
    assert codes[..|codes|] == codes;
  }

  method CountSkips(codes: seq<string>) returns (entries: seq<Exclusion>)
    ensures entries == SkipCounts(codes)
  {
    var counts, keys := Tally(codes);
    var sorted := InOrder(keys);
    Sorting.SameElements(sorted, keys);
    entries := [];
    for n := 0 to |sorted|
      invariant |entries| == n
      invariant forall i | 0 <= i < n :: entries[i] == Exclusion(sorted[i], multiset(codes)[sorted[i]])
    {
      assert sorted[n] in keys;
      entries := entries + [Exclusion(sorted[n], counts[sorted[n]])];
    }
    assert entries == CountEntries(sorted, codes);
  }

  lemma SkipCountsExact(codes: seq<string>)
    ensures CountsOf(SkipCounts(codes), codes) && CountsNatural(SkipCounts(codes))
    ensures Sorting.SortedBy((a: string, b: string) => Strings.StringLe(a, b), ExclusionCodes(SkipCounts(codes)))
  {
    var le := (a: string, b: string) => Strings.StringLe(a, b);
    var keys := Sorting.Unique(codes);
    var sorted := Sorting.Sort(le, keys);
    Sorting.UniqueDistinct(codes);
    Sorting.SameElements(sorted, keys);
    Sorting.DistinctPermutation(keys, sorted);
    Strings.StringsTotal(keys);
    Sorting.SortSorted(le, keys);
    assert ExclusionCodes(SkipCounts(codes)) == sorted;
  }

  function CompletedSummary(summary: Summary, skipped: seq<Record>): Summary {
    match summary
    case ReclaimSummary(_, _, _, _, _, _, _, _) => summary.(skipped := |skipped|)
    case DisableSummary(_, _, _, _, _, _, _, _) =>
      summary.(skipped := |skipped|, serviceAccounts := CountReason(skipped, SERVICE_ACCOUNT),
               recentLogins := CountReason(skipped, RECENT_LOGIN))
  }

  function CompletedPreview(s: Preview, skips: seq<Skipped>): Preview {
    var skipped := s.skipped + SkipRecords(s.kind, skips);
    s.(skipped := skipped, exclusions := SkipCounts(ReasonCodes(skipped) + OverrideCodes(s.overrides)),
       skippedCount := |skipped|, summary := CompletedSummary(s.summary, skipped))
  }

  // ----- both rewrites keep the preview valid

  lemma EscalationKeepsValid(s: Preview, flags: seq<Flag>, crosses: bool)
    requires Valid(s)
    ensures Valid(Escalated(s, flags, crosses))
    ensures TargetIds(Escalated(s, flags, crosses)) == TargetIds(s)
  {
    var t := Escalated(s, flags, crosses);
    assert ExpectedFlags(t) == ExpectedFlags(s);
    assert PolicyMatches(t);
    if s.kind == Reclaim {
      assert ReclaimCounts(t) && ReclaimFigures(t);
    } else {
      assert DisableCounts(t) && AccessValid(t);
    }
  }

  predicate ReclaimSkip(code: string) {
    || code == "record_unavailable" || code == "already_reclaimed" || code == "assignment_suspended"
    || code == "recent_usage" || code == "invalid_current_state" || code == "scope_unavailable"
  }

  predicate DisableSkip(code: string) {
    || code == "record_not_found_or_not_authorized" || code == "user_already_disabled" || code == SERVICE_ACCOUNT
    || code == RECENT_LOGIN || code == "invalid_current_state" || code == "scope_unavailable"
  }

  lemma ReclaimReason(code: string)
    requires ReclaimSkip(code)
    ensures |code| > 0 && |SafeReason(Reclaim, code)| > 0
  {
  }

  lemma DisableReason(code: string)
    requires DisableSkip(code)
    ensures |code| > 0 && |SafeReason(Disable, code)| > 0
  {
  }

  lemma ReclaimSkips(w: World, scope: ActionScope, approver: Policy.User, now: int, id: nat)
    ensures var v := ReclaimVerdict(w, scope, approver, now, id); v.Skip? ==> ReclaimSkip(v.code)
  {
  }

  lemma DisableSkips(w: World, scope: ActionScope, approver: Policy.User, now: int, id: nat)
    ensures var v := DisableVerdict(w, scope, approver, now, id); v.Skip? ==> DisableSkip(v.code)
  {
  }

  /** Every skip a verdict can give has its text. */
  lemma SkipsDescribed(w: World, kind: Kind, scope: ActionScope, approver: Policy.User, now: int, id: nat)
    ensures var v := VerdictOn(w, kind, scope, approver, now, id);
            v.Skip? ==> v.code != "" && SafeReason(kind, v.code) != ""
  {
    var v := VerdictOn(w, kind, scope, approver, now, id);
    if v.Skip? {
      if kind == Reclaim {
        ReclaimSkips(w, scope, approver, now, id);
        ReclaimReason(v.code);
      } else {
        DisableSkips(w, scope, approver, now, id);
        DisableReason(v.code);
      }
    }
  }

  predicate Describable(kind: Kind, skips: seq<Skipped>) {
    forall skip | skip in skips :: skip.code != "" && SafeReason(kind, skip.code) != ""
  }

  lemma SkipRecordsValid(kind: Kind, skips: seq<Skipped>)
    requires Describable(kind, skips)
    ensures RecordsValid(kind, SkipRecords(kind, skips), false, false)
  {
    var records := SkipRecords(kind, skips);
    forall r | r in records ensures RecordValid(kind, r, false, false) {
      var i :| 0 <= i < |records| && records[i] == r;
      assert skips[i] in skips;
    }
  }

  /** A stored skip keeps the target's id and the code of its verdict, never counts as confident, and could not pass for
      a record that may be executed. */
  lemma SkipsCannotRun(kind: Kind, skip: Skipped, override: bool)
    ensures var r := SkipRecord(kind, skip);
            && r.id == skip.id && r.spelling == 0 && r.reasonCode == skip.code
            && r.highConfidence != Some(true) && r.cost.None? && !RecordValid(kind, r, true, override)
  {
  }

  lemma CompletionKeepsValid(s: Preview, skips: seq<Skipped>)
    requires Valid(s) && Describable(s.kind, skips)
    ensures Valid(CompletedPreview(s, skips))
  {
    var t := CompletedPreview(s, skips);
    SkipRecordsValid(s.kind, skips);
    assert forall r | r in t.skipped :: r in s.skipped || r in SkipRecords(s.kind, skips);
    SkipCountsExact(ReasonCodes(t.skipped) + OverrideCodes(t.overrides));
    assert ExpectedFlags(t) == ExpectedFlags(s);
    assert PolicyMatches(t);
    if s.kind == Reclaim {
      assert ReclaimCounts(t) && ReclaimFigures(t);
    } else {
      assert DisableCounts(t) && AccessValid(t);
    }
  }

  /** No record is lost: what was not executed joins the earlier skips. */
  lemma CompletionConserves(w: World, s: Preview, scope: ActionScope, approver: Policy.User, now: int)
    requires Valid(s) && TargetIds(s).Some?
    ensures var final := Revalidate(w, s.kind, scope, approver, now, TargetIds(s).value);
            && |final.executable| + CompletedPreview(s, final.skipped).skippedCount == s.recordCount + s.skippedCount
            && Describable(s.kind, final.skipped)
  {
    var ids := TargetIds(s).value;
    EveryTargetJudgedOnce(w, s.kind, scope, approver, now, ids);
    TargetsExactly(s);
    var final := Revalidate(w, s.kind, scope, approver, now, ids);
    forall skip | skip in final.skipped ensures skip.code != "" && SafeReason(s.kind, skip.code) != "" {
      SkipsDescribed(w, s.kind, scope, approver, now, skip.id);
    }
    assert s.skippedCount == |s.skipped|;
  }
}
