/** The validator of a stored preview, as the loops that run before every decision. */
module Validator {
  import opened Options
  import opened Revalidation
  import opened Snapshot
  import Sorting

  method CheckRecords(kind: Kind, records: seq<Record>, actionable: bool, override: bool) returns (ok: bool)
    ensures ok == RecordsValid(kind, records, actionable, override)
  {
    for n := 0 to |records|
      invariant forall i | 0 <= i < n :: RecordValid(kind, records[i], actionable, override)
    {
      if !RecordValid(kind, records[n], actionable, override) {
        return false;
      }
    }
    return true;
  }

  method AllDifferent<T(==)>(items: seq<T>) returns (ok: bool)
    ensures ok == Sorting.Distinct(items)
  {
    var seen: set<T> := {};
    for n := 0 to |items|
      invariant forall x :: x in seen <==> x in items[..n]
      invariant Sorting.Distinct(items[..n])
    {
      if items[n] in seen {
        var k :| 0 <= k < n && items[k] == items[n];
        return false;
      }
      seen := seen + {items[n]};
      assert items[..n + 1] == items[..n] + [items[n]];
    }
    assert items[..|items|] == items;
    return true;
  }

  method CheckFlags(flags: seq<Flag>, expected: set<string>) returns (ok: bool)
    ensures ok == FlagsMatch(flags, expected)
  {
    var codes: seq<string> := [];
    for n := 0 to |flags|
      invariant codes == FlagCodes(flags)[..n]
      invariant forall i | 0 <= i < n :: FlagValid(flags[i])
    {
      if !FlagValid(flags[n]) {
        assert flags[n] in flags;
        return false;
      }
      codes := codes + [flags[n].code];
    }
    assert codes == FlagCodes(flags);
    var different := AllDifferent(codes);
    return different && CodeSet(codes) == expected;
  }

  method CheckExclusions(exclusions: seq<Exclusion>) returns (ok: bool)
    ensures ok == CountsNatural(exclusions)
  {
    for n := 0 to |exclusions|
      invariant forall i | 0 <= i < n :: exclusions[i].count >= 0
    {
      if exclusions[n].count < 0 {
        assert exclusions[n] in exclusions;
        return false;
      }
    }
    return true;
  }

  /** The dictionary of the stored counts, unless a code is stored twice. */
  method StoredCounts(exclusions: seq<Exclusion>) returns (counts: Option<map<string, int>>)
    ensures counts.Some? <==> Sorting.Distinct(ExclusionCodes(exclusions))
    ensures counts.Some? ==> forall e | e in exclusions :: e.code in counts.value && counts.value[e.code] == e.count
    ensures counts.Some? ==> forall c | c in counts.value :: c in ExclusionCodes(exclusions)
  {
    var actual: map<string, int> := map[];
    for n := 0 to |exclusions|
      invariant Sorting.Distinct(ExclusionCodes(exclusions)[..n])
      invariant forall i | 0 <= i < n ::
                  exclusions[i].code in actual && actual[exclusions[i].code] == exclusions[i].count
      invariant forall c :: c in actual <==> c in ExclusionCodes(exclusions)[..n]
    {
      var codes := ExclusionCodes(exclusions);
      var code := codes[n];
      if code in actual {
        var k :| 0 <= k < n && codes[k] == code;
        return None;
      }
      actual := actual[code := exclusions[n].count];
      assert codes[..n + 1] == codes[..n] + [code];
    }
    assert ExclusionCodes(exclusions)[..|exclusions|] == ExclusionCodes(exclusions);
    return Some(actual);
  }

  lemma CountsAgree(exclusions: seq<Exclusion>, codes: seq<string>, actual: map<string, int>,
                    expected: map<string, int>)
    requires Sorting.Distinct(ExclusionCodes(exclusions))
    requires forall e | e in exclusions :: e.code in actual && actual[e.code] == e.count
    requires forall c | c in actual :: c in ExclusionCodes(exclusions)
    requires forall c | c in codes :: c in expected && expected[c] == multiset(codes)[c]
    requires forall c | c in expected :: c in codes
    ensures actual == expected <==> CountsOf(exclusions, codes)
  {
    if CountsOf(exclusions, codes) {
      forall c | c in actual ensures c in expected && actual[c] == expected[c] {
        var i :| 0 <= i < |exclusions| && ExclusionCodes(exclusions)[i] == c;
        assert exclusions[i] in exclusions;
      }
      forall c | c in expected ensures c in actual {
        var i :| 0 <= i < |exclusions| && ExclusionCodes(exclusions)[i] == c;
        assert exclusions[i] in exclusions;
      }
    }
    if actual == expected {
      forall c | c in codes ensures c in ExclusionCodes(exclusions) {
        assert c in actual;
      }
    }
  }

  method CheckCounts(exclusions: seq<Exclusion>, codes: seq<string>) returns (ok: bool)
    ensures ok == CountsOf(exclusions, codes)
  {
    var actual := StoredCounts(exclusions);
    if actual.None? {
      return false;
    }
    var expected, _ := Tally(codes);
    CountsAgree(exclusions, codes, actual.value, expected);
    return actual.value == expected;
  }

  method CheckPolicy(s: Preview) returns (ok: bool)
    ensures ok == PolicyMatches(s)
  {
    var expected := ExpectedFlags(s);
    var flags := CheckFlags(s.policy.flags, expected);
    return flags
      && s.policy.requiresAdmin == (expected != {})
      && s.requiresAdmin == (expected != {} || s.policy.escalation.Some?)
      && s.policy.requiresOverride == (s.overrides != [])
      && s.policy.crosses == (CROSS_SCOPE in OverrideCodes(s.overrides));
  }

  method CheckAccess(s: Preview) returns (ok: bool)
    ensures ok == AccessValid(s)
  {
    var a := s.access;
    var requester := AllDifferent(a.requesterScopes);
    var target := AllDifferent(a.targetScopes);
    var own := AllDifferent(a.assignedScopes);
    var tables := AllDifferent(Tables(a.resources));
    return requester && target && own && tables
      && s.scopeId.Some? && s.scopeId.value in a.targetScopes
      && (forall r | r in a.resources :: r.table != "" && r.name != "" && r.sensitivity != "")
      && CodeSet(Tables(a.resources)) == DISABLE_TABLES
      && a.user == s.requester && a.permissions == ["can_request_action"]
      && a.allowed && a.reason == "all_required_resources_authorized" && a.permission == "can_request_action"
      && |a.decisions| == |DISABLE_TABLES| && AllowedTables(a.decisions) == DISABLE_TABLES
      && a.role == "queryops_query_runtime" && a.readOnly && a.rowSecurity;
  }

  method CheckAllRecords(s: Preview) returns (ok: bool)
    ensures ok == (RecordsValid(s.kind, s.eligible, true, false) && RecordsValid(s.kind, s.overrides, true, true)
                   && RecordsValid(s.kind, s.skipped, false, false))
  {
    var eligible := CheckRecords(s.kind, s.eligible, true, false);
    var overrides := CheckRecords(s.kind, s.overrides, true, true);
    var skipped := CheckRecords(s.kind, s.skipped, false, false);
    return eligible && overrides && skipped;
  }

  method ValidateReclaim(s: Preview) returns (ok: bool)
    requires s.kind == Reclaim
    ensures ok == ReclaimValid(s)
  {
    var records := CheckAllRecords(s);
    if !records || !ReclaimCounts(s) || !ReclaimFigures(s) {
      return false;
    }
    var exclusions := CheckExclusions(s.exclusions);
    var policy := CheckPolicy(s);
    return exclusions && policy;
  }

  method ValidateDisable(s: Preview) returns (ok: bool)
    requires s.kind == Disable
    ensures ok == DisableValid(s)
  {
    var records := CheckAllRecords(s);
    var different := AllDifferent(RawIds(s.eligible + s.overrides));
    if !records || !different || !DisableCounts(s) {
      return false;
    }
    var exclusions := CheckExclusions(s.exclusions);
    var counts := CheckCounts(s.exclusions, ReasonCodes(s.skipped) + OverrideCodes(s.overrides));
    var policy := CheckPolicy(s);
    var access := CheckAccess(s);
    return exclusions && counts && policy && access;
  }

  method Validate(s: Preview) returns (ok: bool)
    ensures ok == Valid(s)
  {
    if s.kind == Reclaim {
      ok := ValidateReclaim(s);
    } else {
      ok := ValidateDisable(s);
    }
  }

  function PlainRecord(id: nat): Record {
    Record(LicenseAssignment, id, 0, Some(id), None, Some(0), "department", "it", Some("a"), Some("b"), Some("c"),
           Some(Amount(1.0)), "no_recorded_usage", "unused", Some(true), None)
  }

  /** A reclaim preview that lists one assignment twice. */
  function RepeatedReclaim(access: Access): Preview {
    Preview(Reclaim, 0, "department", "it", Some(0), Some(0), [PlainRecord(7), PlainRecord(7)], [], [], [],
            ReclaimSummary(2, 1, 2, 0, 0, 2, Amount(2.0), Amount(0.0)),
            PolicyFlags([], false, false, false, None), false, 2, 0, access)
  }

  /** The reclaim validator lets a repeated record through, and revalidation then refuses the preview. */
  lemma ReclaimMayRepeat(access: Access)
    ensures Valid(RepeatedReclaim(access)) && TargetIds(RepeatedReclaim(access)).None?
  {
    var s := RepeatedReclaim(access);
    assert s.eligible[..1] == [PlainRecord(7)] && s.eligible[..1][..0] == [];
    assert CountConfident(s.eligible) == 2 && Savings(s.eligible) == 2.0;
    assert OverrideCodes(s.overrides) == [];
    assert ExpectedFlags(s) == {};
    assert PolicyMatches(s);
    assert Ids(s.eligible + s.overrides)[0] == Ids(s.eligible + s.overrides)[1];
    TargetsExactly(s);
  }

  function RespelledRecord(spelling: nat): Record {
    Record(DirectoryUserRecord, 7, spelling, None, Some(7), Some(0), "department", "it", Some("a"), None, None, None,
           "inactive_human_user", "unused", None, None)
  }

  const TABLES := ["directory_users", "login_events", "groups", "user_group_memberships", "security_events"]

  function DescribedTables(tables: seq<string>): (r: seq<Resource>)
    ensures |r| == |tables| && forall i | 0 <= i < |r| :: r[i] == Resource(tables[i], "name", "internal")
  {
    seq(|tables|, i requires 0 <= i < |tables| => Resource(tables[i], "name", "internal"))
  }

  function Granted(tables: seq<string>): (r: seq<ResourceDecision>)
    ensures |r| == |tables| && forall i | 0 <= i < |r| ::
            r[i] == ResourceDecision(tables[i], true, "can_request_action")
  {
    seq(|tables|, i requires 0 <= i < |tables| => ResourceDecision(tables[i], true, "can_request_action"))
  }

  function PlainAccess(): Access {
    Access([], [0], DescribedTables(TABLES), 0, ["can_request_action"], [], true, "all_required_resources_authorized",
           "can_request_action", Granted(TABLES), "queryops_query_runtime", true, true)
  }

  lemma TablesDiffer()
    ensures Sorting.Distinct(TABLES) && Sorting.Elements(TABLES) == DISABLE_TABLES && |DISABLE_TABLES| == 5
    ensures forall t | t in TABLES :: t != ""
  {
    var t := TABLES;
    assert |t[0]| == 15 && |t[1]| == 12 && |t[2]| == 6 && |t[3]| == 22 && |t[4]| == 15;
    assert t[0][0] == 'd' && t[4][0] == 's';
    Sorting.ElementsSize(t);
  }

  lemma GrantedAll(tables: seq<string>)
    ensures AllowedTables(Granted(tables)) == Sorting.Elements(tables)
    ensures CodeSet(Tables(DescribedTables(tables))) == Sorting.Elements(tables)
    ensures Tables(DescribedTables(tables)) == tables
  {
    var decisions := Granted(tables);
    forall t | t in tables ensures t in AllowedTables(decisions) {
      var i :| 0 <= i < |tables| && tables[i] == t;
      assert decisions[i] in decisions;
    }
    assert Tables(DescribedTables(tables)) == tables;
  }

  lemma PlainAccessValid(s: Preview)
    requires s.access == PlainAccess() && s.scopeId == Some(0) && s.requester == 0
    ensures AccessValid(s)
  {
    TablesDiffer();
    GrantedAll(TABLES);
    forall r | r in s.access.resources ensures r.table != "" && r.name != "" && r.sensitivity != "" {
      var i :| 0 <= i < |s.access.resources| && s.access.resources[i] == r;
      assert TABLES[i] in TABLES;
      assert |r.name| == 4 && |r.sensitivity| == 8;
    }
  }

  /** A disable preview that lists one user under two spellings of the id. */
  function RespelledDisable(access: Access): Preview {
    Preview(Disable, 0, "department", "it", Some(0), Some(0), [RespelledRecord(0), RespelledRecord(1)], [], [], [],
            DisableSummary(2, 0, 0, 0, 0, 2, 0, 0), PolicyFlags([], false, false, false, None), false, 2, 0, access)
  }

  lemma RespelledRecords(access: Access)
    ensures var s := RespelledDisable(access);
            && RecordsValid(Disable, s.eligible, true, false) && RecordsValid(Disable, s.overrides, true, true)
            && RecordsValid(Disable, s.skipped, false, false)
            && Sorting.Distinct(RawIds(s.eligible + s.overrides)) && !Sorting.Distinct(Ids(s.eligible + s.overrides))
            && DisableCounts(s)
  {
    var s := RespelledDisable(access);
    forall r | r in s.eligible ensures DisableRecordValid(r, true, false) {
      assert |r.scopeType| == 10 && |r.scopeKey| == 2 && |r.reason| == 6 && |r.reasonCode| == 19;
    }
    var records := s.eligible + s.overrides;
    assert RawIds(records)[0] == (7, 0) && RawIds(records)[1] == (7, 1);
    assert Ids(records)[0] == Ids(records)[1];
  }

  lemma RespelledPolicy(access: Access)
    ensures var s := RespelledDisable(access);
            && PolicyMatches(s) && CountsNatural(s.exclusions)
            && CountsOf(s.exclusions, ReasonCodes(s.skipped) + OverrideCodes(s.overrides))
  {
    var s := RespelledDisable(access);
    assert ReasonCodes(s.skipped) + OverrideCodes(s.overrides) == [];
    assert |s.scopeType| == 10 && |"global"| == 6;
    assert ExpectedFlags(s) == {};
  }

  /** The disable validator lets a user spelled in two ways through, and revalidation then refuses the preview. */
  lemma DisableMayRespell()
    ensures Valid(RespelledDisable(PlainAccess())) && TargetIds(RespelledDisable(PlainAccess())).None?
  {
    RespelledRecords(PlainAccess());
    RespelledPolicy(PlainAccess());
    PlainAccessValid(RespelledDisable(PlainAccess()));
    TargetsExactly(RespelledDisable(PlainAccess()));
  }
}
