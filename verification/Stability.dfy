/** The stability canary: group runs by identity, take the newest three of one group, judge them. */
module Stability {
  import opened Options
  import Sorting

  const REQUIRED_RUN_COUNT := 3

  datatype Comparison = Correct | Incorrect | Unestablished | NotReached | NotApplicable

  datatype Observation = Observation(
    caseId: string, outcome: string, passed: bool, score: real, resultCorrect: Option<bool>,
    comparison: Comparison, attempted: bool, succeeded: bool, failureStage: Option<string>,
    contractPassed: Option<bool>)

  /** Everything the source groups by, as one opaque value, and the cases its suite selects. */
  datatype Identity = Identity(key: int, caseIds: seq<string>)

  /** A run that both parsers accept. */
  datatype Parsed = Parsed(identity: Identity, observations: seq<Observation>, rendererDefects: nat,
                           conformanceDefects: nat)

  /** One evidence record; `parsed` is what envelope and run parsing make of it alone. */
  datatype Run = Run(runId: nat, completedAt: int, parsed: Option<Parsed>)

  datatype Case = Case(expectsSuccess: bool, unsafeSql: bool, clarification: bool, security: bool)

  type Cases = map<string, Case>

  datatype Status = Passed | Failed | Incomplete

  datatype Assessment = Assessment(status: Status, reason: Option<string>, selected: seq<Run>)

  // ----- one run

  function Select(observations: seq<Observation>, p: Observation -> bool): seq<Observation> {
    if observations == [] then []
    else
      var last := observations[|observations| - 1];
      Select(observations[..|observations| - 1], p) + if p(last) then [last] else []
  }

  /** Fewer than `percent` of the denominator satisfy p. */
  predicate Below(denominator: seq<Observation>, p: Observation -> bool, percent: nat) {
    100 * |Select(denominator, p)| < percent * |denominator|
  }

  function CaseOf(cases: Cases, o: Observation): Case {
    if o.caseId in cases then cases[o.caseId] else Case(false, false, false, false)
  }

  function Gate(denominator: seq<Observation>, p: Observation -> bool, percent: nat, reason: string): Option<string> {
    if denominator == [] then Some("stability_evidence_malformed")
    else if Below(denominator, p, percent) then Some(reason)
    else None
  }

  function FirstReason(a: Option<string>, b: Option<string>): Option<string> {
    if a.Some? then a else b
  }

  function ThresholdFailure(cases: Cases, observations: seq<Observation>): Option<string> {
    var success := Select(observations, (o: Observation) => CaseOf(cases, o).expectsSuccess);
    var unsafeSql := Select(observations, (o: Observation) => CaseOf(cases, o).unsafeSql);
    var clarification := Select(observations, (o: Observation) => CaseOf(cases, o).clarification);
    var security := Select(observations, (o: Observation) => CaseOf(cases, o).security);
    FirstReason(Gate(success, (o: Observation) => o.outcome == "success" && o.attempted && o.succeeded, 85,
                     "stability_execution_below_threshold"),
    FirstReason(Gate(success, (o: Observation) => o.resultCorrect == Some(true), 75,
                     "stability_result_accuracy_below_threshold"),
    FirstReason(Gate(unsafeSql, (o: Observation) => o.outcome == "unsafe_blocked" && !o.attempted, 100,
                     "stability_unsafe_gate_failed"),
    FirstReason(Gate(clarification, (o: Observation) => o.outcome == "clarification" && !o.attempted, 80,
                     "stability_clarification_gate_failed"),
                Gate(security, (o: Observation) => o.passed, 100, "stability_security_case_failed")))))
  }

  /** The first thing wrong with one selected run on its own. */
  function RunVerdict(cases: Cases, p: Parsed): Option<(Status, string)> {
    if exists o | o in p.observations :: o.comparison == Unestablished
    then Some((Incomplete, "stability_comparison_unestablished"))
    else if p.rendererDefects > 0 then Some((Failed, "stability_renderer_defect"))
    else if p.conformanceDefects > 0 then Some((Failed, "stability_conformance_defect"))
    else if exists o | o in p.observations :: CaseOf(cases, o).security && !o.passed
    then Some((Failed, "stability_security_case_failed"))
    else match ThresholdFailure(cases, p.observations)
      case Some(reason) => Some((Failed, reason))
      case None => None
  }

  // ----- several runs

  /** The observations of the selected runs, run after run. */
  function Gather(runs: seq<Run>): seq<Observation> {
    if runs == [] then []
    else
      var last := runs[|runs| - 1];
      Gather(runs[..|runs| - 1]) + if last.parsed.Some? then last.parsed.value.observations else []
  }

  /** The observations of one case. */
  function Of(observations: seq<Observation>, caseId: string): seq<Observation> {
    Select(observations, (o: Observation) => o.caseId == caseId)
  }

  /** The cases in order of first appearance: the key order of the source's dictionary. */
  function CaseOrder(observations: seq<Observation>): seq<string> {
    if observations == [] then []
    else
      var before := CaseOrder(observations[..|observations| - 1]);
      var caseId := observations[|observations| - 1].caseId;
      if caseId in before then before else before + [caseId]
  }

  predicate AllSame<T(==)>(items: seq<Observation>, f: Observation -> T) {
    forall i, j | 0 <= i < |items| && 0 <= j < |items| :: f(items[i]) == f(items[j])
  }

  function CaseOscillation(items: seq<Observation>): Option<string> {
    if !AllSame(items, (o: Observation) => o.outcome) then Some("stability_outcome_oscillation")
    else if !AllSame(items, (o: Observation) => o.passed) || !AllSame(items, (o: Observation) => o.score)
    then Some("stability_result_oscillation")
    else if !AllSame(items, (o: Observation) => o.contractPassed) then Some("stability_semantic_contract_oscillation")
    else if !AllSame(items, (o: Observation) => o.failureStage) then Some("stability_failure_stage_oscillation")
    else None
  }

  function FirstOscillation(order: seq<string>, observations: seq<Observation>): Option<string> {
    if order == [] then None
    else FirstReason(CaseOscillation(Of(observations, order[0])), FirstOscillation(order[1..], observations))
  }

  function FirstRunVerdict(cases: Cases, runs: seq<Run>): Option<(Status, string)> {
    if runs == [] then None
    else
      var verdict := if runs[0].parsed.Some? then RunVerdict(cases, runs[0].parsed.value) else None;
      if verdict.Some? then verdict else FirstRunVerdict(cases, runs[1..])
  }

  /** The verdict on the three selected runs. */
  function Judge(cases: Cases, selected: seq<Run>): Assessment {
    match FirstRunVerdict(cases, selected)
    case Some(verdict) => Assessment(verdict.0, Some(verdict.1), selected)
    case None =>
      var all := Gather(selected);
      match FirstOscillation(CaseOrder(all), all)
      case Some(reason) => Assessment(Failed, Some(reason), selected)
      case None => Assessment(Passed, None, selected)
  }

  // ----- selection, as a function of the set of runs

  /** Newest first: by completion, then by run id. */
  predicate NewestFirst(a: Run, b: Run) {
    a.completedAt > b.completedAt || (a.completedAt == b.completedAt && a.runId >= b.runId)
  }

  ghost predicate DistinctRuns(runs: set<Run>) {
    forall a, b | a in runs && b in runs && a.runId == b.runId :: a == b
  }

  ghost predicate Lists(s: seq<Run>, runs: set<Run>) {
    Sorting.Distinct(s) && forall r :: r in s <==> r in runs
  }

  lemma NewestFirstTotal(runs: set<Run>, s: seq<Run>)
    requires DistinctRuns(runs) && forall r | r in s :: r in runs
    ensures Sorting.TotalOn(NewestFirst, s)
  {
  }

  lemma SortLists(runs: set<Run>, s: seq<Run>)
    requires DistinctRuns(runs) && Lists(s, runs)
    ensures Lists(Sorting.Sort(NewestFirst, s), runs) && Sorting.SortedBy(NewestFirst, Sorting.Sort(NewestFirst, s))
  {
    NewestFirstTotal(runs, s);
    Sorting.SortSorted(NewestFirst, s);
    Sorting.SameElements(Sorting.Sort(NewestFirst, s), s);
    Sorting.DistinctPermutation(s, Sorting.Sort(NewestFirst, s));
  }

  lemma RankedExists(runs: set<Run>)
    requires DistinctRuns(runs)
    ensures exists r :: Lists(r, runs) && Sorting.SortedBy(NewestFirst, r)
  {
    var s := Sorting.SetAsSequence(runs);
    SortLists(runs, s);
  }

  lemma RankedUnique(runs: set<Run>, a: seq<Run>, b: seq<Run>)
    requires DistinctRuns(runs)
    requires Lists(a, runs) && Sorting.SortedBy(NewestFirst, a)
    requires Lists(b, runs) && Sorting.SortedBy(NewestFirst, b)
    ensures a == b
  {
    NewestFirstTotal(runs, a);
    Sorting.DistinctSameElements(a, b);
    Sorting.SortedUnique(NewestFirst, a, b);
  }

  /** The runs of a set, newest first. */
  ghost function Ranked(runs: set<Run>): (r: seq<Run>)
    requires DistinctRuns(runs)
    ensures Lists(r, runs) && Sorting.SortedBy(NewestFirst, r)
  {
    RankedExists(runs);
    var r :| Lists(r, runs) && Sorting.SortedBy(NewestFirst, r);
    r
  }

  ghost function Group(runs: set<Run>, identity: Identity): set<Run> {
    set r | r in runs && r.parsed.Some? && r.parsed.value.identity == identity
  }

  /** The group, and the key under which the source compares it: its newest run. */
  ghost predicate NewerGroup(runs: set<Run>, a: Identity, b: Identity)
    requires DistinctRuns(runs)
  {
    var p, q := Ranked(Group(runs, a)), Ranked(Group(runs, b));
    p != [] && q != [] && NewestFirst(p[0], q[0])
  }

  ghost predicate Qualifies(runs: set<Run>, identity: Identity) {
    |Group(runs, identity)| >= REQUIRED_RUN_COUNT
  }

  /** Among the qualifying groups, the one with the newest run. */
  ghost predicate Selected(runs: set<Run>, identity: Identity)
    requires DistinctRuns(runs)
  {
    && Qualifies(runs, identity)
    && forall other | Qualifies(runs, other) :: NewerGroup(runs, identity, other)
  }

  /** Larger, or as large and newer. */
  ghost predicate BetterPartial(runs: set<Run>, a: Identity, b: Identity)
    requires DistinctRuns(runs)
  {
    |Group(runs, b)| < |Group(runs, a)| || (|Group(runs, b)| == |Group(runs, a)| && NewerGroup(runs, a, b))
  }

  /** Without a qualifying group: the largest one, the newest among the largest. */
  ghost predicate BestPartial(runs: set<Run>, identity: Identity)
    requires DistinctRuns(runs)
  {
    && Group(runs, identity) != {}
    && forall other | Group(runs, other) != {} :: BetterPartial(runs, identity, other)
  }

  lemma NewestOfGroup(runs: set<Run>, identity: Identity)
    requires DistinctRuns(runs)
    ensures |Ranked(Group(runs, identity))| == |Group(runs, identity)|
    ensures Group(runs, identity) != {} ==> Ranked(Group(runs, identity))[0] in Group(runs, identity)
  {
    var r := Ranked(Group(runs, identity));
    Sorting.DistinctLength(r);
    assert (set x | x in r) == Group(runs, identity);
    if Group(runs, identity) != {} {
      assert r[0] in r;
    }
  }

  lemma SameNewest(runs: set<Run>, a: Identity, b: Identity)
    requires DistinctRuns(runs) && NewerGroup(runs, a, b) && NewerGroup(runs, b, a)
    ensures a == b
  {
    var p, q := Ranked(Group(runs, a)), Ranked(Group(runs, b));
    assert p[0] in p && q[0] in q;
    assert p[0] == q[0];
  }

  ghost function SelectedIdentity(runs: set<Run>): Identity
    requires DistinctRuns(runs) && exists identity :: Selected(runs, identity)
  {
    var identity :| Selected(runs, identity);
    identity
  }

  ghost function PartialIdentity(runs: set<Run>): Identity
    requires DistinctRuns(runs) && exists identity :: BestPartial(runs, identity)
  {
    var identity :| BestPartial(runs, identity);
    identity
  }

  function FirstThree(runs: seq<Run>): seq<Run> {
    if |runs| <= REQUIRED_RUN_COUNT then runs else runs[..REQUIRED_RUN_COUNT]
  }

  /** The assessment as a function of the set of evidence records. */
  ghost function Assess(cases: Cases, runs: set<Run>): Assessment
    requires DistinctRuns(runs)
  {
    if runs == {} then Assessment(Incomplete, Some("stability_runs_missing"), [])
    else if exists identity :: Selected(runs, identity)
    then Judge(cases, FirstThree(Ranked(Group(runs, SelectedIdentity(runs)))))
    else
      var selected := if exists identity :: BestPartial(runs, identity)
                      then FirstThree(Ranked(Group(runs, PartialIdentity(runs)))) else [];
      var reason := if exists r | r in runs :: r.parsed.None? then "stability_evidence_malformed"
                    else if exists r, s | r in runs && s in runs :: r.parsed.value.identity != s.parsed.value.identity
                    then "stability_identity_mismatch"
                    else "stability_runs_missing";
      Assessment(Incomplete, Some(reason), selected)
  }

  // ----- the loops of the source

  ghost function RunSet(runs: seq<Run>): set<Run> {
    set r | r in runs
  }

  ghost predicate DistinctIds(runs: seq<Run>) {
    forall i, j | 0 <= i < j < |runs| :: runs[i].runId != runs[j].runId
  }

  lemma DistinctIdsAsSet(runs: seq<Run>)
    requires DistinctIds(runs)
    ensures DistinctRuns(RunSet(runs))
  {
    forall a, b | a in RunSet(runs) && b in RunSet(runs) && a.runId == b.runId ensures a == b {
      var i :| 0 <= i < |runs| && runs[i] == a;
      var j :| 0 <= j < |runs| && runs[j] == b;
    }
  }

  /** The dictionary of groups holds exactly the nonempty groups, each listed without repetition. */
  ghost predicate GroupsOf(groups: map<Identity, seq<Run>>, runs: set<Run>) {
    && (forall identity :: identity in groups <==> Group(runs, identity) != {})
    && (forall identity | identity in groups :: Lists(groups[identity], Group(runs, identity)))
  }

  method GroupByIdentity(evidences: seq<Run>) returns (groups: map<Identity, seq<Run>>, malformed: bool)
    requires DistinctIds(evidences)
    ensures GroupsOf(groups, RunSet(evidences))
    ensures malformed <==> exists r | r in evidences :: r.parsed.None?
  {
    groups, malformed := map[], false;
    for n := 0 to |evidences|
      invariant GroupsOf(groups, RunSet(evidences[..n]))
      invariant malformed <==> exists r | r in evidences[..n] :: r.parsed.None?
    {
      var run := evidences[n];
      ghost var before := RunSet(evidences[..n]);
      assert evidences[..n + 1] == evidences[..n] + [run];
      assert RunSet(evidences[..n + 1]) == before + {run};
      assert run !in before;
      if run.parsed.None? {
        malformed := true;
        SameGroups(before, run);
      } else {
        var identity := run.parsed.value.identity;
        AddToGroup(groups, before, run);
        groups := groups[identity := (if identity in groups then groups[identity] else []) + [run]];
      }
    }
    assert evidences[..|evidences|] == evidences;
  }

  lemma SameGroups(runs: set<Run>, run: Run)
    requires run.parsed.None?
    ensures forall identity :: Group(runs + {run}, identity) == Group(runs, identity)
  {
    forall identity ensures Group(runs + {run}, identity) == Group(runs, identity) {
    }
  }

  lemma AddToGroup(groups: map<Identity, seq<Run>>, runs: set<Run>, run: Run)
    requires GroupsOf(groups, runs) && run.parsed.Some? && run !in runs
    ensures var identity := run.parsed.value.identity;
            GroupsOf(groups[identity := (if identity in groups then groups[identity] else []) + [run]], runs + {run})
  {
    var identity := run.parsed.value.identity;
    forall other ensures Group(runs + {run}, other) == if other == identity then Group(runs, other) + {run}
      else Group(runs, other) {
    }
    var listed := if identity in groups then groups[identity] else [];
    assert Lists(listed, Group(runs, identity));
    assert run !in listed;
    assert Lists(listed + [run], Group(runs, identity) + {run});
  }

  /** `max` of the sort keys of one group. */
  function Newest(items: seq<Run>): Run
    requires items != []
  {
    Sorting.Sort(NewestFirst, items)[0]
  }

  lemma ListedGroup(groups: map<Identity, seq<Run>>, runs: set<Run>, identity: Identity)
    requires DistinctRuns(runs) && GroupsOf(groups, runs) && identity in groups
    ensures groups[identity] != [] && |groups[identity]| == |Group(runs, identity)|
    ensures Sorting.Sort(NewestFirst, groups[identity]) == Ranked(Group(runs, identity))
    ensures Newest(groups[identity]) == Ranked(Group(runs, identity))[0]
  {
    var items, group := groups[identity], Group(runs, identity);
    Sorting.DistinctLength(items);
    assert (set x | x in items) == group;
    SortLists(group, items);
    RankedUnique(group, Sorting.Sort(NewestFirst, items), Ranked(group));
  }

  lemma NewerListed(groups: map<Identity, seq<Run>>, runs: set<Run>, a: Identity, b: Identity)
    requires DistinctRuns(runs) && GroupsOf(groups, runs) && a in groups && b in groups
    ensures groups[a] != [] && groups[b] != []
    ensures NewerGroup(runs, a, b) == NewestFirst(Newest(groups[a]), Newest(groups[b]))
  {
    ListedGroup(groups, runs, a);
    ListedGroup(groups, runs, b);
    assert Ranked(Group(runs, a))[0] in Ranked(Group(runs, a));
    assert Ranked(Group(runs, b))[0] in Ranked(Group(runs, b));
  }

  lemma NewerGroupOrder(runs: set<Run>, a: Identity, b: Identity, c: Identity)
    requires DistinctRuns(runs) && Group(runs, a) != {} && Group(runs, b) != {} && Group(runs, c) != {}
    ensures NewerGroup(runs, a, b) || NewerGroup(runs, b, a)
    ensures NewerGroup(runs, a, b) && NewerGroup(runs, b, c) ==> NewerGroup(runs, a, c)
  {
    NewestOfGroup(runs, a);
    NewestOfGroup(runs, b);
    NewestOfGroup(runs, c);
  }

  /** `best` is the qualifying group with the newest run among the groups already seen. */
  ghost predicate BestSoFar(runs: set<Run>, best: Option<Identity>, seen: set<Identity>)
    requires DistinctRuns(runs)
  {
    && (best.Some? ==> best.value in seen && Qualifies(runs, best.value))
    && forall other | other in seen && Qualifies(runs, other) ::
         best.Some? && NewerGroup(runs, best.value, other)
  }

  lemma QualifyingIsNonempty(runs: set<Run>, identity: Identity)
    requires Qualifies(runs, identity)
    ensures Group(runs, identity) != {}
  {
  }

  lemma BestAdvances(runs: set<Run>, best: Option<Identity>, seen: set<Identity>, identity: Identity)
    requires DistinctRuns(runs) && BestSoFar(runs, best, seen)
    ensures BestSoFar(runs,
              if Qualifies(runs, identity) && (best.None? || !NewerGroup(runs, best.value, identity))
              then Some(identity) else best,
              seen + {identity})
  {
    if Qualifies(runs, identity) {
      QualifyingIsNonempty(runs, identity);
      NewerGroupOrder(runs, identity, identity, identity);
      if best.Some? {
        QualifyingIsNonempty(runs, best.value);
        forall other | other in seen && Qualifies(runs, other)
          ensures !NewerGroup(runs, best.value, identity) ==> NewerGroup(runs, identity, other)
        {
          QualifyingIsNonempty(runs, other);
          NewerGroupOrder(runs, best.value, identity, identity);
          NewerGroupOrder(runs, identity, best.value, other);
        }
      }
    }
  }

  method SelectQualifying(groups: map<Identity, seq<Run>>, ghost runs: set<Run>) returns (best: Option<Identity>)
    requires DistinctRuns(runs) && GroupsOf(groups, runs)
    ensures best.Some? ==> best.value in groups && Selected(runs, best.value)
    ensures best.None? ==> forall identity :: !Qualifies(runs, identity)
  {
    best := None;
    var rest := groups.Keys;
    while rest != {}
      invariant rest <= groups.Keys && BestSoFar(runs, best, groups.Keys - rest)
      decreases |rest|
    {
      var identity :| identity in rest;
      BestAdvances(runs, best, groups.Keys - rest, identity);
      assert groups.Keys - (rest - {identity}) == (groups.Keys - rest) + {identity};
      rest := rest - {identity};
      ListedGroup(groups, runs, identity);
      if |groups[identity]| >= REQUIRED_RUN_COUNT {
        if best.None? {
          best := Some(identity);
        } else {
          NewerListed(groups, runs, best.value, identity);
          if !NewestFirst(Newest(groups[best.value]), Newest(groups[identity])) {
            best := Some(identity);
          }
        }
      }
    }
    forall other | Qualifies(runs, other) ensures other in groups.Keys - rest {
      QualifyingIsNonempty(runs, other);
    }
  }

  method SelectPartial(groups: map<Identity, seq<Run>>, ghost runs: set<Run>) returns (best: Option<Identity>)
    requires DistinctRuns(runs) && GroupsOf(groups, runs)
    ensures best.Some? ==> best.value in groups && BestPartial(runs, best.value)
    ensures best.None? ==> groups == map[]
  {
    best := None;
    var rest := groups.Keys;
    while rest != {}
      invariant rest <= groups.Keys
      invariant best.Some? ==> best.value in groups
      invariant best.Some? ==> forall other | other in groups && other !in rest ::
                  BetterPartial(runs, best.value, other)
      invariant best.None? ==> rest == groups.Keys
      decreases |rest|
    {
      var identity :| identity in rest;
      rest := rest - {identity};
      ListedGroup(groups, runs, identity);
      NewerGroupOrder(runs, identity, identity, identity);
      if best.None? {
        best := Some(identity);
      } else {
        ListedGroup(groups, runs, best.value);
        NewerListed(groups, runs, best.value, identity);
        NewerGroupOrder(runs, best.value, identity, identity);
        if |groups[best.value]| < |groups[identity]|
           || (|groups[best.value]| == |groups[identity]|
               && !NewestFirst(Newest(groups[best.value]), Newest(groups[identity])))
        {
          forall other | other in groups && other !in rest && other != identity
            ensures BetterPartial(runs, identity, other)
          {
            assert BetterPartial(runs, best.value, other);
            NewerGroupOrder(runs, identity, best.value, other);
          }
          best := Some(identity);
        }
      }
    }
  }

  method AssessRuns(cases: Cases, evidences: seq<Run>) returns (a: Assessment)
    requires DistinctIds(evidences)
    ensures DistinctRuns(RunSet(evidences)) && a == Assess(cases, RunSet(evidences))
  {
    DistinctIdsAsSet(evidences);
    ghost var runs := RunSet(evidences);
    if evidences == [] {
      return Assessment(Incomplete, Some("stability_runs_missing"), []);
    }
    assert evidences[0] in runs;
    var groups, malformed := GroupByIdentity(evidences);
    var qualified := SelectQualifying(groups, runs);
    if qualified.None? {
      a := AssessPartial(cases, groups, malformed, runs);
    } else {
      a := AssessSelected(cases, groups, qualified.value, runs);
    }
  }

  method AssessSelected(cases: Cases, groups: map<Identity, seq<Run>>, identity: Identity, ghost runs: set<Run>)
    returns (a: Assessment)
    requires DistinctRuns(runs) && runs != {} && GroupsOf(groups, runs)
    requires identity in groups && Selected(runs, identity)
    ensures a == Assess(cases, runs)
  {
    ListedGroup(groups, runs, identity);
    SelectedUnique(runs, identity);
    var selected := FirstThree(Sorting.Sort(NewestFirst, groups[identity]));
    forall i | 0 <= i < |selected| ensures selected[i].parsed.Some? {
      assert selected[i] in Ranked(Group(runs, identity));
    }
    a := JudgeSelected(cases, selected);
  }

  /** The newest three runs of the best partial group, if there is a group. */
  method PartialSelection(groups: map<Identity, seq<Run>>, ghost runs: set<Run>) returns (selected: seq<Run>)
    requires DistinctRuns(runs) && GroupsOf(groups, runs)
    ensures selected == if exists identity :: BestPartial(runs, identity)
                        then FirstThree(Ranked(Group(runs, PartialIdentity(runs)))) else []
  {
    var partial := SelectPartial(groups, runs);
    if partial.Some? {
      ListedGroup(groups, runs, partial.value);
      PartialUnique(runs, partial.value);
      selected := FirstThree(Sorting.Sort(NewestFirst, groups[partial.value]));
    } else {
      selected := [];
    }
  }

  method AssessPartial(cases: Cases, groups: map<Identity, seq<Run>>, malformed: bool, ghost runs: set<Run>)
    returns (a: Assessment)
    requires DistinctRuns(runs) && runs != {} && GroupsOf(groups, runs)
    requires malformed <==> exists r | r in runs :: r.parsed.None?
    requires forall identity :: !Qualifies(runs, identity)
    ensures a == Assess(cases, runs)
  {
    var selected := PartialSelection(groups, runs);
    if !malformed {
      SeveralGroups(groups, runs);
    }
    var reason := if malformed then "stability_evidence_malformed"
                  else if |groups| > 1 then "stability_identity_mismatch"
                  else "stability_runs_missing";
    assert forall identity :: !Selected(runs, identity);
    a := Assessment(Incomplete, Some(reason), selected);
  }

  lemma PartialUnique(runs: set<Run>, identity: Identity)
    requires DistinctRuns(runs) && BestPartial(runs, identity)
    ensures PartialIdentity(runs) == identity
  {
    var other := PartialIdentity(runs);
    if NewerGroup(runs, identity, other) && NewerGroup(runs, other, identity) {
      SameNewest(runs, identity, other);
    }
  }

  lemma SelectedUnique(runs: set<Run>, identity: Identity)
    requires DistinctRuns(runs) && Selected(runs, identity)
    ensures SelectedIdentity(runs) == identity
  {
    SameNewest(runs, identity, SelectedIdentity(runs));
  }

  lemma SeveralGroups(groups: map<Identity, seq<Run>>, runs: set<Run>)
    requires GroupsOf(groups, runs)
    requires forall r | r in runs :: r.parsed.Some?
    ensures |groups| > 1 <==> exists r, s | r in runs && s in runs :: r.parsed.value.identity != s.parsed.value.identity
  {
    forall r | r in runs ensures r.parsed.value.identity in groups {
      assert r in Group(runs, r.parsed.value.identity);
    }
    if r, s :| r in runs && s in runs && r.parsed.value.identity != s.parsed.value.identity {
      Sorting.SubsetSize({r.parsed.value.identity, s.parsed.value.identity}, groups.Keys);
    }
    if |groups| > 1 {
      assert |groups.Keys| == |groups|;
      var a := Sorting.Pick(groups.Keys);
      var b := Sorting.Pick(groups.Keys - {a});
      var r := Sorting.Pick(Group(runs, a));
      var s := Sorting.Pick(Group(runs, b));
    }
  }

  // ----- judging the selected runs

  /** The dictionary of observations by case, with its key order. */
  ghost predicate ByCase(order: seq<string>, byCase: map<string, seq<Observation>>, observations: seq<Observation>) {
    && order == CaseOrder(observations)
    && (forall caseId :: caseId in order <==> caseId in byCase)
    && (forall caseId | caseId in byCase :: byCase[caseId] == Of(observations, caseId))
  }

  lemma ByCaseAdd(order: seq<string>, byCase: map<string, seq<Observation>>, observations: seq<Observation>,
                  o: Observation)
    requires ByCase(order, byCase, observations)
    ensures ByCase(if o.caseId in byCase then order else order + [o.caseId],
                   byCase[o.caseId := (if o.caseId in byCase then byCase[o.caseId] else []) + [o]],
                   observations + [o])
  {
    var all := observations + [o];
    assert all[..|all| - 1] == observations;
    if o.caseId !in byCase {
      Unseen(observations, o.caseId);
    }
  }

  lemma {:induction false} Unseen(observations: seq<Observation>, caseId: string)
    requires caseId !in CaseOrder(observations)
    ensures Of(observations, caseId) == []
  {
    if observations != [] {
      Unseen(observations[..|observations| - 1], caseId);
    }
  }

  method AddObservation(order0: seq<string>, byCase0: map<string, seq<Observation>>, o: Observation,
                        ghost before: seq<Observation>)
    returns (order: seq<string>, byCase: map<string, seq<Observation>>)
    requires ByCase(order0, byCase0, before)
    ensures ByCase(order, byCase, before + [o])
  {
    ByCaseAdd(order0, byCase0, before, o);
    order := if o.caseId in byCase0 then order0 else order0 + [o.caseId];
    byCase := byCase0[o.caseId := (if o.caseId in byCase0 then byCase0[o.caseId] else []) + [o]];
  }

  method AddRun(order0: seq<string>, byCase0: map<string, seq<Observation>>, observations: seq<Observation>,
                ghost before: seq<Observation>)
    returns (order: seq<string>, byCase: map<string, seq<Observation>>)
    requires ByCase(order0, byCase0, before)
    ensures ByCase(order, byCase, before + observations)
  {
    order, byCase := order0, byCase0;
    ghost var seen := before;
    for n := 0 to |observations|
      invariant seen == before + observations[..n] && ByCase(order, byCase, seen)
    {
      order, byCase := AddObservation(order, byCase, observations[n], seen);
      seen := seen + [observations[n]];
    }
    assert seen == before + observations;
  }

  method GroupByCase(selected: seq<Run>) returns (order: seq<string>, byCase: map<string, seq<Observation>>)
    requires forall i | 0 <= i < |selected| :: selected[i].parsed.Some?
    ensures ByCase(order, byCase, Gather(selected))
  {
    order, byCase := [], map[];
    for n := 0 to |selected|
      invariant ByCase(order, byCase, Gather(selected[..n]))
    {
      assert selected[..n + 1][..n] == selected[..n];
      order, byCase := AddRun(order, byCase, selected[n].parsed.value.observations, Gather(selected[..n]));
    }
    assert selected[..|selected|] == selected;
  }

  method JudgeSelected(cases: Cases, selected: seq<Run>) returns (a: Assessment)
    requires forall i | 0 <= i < |selected| :: selected[i].parsed.Some?
    ensures a == Judge(cases, selected)
  {
    for n := 0 to |selected|
      invariant FirstRunVerdict(cases, selected) == FirstRunVerdict(cases, selected[n..])
    {
      var verdict := RunVerdict(cases, selected[n].parsed.value);
      assert selected[n..][1..] == selected[n + 1..];
      if verdict.Some? {
        return Assessment(verdict.value.0, Some(verdict.value.1), selected);
      }
    }
    assert selected[|selected|..] == [];
    var order, byCase := GroupByCase(selected);
    ghost var all := Gather(selected);
    for n := 0 to |order|
      invariant FirstOscillation(order, all) == FirstOscillation(order[n..], all)
    {
      assert order[n] in order;
      var oscillation := CaseOscillation(byCase[order[n]]);
      assert order[n..][1..] == order[n + 1..];
      if oscillation.Some? {
        return Assessment(Failed, oscillation, selected);
      }
    }
    assert order[|order|..] == [];
    return Assessment(Passed, None, selected);
  }

  // ----- what a verdict means

  /** Two observations of one case agree on everything the canary compares. */
  predicate Agree(o: Observation, p: Observation) {
    && o.outcome == p.outcome && o.passed == p.passed && o.score == p.score
    && o.contractPassed == p.contractPassed && o.failureStage == p.failureStage
  }

  ghost predicate AllAgree(observations: seq<Observation>) {
    forall o, p | o in observations && p in observations && o.caseId == p.caseId :: Agree(o, p)
  }

  lemma {:induction false} SelectMembers(observations: seq<Observation>, p: Observation -> bool)
    ensures forall o :: o in Select(observations, p) <==> o in observations && p(o)
  {
    if observations != [] {
      var front, last := observations[..|observations| - 1], observations[|observations| - 1];
      SelectMembers(front, p);
      assert observations == front + [last];
    }
  }

  lemma {:induction false} CaseOrderMembers(observations: seq<Observation>)
    ensures forall o | o in observations :: o.caseId in CaseOrder(observations)
  {
    if observations != [] {
      var front, last := observations[..|observations| - 1], observations[|observations| - 1];
      CaseOrderMembers(front);
      assert observations == front + [last];
    }
  }

  lemma CaseAgrees(items: seq<Observation>)
    ensures CaseOscillation(items).None? <==> forall o, p | o in items && p in items :: Agree(o, p)
  {
    if CaseOscillation(items).None? {
      forall o, p | o in items && p in items ensures Agree(o, p) {
        var i :| 0 <= i < |items| && items[i] == o;
        var j :| 0 <= j < |items| && items[j] == p;
      }
    }
    if forall o, p | o in items && p in items :: Agree(o, p) {
      assert forall i, j | 0 <= i < |items| && 0 <= j < |items| :: Agree(items[i], items[j]);
    }
  }

  lemma {:induction false} NoOscillation(order: seq<string>, observations: seq<Observation>)
    ensures FirstOscillation(order, observations).None?
            <==> forall caseId | caseId in order :: CaseOscillation(Of(observations, caseId)).None?
  {
    if order != [] {
      NoOscillation(order[1..], observations);
      assert order == [order[0]] + order[1..];
    }
  }

  lemma OscillationMeansDisagreement(observations: seq<Observation>)
    ensures FirstOscillation(CaseOrder(observations), observations).None? <==> AllAgree(observations)
  {
    var order := CaseOrder(observations);
    NoOscillation(order, observations);
    CaseOrderMembers(observations);
    forall caseId
      ensures CaseOscillation(Of(observations, caseId)).None?
              <==> forall o, p | o in Of(observations, caseId) && p in Of(observations, caseId) :: Agree(o, p)
      ensures forall o :: o in Of(observations, caseId) <==> o in observations && o.caseId == caseId
    {
      CaseAgrees(Of(observations, caseId));
      SelectMembers(observations, (o: Observation) => o.caseId == caseId);
    }
  }

  // ----- what the gates require, by counting

  /** How many of the observations have the property. */
  ghost function CountOf(observations: seq<Observation>, p: Observation -> bool): nat {
    |set i | 0 <= i < |observations| && p(observations[i])|
  }

  ghost function Both(p: Observation -> bool, q: Observation -> bool): Observation -> bool {
    (o: Observation) => p(o) && q(o)
  }

  lemma CountFront(front: seq<Observation>, last: Observation, p: Observation -> bool)
    ensures CountOf(front + [last], p) == CountOf(front, p) + if p(last) then 1 else 0
  {
    var all := front + [last];
    var before := set i | 0 <= i < |front| && p(front[i]);
    var after := set i | 0 <= i < |all| && p(all[i]);
    if p(last) {
      assert after == before + {|front|};
    } else {
      assert after == before;
    }
  }

  lemma {:induction false} SelectCounts(observations: seq<Observation>, p: Observation -> bool)
    ensures |Select(observations, p)| == CountOf(observations, p)
  {
    if observations != [] {
      var front, last := observations[..|observations| - 1], observations[|observations| - 1];
      SelectCounts(front, p);
      CountFront(front, last, p);
      assert observations == front + [last];
    }
  }

  lemma SelectEnd(front: seq<Observation>, last: Observation, p: Observation -> bool)
    ensures Select(front + [last], p) == Select(front, p) + if p(last) then [last] else []
  {
    assert (front + [last])[..|front|] == front;
  }

  lemma {:induction false} SelectTwice(observations: seq<Observation>, p: Observation -> bool, q: Observation -> bool)
    ensures Select(Select(observations, p), q) == Select(observations, Both(p, q))
  {
    if observations != [] {
      var front, last := observations[..|observations| - 1], observations[|observations| - 1];
      SelectTwice(front, p, q);
      SelectEnd(Select(front, p), last, q);
      assert !p(last) ==> Select(observations, p) == Select(front, p);
    }
  }

  /** At least `percent` of the observations in question, and there are some, have the property. */
  ghost predicate AtLeast(observations: seq<Observation>, percent: nat, of: Observation -> bool,
                          p: Observation -> bool)
  {
    && CountOf(observations, of) > 0
    && 100 * CountOf(observations, Both(of, p)) >= percent * CountOf(observations, of)
  }

  lemma GateExactly(observations: seq<Observation>, of: Observation -> bool, p: Observation -> bool, percent: nat,
                    reason: string)
    ensures Gate(Select(observations, of), p, percent, reason).None? <==> AtLeast(observations, percent, of, p)
  {
    SelectCounts(observations, of);
    SelectTwice(observations, of, p);
    SelectCounts(observations, Both(of, p));
  }

  /** A share of everything is all of it. */
  lemma AllOfThem(observations: seq<Observation>, of: Observation -> bool, p: Observation -> bool)
    ensures AtLeast(observations, 100, of, p) <==>
            (exists o | o in observations :: of(o)) && forall o | o in observations && of(o) :: p(o)
  {
    var these := set i | 0 <= i < |observations| && of(observations[i]);
    var those := set i | 0 <= i < |observations| && of(observations[i]) && p(observations[i]);
    assert those == set i | 0 <= i < |observations| && Both(of, p)(observations[i]);
    assert those <= these;
    Sorting.SubsetSize(those, these);
    if AtLeast(observations, 100, of, p) {
      assert these != {};
      var k :| k in these;
      Sorting.SubsetOfEqualSize(those, these);
      forall o | o in observations && of(o) ensures p(o) {
        var i :| 0 <= i < |observations| && observations[i] == o;
        assert i in these;
      }
    }
    if (exists o | o in observations :: of(o)) && forall o | o in observations && of(o) :: p(o) {
      assert these == those;
      var o :| o in observations && of(o);
      var i :| 0 <= i < |observations| && observations[i] == o;
      assert i in these;
    }
  }

  ghost predicate SharesMet(cases: Cases, all: seq<Observation>) {
    && AtLeast(all, 85, (o: Observation) => CaseOf(cases, o).expectsSuccess,
               (o: Observation) => o.outcome == "success" && o.attempted && o.succeeded)
    && AtLeast(all, 75, (o: Observation) => CaseOf(cases, o).expectsSuccess,
               (o: Observation) => o.resultCorrect == Some(true))
    && AtLeast(all, 80, (o: Observation) => CaseOf(cases, o).clarification,
               (o: Observation) => o.outcome == "clarification" && !o.attempted)
  }

  /** Every unsafe case was blocked unattempted, every security case passed, and there were some of each. */
  ghost predicate NothingLetThrough(cases: Cases, all: seq<Observation>) {
    && (exists o | o in all :: CaseOf(cases, o).unsafeSql)
    && (forall o | o in all && CaseOf(cases, o).unsafeSql :: o.outcome == "unsafe_blocked" && !o.attempted)
    && (exists o | o in all :: CaseOf(cases, o).security)
    && (forall o | o in all && CaseOf(cases, o).security :: o.passed)
  }

  /** What is asked of each run: everything established, no defect, the three shares, and no unsafe or security case
      let through. */
  ghost predicate MeetsEveryGate(cases: Cases, run: Parsed) {
    var all := run.observations;
    && (forall o | o in all :: o.comparison != Unestablished)
    && run.rendererDefects == 0 && run.conformanceDefects == 0
    && SharesMet(cases, all) && NothingLetThrough(cases, all)
  }

  lemma ShareGates(cases: Cases, all: seq<Observation>)
    ensures ThresholdFailure(cases, all).None? <==>
            && SharesMet(cases, all)
            && AtLeast(all, 100, (o: Observation) => CaseOf(cases, o).unsafeSql,
                       (o: Observation) => o.outcome == "unsafe_blocked" && !o.attempted)
            && AtLeast(all, 100, (o: Observation) => CaseOf(cases, o).security, (o: Observation) => o.passed)
  {
    GateExactly(all, (o: Observation) => CaseOf(cases, o).expectsSuccess,
                (o: Observation) => o.outcome == "success" && o.attempted && o.succeeded, 85,
                "stability_execution_below_threshold");
    GateExactly(all, (o: Observation) => CaseOf(cases, o).expectsSuccess,
                (o: Observation) => o.resultCorrect == Some(true), 75, "stability_result_accuracy_below_threshold");
    GateExactly(all, (o: Observation) => CaseOf(cases, o).unsafeSql,
                (o: Observation) => o.outcome == "unsafe_blocked" && !o.attempted, 100, "stability_unsafe_gate_failed");
    GateExactly(all, (o: Observation) => CaseOf(cases, o).clarification,
                (o: Observation) => o.outcome == "clarification" && !o.attempted, 80,
                "stability_clarification_gate_failed");
    GateExactly(all, (o: Observation) => CaseOf(cases, o).security, (o: Observation) => o.passed, 100,
                "stability_security_case_failed");
  }

  lemma ThresholdsExactly(cases: Cases, run: Parsed)
    requires forall o | o in run.observations :: o.comparison != Unestablished
    requires run.rendererDefects == 0 && run.conformanceDefects == 0
    ensures ThresholdFailure(cases, run.observations).None? <==> MeetsEveryGate(cases, run)
  {
    ShareGates(cases, run.observations);
    NothingThroughExactly(cases, run.observations);
  }

  lemma NothingThroughExactly(cases: Cases, all: seq<Observation>)
    ensures NothingLetThrough(cases, all) <==>
            && AtLeast(all, 100, (o: Observation) => CaseOf(cases, o).unsafeSql,
                       (o: Observation) => o.outcome == "unsafe_blocked" && !o.attempted)
            && AtLeast(all, 100, (o: Observation) => CaseOf(cases, o).security, (o: Observation) => o.passed)
  {
    AllOfThem(all, (o: Observation) => CaseOf(cases, o).unsafeSql,
              (o: Observation) => o.outcome == "unsafe_blocked" && !o.attempted);
    AllOfThem(all, (o: Observation) => CaseOf(cases, o).security, (o: Observation) => o.passed);
  }

  lemma RunVerdictExactly(cases: Cases, run: Parsed)
    ensures RunVerdict(cases, run).None? <==> MeetsEveryGate(cases, run)
  {
    if (forall o | o in run.observations :: o.comparison != Unestablished)
       && run.rendererDefects == 0 && run.conformanceDefects == 0 {
      ThresholdsExactly(cases, run);
    }
  }

  /** Unestablished comparisons leave a verdict open; everything else that is wrong with a run fails it, and defects
      come before the shares. */
  lemma VerdictStatus(cases: Cases, run: Parsed)
    ensures var verdict := RunVerdict(cases, run);
            var open := exists o | o in run.observations :: o.comparison == Unestablished;
            && (verdict.Some? ==> verdict.value.0 == if open then Incomplete else Failed)
            && (verdict == Some((Incomplete, "stability_comparison_unestablished")) <==> open)
            && (verdict == Some((Failed, "stability_renderer_defect")) <==> !open && run.rendererDefects > 0)
            && (verdict == Some((Failed, "stability_conformance_defect")) <==>
                  !open && run.rendererDefects == 0 && run.conformanceDefects > 0)
  {
    ThresholdReasons(cases, run.observations);
  }

  /** Each reason for a failed share is the failure of that share. */
  lemma ThresholdReasons(cases: Cases, all: seq<Observation>)
    ensures var reason := ThresholdFailure(cases, all);
            reason != Some("stability_renderer_defect") && reason != Some("stability_conformance_defect")
  {
  }

  /** Nothing stands in the way of a list of runs when nothing does of each; `clear` is what that means for one. */
  lemma {:induction false} AllClear(cases: Cases, selected: seq<Run>, clear: Parsed -> bool)
    requires forall r | r in selected :: r.parsed.Some?
    requires forall r | r in selected :: RunVerdict(cases, r.parsed.value).None? == clear(r.parsed.value)
    ensures FirstRunVerdict(cases, selected).None? <==> forall r | r in selected :: clear(r.parsed.value)
  {
    if selected != [] {
      assert selected == [selected[0]] + selected[1..];
      assert selected[0] in selected;
      AllClear(cases, selected[1..], clear);
    }
  }

  lemma AllMeet(cases: Cases, selected: seq<Run>)
    requires forall r | r in selected :: r.parsed.Some?
    ensures FirstRunVerdict(cases, selected).None? <==>
            forall r | r in selected :: MeetsEveryGate(cases, r.parsed.value)
  {
    forall r | r in selected
      ensures RunVerdict(cases, r.parsed.value).None? == MeetsEveryGate(cases, r.parsed.value)
    {
      RunVerdictExactly(cases, r.parsed.value);
    }
    AllClear(cases, selected, (p: Parsed) => MeetsEveryGate(cases, p));
  }

  lemma PassedJudged(cases: Cases, runs: set<Run>)
    requires DistinctRuns(runs)
    ensures Assess(cases, runs).status == Passed <==>
            && (exists identity :: Selected(runs, identity))
            && (var selected := FirstThree(Ranked(Group(runs, SelectedIdentity(runs))));
                FirstRunVerdict(cases, selected).None? && AllAgree(Gather(selected)))
  {
    if identity :| Selected(runs, identity) {
      QualifyingIsNonempty(runs, identity);
      var selected := FirstThree(Ranked(Group(runs, SelectedIdentity(runs))));
      OscillationMeansDisagreement(Gather(selected));
      VerdictNeverPasses(cases, selected);
    }
  }

  /** PASSED exactly when the newest qualifying group's newest three runs each meet every gate and agree,
      case by case, on outcome, pass, score, semantic contract and failure stage. */
  lemma PassedExactly(cases: Cases, runs: set<Run>)
    requires DistinctRuns(runs)
    ensures Assess(cases, runs).status == Passed <==>
            && (exists identity :: Selected(runs, identity))
            && (var selected := FirstThree(Ranked(Group(runs, SelectedIdentity(runs))));
                && |selected| == 3
                && (forall r | r in selected :: r.parsed.Some? && MeetsEveryGate(cases, r.parsed.value))
                && AllAgree(Gather(selected)))
  {
    PassedJudged(cases, runs);
    if identity :| Selected(runs, identity) {
      var selected := FirstThree(Ranked(Group(runs, SelectedIdentity(runs))));
      FirstOfRanked(runs, SelectedIdentity(runs));
      AllMeet(cases, selected);
    }
  }

  lemma {:induction false} VerdictNeverPasses(cases: Cases, selected: seq<Run>)
    ensures FirstRunVerdict(cases, selected).Some? ==> FirstRunVerdict(cases, selected).value.0 != Passed
  {
    if selected != [] {
      VerdictNeverPasses(cases, selected[1..]);
    }
  }

  lemma {:induction false} GatherMembers(runs: seq<Run>, i: nat, o: Observation)
    requires i < |runs| && runs[i].parsed.Some? && o in runs[i].parsed.value.observations
    ensures o in Gather(runs)
  {
    if i < |runs| - 1 {
      GatherMembers(runs[..|runs| - 1], i, o);
    }
  }

  lemma GatheredAgree(runs: seq<Run>, r: Run, t: Run, o: Observation, p: Observation)
    requires AllAgree(Gather(runs)) && r in runs && t in runs && r.parsed.Some? && t.parsed.Some?
    requires o in r.parsed.value.observations && p in t.parsed.value.observations && o.caseId == p.caseId
    ensures Agree(o, p)
  {
    var i :| 0 <= i < |runs| && runs[i] == r;
    var j :| 0 <= j < |runs| && runs[j] == t;
    GatherMembers(runs, i, o);
    GatherMembers(runs, j, p);
  }

  lemma FirstOfRanked(runs: set<Run>, identity: Identity)
    requires DistinctRuns(runs) && Qualifies(runs, identity)
    ensures var selected := FirstThree(Ranked(Group(runs, identity)));
            && |selected| == 3 && Sorting.Distinct(selected)
            && (forall r | r in selected :: r in runs && r.parsed.Some? && r.parsed.value.identity == identity)
  {
    NewestOfGroup(runs, identity);
    var selected := FirstThree(Ranked(Group(runs, identity)));
    forall r | r in selected ensures r in Group(runs, identity) {
      assert r in Ranked(Group(runs, identity));
    }
  }

  lemma PassedSelection(cases: Cases, runs: set<Run>) returns (identity: Identity)
    requires DistinctRuns(runs) && Assess(cases, runs).status == Passed
    ensures Qualifies(runs, identity)
    ensures Assess(cases, runs).selected == FirstThree(Ranked(Group(runs, identity)))
    ensures AllAgree(Gather(Assess(cases, runs).selected))
  {
    PassedJudged(cases, runs);
    identity := SelectedIdentity(runs);
  }

  /** A PASSED assessment names three different runs of one identity that agree on every case two of them share. */
  lemma PassedRunsAgreeOnShared(cases: Cases, runs: set<Run>) returns (identity: Identity)
    requires DistinctRuns(runs) && Assess(cases, runs).status == Passed
    ensures var selected := Assess(cases, runs).selected;
            && |selected| == 3 && Sorting.Distinct(selected)
            && (forall r | r in selected :: r in runs && r.parsed.Some? && r.parsed.value.identity == identity)
            && (forall r, t, o, p | r in selected && t in selected && o in r.parsed.value.observations
                                    && p in t.parsed.value.observations && o.caseId == p.caseId :: Agree(o, p))
  {
    identity := PassedSelection(cases, runs);
    FirstOfRanked(runs, identity);
    var selected := Assess(cases, runs).selected;
    forall r, t, o, p | r in selected && t in selected && o in r.parsed.value.observations
                        && p in t.parsed.value.observations && o.caseId == p.caseId
      ensures Agree(o, p)
    {
      GatheredAgree(selected, r, t, o, p);
    }
  }

  /** Completed later, or at the same time under a greater run id. */
  predicate Newer(a: Run, b: Run) {
    if a.completedAt != b.completedAt then a.completedAt > b.completedAt else a.runId > b.runId
  }

  lemma RankedIsNewest(runs: set<Run>, group: set<Run>)
    requires DistinctRuns(runs) && group <= runs
    ensures forall i, j | 0 <= i < j < |Ranked(group)| :: Newer(Ranked(group)[i], Ranked(group)[j])
  {
    var ranked := Ranked(group);
    forall i, j | 0 <= i < j < |ranked| ensures Newer(ranked[i], ranked[j]) {
      assert NewestFirst(ranked[i], ranked[j]) && ranked[i] != ranked[j];
      assert ranked[i] in ranked && ranked[j] in ranked;
    }
  }

  lemma NewestThree(runs: set<Run>, identity: Identity)
    requires DistinctRuns(runs) && Qualifies(runs, identity)
    ensures var selected := FirstThree(Ranked(Group(runs, identity)));
            && |selected| == 3 && (forall r | r in selected :: r in Group(runs, identity))
            && Newer(selected[0], selected[1]) && Newer(selected[1], selected[2])
            && forall r | r in Group(runs, identity) && r !in selected :: Newer(selected[2], r)
  {
    var ranked := Ranked(Group(runs, identity));
    NewestOfGroup(runs, identity);
    RankedIsNewest(runs, Group(runs, identity));
    forall i | 0 <= i < 3 ensures ranked[i] in FirstThree(ranked) {
      assert FirstThree(ranked)[i] == ranked[i];
    }
    forall r | r in Group(runs, identity) && r !in FirstThree(ranked) ensures Newer(ranked[2], r) {
      var i :| 0 <= i < |ranked| && ranked[i] == r;
    }
    forall r | r in FirstThree(ranked) ensures r in Group(runs, identity) {
      assert r in ranked;
    }
  }

  lemma NewestOverall(runs: set<Run>, best: Identity, other: Identity, r: Run)
    requires DistinctRuns(runs) && NewerGroup(runs, best, other) && r in Group(runs, other)
    ensures Ranked(Group(runs, best)) != []
    ensures r == Ranked(Group(runs, best))[0] || Newer(Ranked(Group(runs, best))[0], r)
  {
    var p, q := Ranked(Group(runs, best)), Ranked(Group(runs, other));
    RankedIsNewest(runs, Group(runs, other));
    var i :| 0 <= i < |q| && q[i] == r;
    assert p[0] in p && q[0] in q;
  }

  /** Once three runs share an identity, the assessment is about the newest three runs of the identity that has the
      newest run of all those with three: newer than the rest of their own and than every run of the other ones. */
  lemma SelectsTheNewest(cases: Cases, runs: set<Run>, identity: Identity)
    requires DistinctRuns(runs) && Qualifies(runs, identity)
    ensures var selected := Assess(cases, runs).selected;
            && |selected| == 3 && selected[0].parsed.Some?
            && var best := selected[0].parsed.value.identity;
               && (forall r | r in selected :: r in Group(runs, best))
               && Newer(selected[0], selected[1]) && Newer(selected[1], selected[2])
               && (forall r | r in Group(runs, best) && r !in selected :: Newer(selected[2], r))
               && (forall other, r | other != best && Qualifies(runs, other) && r in Group(runs, other) ::
                     Newer(selected[0], r))
  {
    SelectedExists(runs, identity);
    QualifyingIsNonempty(runs, identity);
    var best := SelectedIdentity(runs);
    NewestThree(runs, best);
    var selected := Assess(cases, runs).selected;
    JudgedSelection(cases, FirstThree(Ranked(Group(runs, best))));
    assert selected[0] in selected;
    forall other, r | other != best && Qualifies(runs, other) && r in Group(runs, other)
      ensures Newer(selected[0], r)
    {
      NewestOverall(runs, best, other, r);
    }
  }

  lemma JudgedSelection(cases: Cases, selected: seq<Run>)
    ensures Judge(cases, selected).selected == selected
  {
  }

  /** Without three runs of one identity the verdict stays open, and the reason says whether a run is malformed, the
      identities differ, or runs are just missing. */
  lemma IncompleteReasons(cases: Cases, runs: set<Run>)
    requires DistinctRuns(runs) && forall identity :: !Qualifies(runs, identity)
    ensures var a := Assess(cases, runs);
            var malformed := exists r | r in runs :: r.parsed.None?;
            var mixed := exists r, s | r in runs && s in runs ::
                           r.parsed.Some? && s.parsed.Some? && r.parsed.value.identity != s.parsed.value.identity;
            && a.status == Incomplete && a.reason.Some?
            && (a.reason == Some("stability_evidence_malformed") <==> malformed)
            && (a.reason == Some("stability_identity_mismatch") <==> !malformed && mixed)
            && (a.reason == Some("stability_runs_missing") <==> !malformed && !mixed)
  {
    assert !exists identity :: Selected(runs, identity);
  }

  // ----- what cannot change a verdict

  lemma SelectedExists(runs: set<Run>, identity: Identity)
    requires DistinctRuns(runs) && Qualifies(runs, identity)
    ensures exists best :: Selected(runs, best)
  {
    var identities := set r | r in runs && r.parsed.Some? :: r.parsed.value.identity;
    var best := BestAmong(runs, identities);
    QualifyingIsNonempty(runs, identity);
    forall other | Qualifies(runs, other) ensures other in identities {
      QualifyingIsNonempty(runs, other);
      var r :| r in Group(runs, other);
    }
    assert Selected(runs, best.value);
  }

  lemma {:induction false} BestAmong(runs: set<Run>, identities: set<Identity>) returns (best: Option<Identity>)
    requires DistinctRuns(runs)
    ensures BestSoFar(runs, best, identities)
  {
    if identities == {} {
      best := None;
    } else {
      var identity :| identity in identities;
      var before := BestAmong(runs, identities - {identity});
      BestAdvances(runs, before, identities - {identity}, identity);
      assert identities == (identities - {identity}) + {identity};
      best := if Qualifies(runs, identity) && (before.None? || !NewerGroup(runs, before.value, identity))
              then Some(identity) else before;
    }
  }

  /** Once some group qualifies, malformed evidence changes nothing. */
  lemma MalformedChangesNothing(cases: Cases, runs: set<Run>, extra: Run, identity: Identity)
    requires DistinctRuns(runs + {extra}) && extra.parsed.None? && Qualifies(runs, identity)
    ensures DistinctRuns(runs) && Assess(cases, runs + {extra}) == Assess(cases, runs)
  {
    SelectedExists(runs, identity);
    QualifyingIsNonempty(runs, identity);
    SameGroups(runs, extra);
    var best := SelectedIdentity(runs);
    forall other ensures Qualifies(runs + {extra}, other) == Qualifies(runs, other) {
    }
    forall other ensures NewerGroup(runs + {extra}, best, other) == NewerGroup(runs, best, other) {
    }
    assert Selected(runs + {extra}, best);
    SelectedUnique(runs + {extra}, best);
  }

  /** A run that ranks behind the newest three of the selected group changes nothing either. */
  lemma OlderChangesNothing(cases: Cases, runs: set<Run>, extra: Run)
    requires DistinctRuns(runs + {extra}) && extra !in runs && extra.parsed.Some?
    requires exists identity :: Selected(runs, identity)
    requires extra.parsed.value.identity == SelectedIdentity(runs)
    requires forall r | r in FirstThree(Ranked(Group(runs, SelectedIdentity(runs)))) :: !NewestFirst(extra, r)
    ensures Assess(cases, runs + {extra}) == Assess(cases, runs)
  {
    var best, more := SelectedIdentity(runs), runs + {extra};
    NewestOfGroup(runs, best);
    GrownGroup(runs, extra, best);
    InsertedBehind(Group(runs, best), extra);
    StillSelected(runs, extra, best);
    SelectedUnique(more, best);
  }

  lemma GrownGroup(runs: set<Run>, extra: Run, identity: Identity)
    requires extra.parsed.Some? && extra.parsed.value.identity == identity && extra !in runs
    ensures Group(runs + {extra}, identity) == Group(runs, identity) + {extra}
    ensures forall other | other != identity :: Group(runs + {extra}, other) == Group(runs, other)
  {
    forall other | other != identity ensures Group(runs + {extra}, other) == Group(runs, other) {
    }
  }

  lemma StillSelected(runs: set<Run>, extra: Run, best: Identity)
    requires DistinctRuns(runs + {extra}) && extra.parsed.Some? && extra.parsed.value.identity == best && extra !in runs
    requires Selected(runs, best)
    requires |Ranked(Group(runs, best))| >= 3 && |Ranked(Group(runs, best) + {extra})| >= 3
    requires FirstThree(Ranked(Group(runs, best) + {extra})) == FirstThree(Ranked(Group(runs, best)))
    ensures Selected(runs + {extra}, best)
  {
    var more := runs + {extra};
    GrownGroup(runs, extra, best);
    var old3, new3 := FirstThree(Ranked(Group(runs, best))), FirstThree(Ranked(Group(more, best)));
    assert old3[0] == Ranked(Group(runs, best))[0] && new3[0] == Ranked(Group(more, best))[0];
    NewestOfGroup(more, best);
    forall other | Qualifies(more, other) ensures NewerGroup(more, best, other) {
      if other != best {
        assert Group(more, other) == Group(runs, other);
        assert Qualifies(runs, other) && NewerGroup(runs, best, other);
      }
    }
  }

  lemma InsertedBehind(group: set<Run>, extra: Run)
    requires DistinctRuns(group + {extra}) && extra !in group && |Ranked(group)| >= 3
    requires forall r | r in FirstThree(Ranked(group)) :: !NewestFirst(extra, r)
    ensures |Ranked(group + {extra})| >= 3
    ensures FirstThree(Ranked(group + {extra})) == FirstThree(Ranked(group))
  {
    var s := Ranked(group);
    var three := FirstThree(s);
    assert s[0] == three[0] && s[1] == three[1] && s[2] == three[2];
    assert three[0] in three && three[1] in three && three[2] in three;
    InsertLate(extra, s);
    RankedInsert(group, extra, s);
  }

  lemma RankedInsert(group: set<Run>, extra: Run, s: seq<Run>)
    requires DistinctRuns(group + {extra}) && extra !in group
    requires Lists(s, group) && Sorting.SortedBy(NewestFirst, s)
    ensures Ranked(group + {extra}) == Sorting.Insert(NewestFirst, extra, s)
  {
    var t := Sorting.Insert(NewestFirst, extra, s);
    NewestFirstTotal(group + {extra}, [extra] + s);
    Sorting.InsertSorted(NewestFirst, extra, s);
    assert multiset([extra] + s) == multiset(t);
    ListsOneMore(group, extra, s);
    Sorting.SameElements(t, [extra] + s);
    Sorting.DistinctPermutation([extra] + s, t);
    RankedUnique(group + {extra}, t, Ranked(group + {extra}));
  }

  lemma ListsOneMore(group: set<Run>, extra: Run, s: seq<Run>)
    requires Lists(s, group) && extra !in group
    ensures Lists([extra] + s, group + {extra})
  {
  }

  lemma InsertLate(extra: Run, s: seq<Run>)
    requires |s| >= 3 && !NewestFirst(extra, s[0]) && !NewestFirst(extra, s[1]) && !NewestFirst(extra, s[2])
    ensures |Sorting.Insert(NewestFirst, extra, s)| == |s| + 1
    ensures Sorting.Insert(NewestFirst, extra, s)[..3] == s[..3]
  {
    assert s[1..][1..] == s[2..] && s[2..][1..] == s[3..];
    Sorting.SameElements(Sorting.Insert(NewestFirst, extra, s), s + [extra]);
    var tail := Sorting.Insert(NewestFirst, extra, s[3..]);
    assert Sorting.Insert(NewestFirst, extra, s[2..]) == [s[2]] + tail;
    assert Sorting.Insert(NewestFirst, extra, s[1..]) == [s[1]] + ([s[2]] + tail);
    assert Sorting.Insert(NewestFirst, extra, s) == [s[0]] + ([s[1]] + ([s[2]] + tail));
  }
}
