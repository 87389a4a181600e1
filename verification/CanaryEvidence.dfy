/** Stored canary runs: what makes one count as parsed, and what a PASSED verdict says of the suite's cases. */
module CanaryEvidence {
  import opened Options
  import opened Stability
  import Strings
  import Sorting

  /** One stored result; `accepted` is what the result parser makes of everything but its case id. */
  datatype CaseResult = CaseResult(caseId: string, accepted: Option<Observation>, rendererFailed: bool,
                                   conformanceFailed: bool,
                                   measured: bool)

  /** The figures of a run's summary that must agree with its results; `plannerShaped` covers the planner's other
   *  checks. */
  datatype Summary = Summary(unestablished: Option<int>, comparisons: Option<map<Comparison, int>>, plannerShaped: bool,
                             rendererDefects: Option<int>, conformanceDefects: Option<int>)

  datatype Envelope = Envelope(identity: Identity, results: seq<CaseResult>, summary: Summary)

  /** One stored run; without an envelope when the envelope parser refuses it. */
  datatype Evidence = Evidence(runId: nat, completedAt: int, envelope: Option<Envelope>)

  function CaseIds(results: seq<CaseResult>): (ids: seq<string>)
    ensures |ids| == |results| && forall i | 0 <= i < |ids| :: ids[i] == results[i].caseId
  {
    seq(|results|, i requires 0 <= i < |results| => results[i].caseId)
  }

  function SortedIds(ids: seq<string>): (r: seq<string>)
    ensures multiset(r) == multiset(ids)
  {
    Sorting.Sort((a: string, b: string) => Strings.StringLe(a, b), ids)
  }

  function ByCaseId(results: seq<CaseResult>): (r: seq<CaseResult>)
    ensures multiset(r) == multiset(results)
  {
    Sorting.Sort((a: CaseResult, b: CaseResult) => Strings.StringLe(a.caseId, b.caseId), results)
  }

  function ParseResult(r: CaseResult): Option<Observation> {
    if r.accepted.None? then None else Some(r.accepted.value.(caseId := r.caseId))
  }

  function ParseResults(results: seq<CaseResult>): Option<seq<Observation>> {
    if results == [] then Some([])
    else
      var front, last := ParseResults(results[..|results| - 1]), ParseResult(results[|results| - 1]);
      if front.None? || last.None? then None else Some(front.value + [last.value])
  }

  function Count(results: seq<CaseResult>, p: CaseResult -> bool): nat {
    if results == [] then 0
    else Count(results[..|results| - 1], p) + if p(results[|results| - 1]) then 1 else 0
  }

  function Comparisons(observations: seq<Observation>): seq<Comparison> {
    seq(|observations|, i requires 0 <= i < |observations| => observations[i].comparison)
  }

  predicate CountsMatch(stored: Option<map<Comparison, int>>, states: seq<Comparison>) {
    && stored.Some? && stored.value.Keys == {Correct, Incorrect, Unestablished, NotReached, NotApplicable}
    && forall c | c in stored.value :: stored.value[c] == multiset(states)[c]
  }

  predicate SummaryAgrees(summary: Summary, observations: seq<Observation>, rendererDefects: nat,
                          conformanceDefects: nat) {
    && summary.unestablished == Some(multiset(Comparisons(observations))[Unestablished])
    && CountsMatch(summary.comparisons, Comparisons(observations))
    && summary.plannerShaped
    && summary.rendererDefects == Some(rendererDefects) && summary.conformanceDefects == Some(conformanceDefects)
  }

  function RendererDefects(results: seq<CaseResult>): nat {
    Count(results, (r: CaseResult) => r.rendererFailed)
  }

  function ConformanceDefects(results: seq<CaseResult>): nat {
    Count(results, (r: CaseResult) => r.conformanceFailed)
  }

  function Measurements(results: seq<CaseResult>): nat {
    Count(results, (r: CaseResult) => r.measured)
  }

  /** A run parses when its results are those of the suite's cases, each parses, and the summary adds up. */
  function ParseRun(e: Envelope): Option<Parsed> {
    var ordered := ByCaseId(e.results);
    var observations := ParseResults(ordered);
    if |e.results| != |e.identity.caseIds| || SortedIds(CaseIds(e.results)) != SortedIds(e.identity.caseIds) then None
    else if observations.None? || Measurements(ordered) == 0 then None
    else if !SummaryAgrees(e.summary, observations.value, RendererDefects(ordered), ConformanceDefects(ordered))
    then None
    else Some(Parsed(e.identity, observations.value, RendererDefects(ordered), ConformanceDefects(ordered)))
  }

  function RunOf(e: Evidence): Run {
    Run(e.runId, e.completedAt, if e.envelope.None? then None else ParseRun(e.envelope.value))
  }

  function RunsOf(evidences: seq<Evidence>): (runs: seq<Run>)
    ensures |runs| == |evidences| && forall i | 0 <= i < |runs| :: runs[i] == RunOf(evidences[i])
  {
    seq(|evidences|, i requires 0 <= i < |evidences| => RunOf(evidences[i]))
  }

  // ----- the loops

  /** All results parsed in turn, with the three counters; a result that does not parse ends the loop. */
  method ParseAll(results: seq<CaseResult>)
    returns (observations: Option<seq<Observation>>, renderer: nat, conformance: nat, measured: nat)
    ensures observations == ParseResults(results)
    ensures observations.Some? ==> renderer == RendererDefects(results) && conformance == ConformanceDefects(results)
                                   && measured == Measurements(results)
  {
    var parsed: seq<Observation> := [];
    renderer, conformance, measured := 0, 0, 0;
    for n := 0 to |results|
      invariant ParseResults(results[..n]) == Some(parsed)
      invariant renderer == RendererDefects(results[..n]) && conformance == ConformanceDefects(results[..n])
      invariant measured == Measurements(results[..n])
    {
      assert results[..n + 1][..n] == results[..n];
      var observation := ParseResult(results[n]);
      if observation.None? {
        Unparsed(results, n);
        return None, renderer, conformance, measured;
      }
      parsed := parsed + [observation.value];
      renderer := renderer + if results[n].rendererFailed then 1 else 0;
      conformance := conformance + if results[n].conformanceFailed then 1 else 0;
      measured := measured + if results[n].measured then 1 else 0;
    }
    assert results[..|results|] == results;
    observations := Some(parsed);
  }

  lemma {:induction false} Unparsed(results: seq<CaseResult>, n: nat)
    requires n < |results| && ParseResult(results[n]).None?
    ensures ParseResults(results).None?
  {
    if n < |results| - 1 {
      Unparsed(results[..|results| - 1], n);
    }
  }

  method ReadRun(e: Envelope) returns (p: Option<Parsed>)
    ensures p == ParseRun(e)
  {
    if |e.results| != |e.identity.caseIds| || SortedIds(CaseIds(e.results)) != SortedIds(e.identity.caseIds) {
      return None;
    }
    var observations, renderer, conformance, measured := ParseAll(ByCaseId(e.results));
    if observations.None? || measured == 0 || !SummaryAgrees(e.summary, observations.value, renderer, conformance) {
      return None;
    }
    return Some(Parsed(e.identity, observations.value, renderer, conformance));
  }

  method EvaluateStabilityCanary(cases: Cases, evidences: seq<Evidence>) returns (a: Assessment)
    requires DistinctIds(RunsOf(evidences))
    ensures DistinctRuns(RunSet(RunsOf(evidences))) && a == Assess(cases, RunSet(RunsOf(evidences)))
  {
    var runs: seq<Run> := [];
    for n := 0 to |evidences|
      invariant runs == RunsOf(evidences)[..n]
    {
      var e := evidences[n];
      var parsed: Option<Parsed> := None;
      if e.envelope.Some? {
        parsed := ReadRun(e.envelope.value);
      }
      runs := runs + [Run(e.runId, e.completedAt, parsed)];
    }
    assert runs == RunsOf(evidences);
    a := AssessRuns(cases, runs);
  }

  // ----- what a verdict says of the suite

  function ObservedIds(observations: seq<Observation>): (ids: seq<string>)
    ensures |ids| == |observations| && forall i | 0 <= i < |ids| :: ids[i] == observations[i].caseId
  {
    seq(|observations|, i requires 0 <= i < |observations| => observations[i].caseId)
  }

  lemma {:induction false} ResultsKeepIds(results: seq<CaseResult>)
    requires ParseResults(results).Some?
    ensures ObservedIds(ParseResults(results).value) == CaseIds(results)
  {
    if results != [] {
      ResultsKeepIds(results[..|results| - 1]);
    }
  }

  lemma CaseIdsOfSum(a: seq<CaseResult>, b: seq<CaseResult>)
    ensures CaseIds(a + b) == CaseIds(a) + CaseIds(b)
  {
  }

  lemma HeadId(s: seq<CaseResult>)
    requires s != []
    ensures multiset(CaseIds(s)) == multiset(CaseIds(s[1..])) + multiset{s[0].caseId}
  {
    CaseIdsOfSum([s[0]], s[1..]);
    assert s == [s[0]] + s[1..] && CaseIds([s[0]]) == [s[0].caseId];
  }

  lemma {:induction false} InsertKeepsIds(le: (CaseResult, CaseResult) -> bool, x: CaseResult, s: seq<CaseResult>,
                                          inserted: seq<CaseResult>)
    requires inserted == Sorting.Insert(le, x, s)
    ensures multiset(CaseIds(inserted)) == multiset(CaseIds(s)) + multiset{x.caseId}
  {
    HeadId(inserted);
    if s == [] || le(x, s[0]) {
      assert inserted[0] == x && inserted[1..] == s;
    } else {
      assert inserted[0] == s[0] && inserted[1..] == Sorting.Insert(le, x, s[1..]);
      InsertKeepsIds(le, x, s[1..], inserted[1..]);
      HeadId(s);
    }
  }

  lemma {:induction false} SortKeepsIds(le: (CaseResult, CaseResult) -> bool, s: seq<CaseResult>,
                                        sorted: seq<CaseResult>)
    requires sorted == Sorting.Sort(le, s)
    ensures multiset(CaseIds(sorted)) == multiset(CaseIds(s))
  {
    if s != [] {
      var rest := Sorting.Sort(le, s[1..]);
      SortKeepsIds(le, s[1..], rest);
      InsertKeepsIds(le, s[0], rest, sorted);
      HeadId(s);
    }
  }

  /** A parsed run has exactly one observation for each entry of the suite. */
  lemma ParsedCoversSuite(e: Envelope)
    requires ParseRun(e).Some?
    ensures multiset(ObservedIds(ParseRun(e).value.observations)) == multiset(e.identity.caseIds)
    ensures ParseRun(e).value.identity == e.identity
  {
    var ordered := ByCaseId(e.results);
    ResultsKeepIds(ordered);
    SortKeepsIds((a: CaseResult, b: CaseResult) => Strings.StringLe(a.caseId, b.caseId), e.results, ordered);
    assert multiset(SortedIds(CaseIds(e.results))) == multiset(SortedIds(e.identity.caseIds));
  }

  // ----- which stored runs count, by counting over the results as they are stored

  ghost function Number(results: seq<CaseResult>, p: CaseResult -> bool): nat {
    |set i | 0 <= i < |results| && p(results[i])|
  }

  lemma NumberFront(front: seq<CaseResult>, last: CaseResult, p: CaseResult -> bool)
    ensures Number(front + [last], p) == Number(front, p) + if p(last) then 1 else 0
  {
    var all := front + [last];
    var before := set i | 0 <= i < |front| && p(front[i]);
    var after := set i | 0 <= i < |all| && p(all[i]);
    if p(last) {
      assert after == before + {|front|};
    } else {
      assert after == before;
    }
  }

  lemma {:induction false} CountIsNumber(results: seq<CaseResult>, p: CaseResult -> bool)
    ensures Count(results, p) == Number(results, p)
  {
    if results != [] {
      var front, last := results[..|results| - 1], results[|results| - 1];
      CountIsNumber(front, p);
      NumberFront(front, last, p);
      assert results == front + [last];
    }
  }

  lemma {:induction false} CountSum(a: seq<CaseResult>, b: seq<CaseResult>, p: CaseResult -> bool)
    ensures Count(a + b, p) == Count(a, p) + Count(b, p)
  {
    if b == [] {
      assert a + b == a;
    } else {
      var front := b[..|b| - 1];
      assert (a + b)[..|a + b| - 1] == a + front;
      CountSum(a, front, p);
    }
  }

  lemma CountOne(r: CaseResult, p: CaseResult -> bool)
    ensures Count([r], p) == if p(r) then 1 else 0
  {
    assert [r][..0] == [];
  }

  lemma HeadCount(s: seq<CaseResult>, p: CaseResult -> bool)
    requires s != []
    ensures Count(s, p) == (if p(s[0]) then 1 else 0) + Count(s[1..], p)
  {
    assert s == [s[0]] + s[1..];
    CountSum([s[0]], s[1..], p);
    CountOne(s[0], p);
  }

  lemma {:induction false} InsertCount(le: (CaseResult, CaseResult) -> bool, x: CaseResult, s: seq<CaseResult>,
                                       inserted: seq<CaseResult>, p: CaseResult -> bool)
    requires inserted == Sorting.Insert(le, x, s)
    ensures Count(inserted, p) == Count(s, p) + if p(x) then 1 else 0
  {
    HeadCount(inserted, p);
    if s == [] || le(x, s[0]) {
      assert inserted[0] == x && inserted[1..] == s;
    } else {
      assert inserted[0] == s[0] && inserted[1..] == Sorting.Insert(le, x, s[1..]);
      InsertCount(le, x, s[1..], inserted[1..], p);
      HeadCount(s, p);
    }
  }

  lemma {:induction false} SortCount(le: (CaseResult, CaseResult) -> bool, s: seq<CaseResult>, sorted: seq<CaseResult>,
                                     p: CaseResult -> bool)
    requires sorted == Sorting.Sort(le, s)
    ensures Count(sorted, p) == Count(s, p)
  {
    if s != [] {
      var rest := Sorting.Sort(le, s[1..]);
      SortCount(le, s[1..], rest, p);
      InsertCount(le, s[0], rest, sorted, p);
      HeadCount(s, p);
    }
  }

  /** A count over the results in the order of their case ids is the number over the results as stored. */
  lemma OrderedCount(results: seq<CaseResult>, p: CaseResult -> bool)
    ensures Count(ByCaseId(results), p) == Number(results, p)
  {
    SortCount((a: CaseResult, b: CaseResult) => Strings.StringLe(a.caseId, b.caseId), results, ByCaseId(results), p);
    CountIsNumber(results, p);
  }

  function Compared(c: Comparison): CaseResult -> bool {
    (r: CaseResult) => r.accepted.Some? && r.accepted.value.comparison == c
  }

  lemma {:induction false} ParsedComparisons(results: seq<CaseResult>, c: Comparison)
    requires ParseResults(results).Some?
    ensures multiset(Comparisons(ParseResults(results).value))[c] == Count(results, Compared(c))
  {
    if results != [] {
      var front, last := results[..|results| - 1], results[|results| - 1];
      ParsedComparisons(front, c);
      var observations := ParseResults(front).value;
      assert Comparisons(observations + [ParseResult(last).value])
          == Comparisons(observations) + [ParseResult(last).value.comparison];
    }
  }

  lemma {:induction false} AllParse(results: seq<CaseResult>)
    ensures ParseResults(results).Some? <==> forall r | r in results :: r.accepted.Some?
  {
    if results != [] {
      var front, last := results[..|results| - 1], results[|results| - 1];
      AllParse(front);
      assert results == front + [last];
    }
  }

  lemma SameIds(a: seq<string>, b: seq<string>)
    ensures SortedIds(a) == SortedIds(b) <==> multiset(a) == multiset(b)
  {
    if multiset(a) == multiset(b) {
      Strings.StringsTotal(a);
      Sorting.SortForgetsOrder((x: string, y: string) => Strings.StringLe(x, y), a, b);
    }
    assert multiset(SortedIds(a)) == multiset(a) && multiset(SortedIds(b)) == multiset(b);
  }

  /** The summary gives the true number of each comparison state and of each kind of defect. */
  ghost predicate AddsUp(e: Envelope) {
    && e.summary.plannerShaped
    && e.summary.unestablished == Some(Number(e.results, Compared(Unestablished)))
    && e.summary.comparisons.Some?
    && (forall c: Comparison ::
          c in e.summary.comparisons.value && e.summary.comparisons.value[c] == Number(e.results, Compared(c)))
    && e.summary.rendererDefects == Some(Number(e.results, (r: CaseResult) => r.rendererFailed))
    && e.summary.conformanceDefects == Some(Number(e.results, (r: CaseResult) => r.conformanceFailed))
  }

  lemma SummaryExactly(e: Envelope)
    requires ParseResults(ByCaseId(e.results)).Some?
    ensures var ordered := ByCaseId(e.results);
            SummaryAgrees(e.summary, ParseResults(ordered).value, RendererDefects(ordered), ConformanceDefects(ordered))
            <==> AddsUp(e)
  {
    var ordered := ByCaseId(e.results);
    forall c: Comparison
      ensures multiset(Comparisons(ParseResults(ordered).value))[c] == Number(e.results, Compared(c))
    {
      ParsedComparisons(ordered, c);
      OrderedCount(e.results, Compared(c));
    }
    OrderedCount(e.results, (r: CaseResult) => r.rendererFailed);
    OrderedCount(e.results, (r: CaseResult) => r.conformanceFailed);
    if e.summary.comparisons.Some? {
      AllStates(e.summary.comparisons.value);
    }
  }

  lemma OneOfFive(c: Comparison)
    ensures c == Correct || c == Incorrect || c == Unestablished || c == NotReached || c == NotApplicable
  {
    match c
    case Correct =>
    case Incorrect =>
    case Unestablished =>
    case NotReached =>
    case NotApplicable =>
  }

  lemma AllStates(stored: map<Comparison, int>)
    ensures stored.Keys == {Correct, Incorrect, Unestablished, NotReached, NotApplicable} <==>
            forall c: Comparison :: c in stored
  {
    forall c | c in stored ensures c in {Correct, Incorrect, Unestablished, NotReached, NotApplicable} {
      OneOfFive(c);
    }
    if stored.Keys == {Correct, Incorrect, Unestablished, NotReached, NotApplicable} {
      forall c: Comparison ensures c in stored {
        OneOfFive(c);
      }
    }
  }

  /** A stored run counts exactly when its results are those of the suite's cases, each is accepted, some is measured,
      and the summary gives their true numbers; the order in which they are stored does not matter. */
  lemma ParsedExactly(e: Envelope)
    ensures ParseRun(e).Some? <==>
            && multiset(CaseIds(e.results)) == multiset(e.identity.caseIds)
            && (forall r | r in e.results :: r.accepted.Some?)
            && Number(e.results, (r: CaseResult) => r.measured) > 0
            && AddsUp(e)
    ensures ParseRun(e).Some? ==>
            && ParseRun(e).value.rendererDefects == Number(e.results, (r: CaseResult) => r.rendererFailed)
            && ParseRun(e).value.conformanceDefects == Number(e.results, (r: CaseResult) => r.conformanceFailed)
  {
    var ordered := ByCaseId(e.results);
    SameIds(CaseIds(e.results), e.identity.caseIds);
    SameLength(CaseIds(e.results), e.identity.caseIds);
    Sorting.SameElements(ordered, e.results);
    AllParse(ordered);
    OrderedCount(e.results, (r: CaseResult) => r.measured);
    OrderedCount(e.results, (r: CaseResult) => r.rendererFailed);
    OrderedCount(e.results, (r: CaseResult) => r.conformanceFailed);
    if ParseResults(ordered).Some? {
      SummaryExactly(e);
    }
  }

  lemma SameLength(a: seq<string>, b: seq<string>)
    ensures multiset(a) == multiset(b) ==> |a| == |b|
  {
    assert |multiset(a)| == |a| && |multiset(b)| == |b|;
  }

  lemma {:induction false} CaseCount(observations: seq<Observation>, caseId: string)
    ensures |Of(observations, caseId)| == multiset(ObservedIds(observations))[caseId]
  {
    if observations != [] {
      var front, last := observations[..|observations| - 1], observations[|observations| - 1];
      CaseCount(front, caseId);
      assert ObservedIds(observations) == ObservedIds(front) + [last.caseId];
    }
  }

  /** How often a run observed a case is how often the suite lists it. */
  predicate CoversSuite(p: Parsed) {
    forall caseId | caseId in p.identity.caseIds ::
      |Of(p.observations, caseId)| == multiset(p.identity.caseIds)[caseId] > 0
  }

  lemma CoversExactly(p: Parsed)
    requires multiset(ObservedIds(p.observations)) == multiset(p.identity.caseIds)
    ensures CoversSuite(p)
    ensures forall o | o in p.observations :: o.caseId in p.identity.caseIds
  {
    forall caseId | caseId in p.identity.caseIds
      ensures |Of(p.observations, caseId)| == multiset(p.identity.caseIds)[caseId] > 0
    {
      CaseCount(p.observations, caseId);
    }
    forall o | o in p.observations ensures o.caseId in p.identity.caseIds {
      var k :| 0 <= k < |p.observations| && p.observations[k] == o;
      assert ObservedIds(p.observations)[k] == o.caseId;
      assert o.caseId in multiset(p.identity.caseIds);
    }
  }

  lemma RunCovers(evidences: seq<Evidence>, r: Run)
    requires r in RunsOf(evidences) && r.parsed.Some?
    ensures CoversSuite(r.parsed.value)
    ensures forall o | o in r.parsed.value.observations :: o.caseId in r.parsed.value.identity.caseIds
  {
    var i :| 0 <= i < |evidences| && RunsOf(evidences)[i] == r;
    ParsedCoversSuite(evidences[i].envelope.value);
    CoversExactly(r.parsed.value);
  }

  /** PASSED means three runs of one identity, each with its observation of every case the suite lists,
      and for each of those cases one outcome, pass, score, semantic-contract result and failure stage in all three. */
  lemma PassedRunsAgree(cases: Cases, evidences: seq<Evidence>) returns (identity: Identity)
    requires DistinctIds(RunsOf(evidences)) && DistinctRuns(RunSet(RunsOf(evidences)))
    requires Assess(cases, RunSet(RunsOf(evidences))).status == Passed
    ensures var selected := Assess(cases, RunSet(RunsOf(evidences))).selected;
            && |selected| == 3 && Sorting.Distinct(selected)
            && (forall r | r in selected ::
                  r in RunsOf(evidences) && r.parsed.Some? && r.parsed.value.identity == identity)
            && (forall r, caseId | r in selected && caseId in identity.caseIds ::
                  |Of(r.parsed.value.observations, caseId)| == multiset(identity.caseIds)[caseId] > 0)
            && (forall r, o | r in selected && o in r.parsed.value.observations :: o.caseId in identity.caseIds)
            && (forall r, t, o, p | r in selected && t in selected && o in r.parsed.value.observations
                                    && p in t.parsed.value.observations && o.caseId == p.caseId :: Agree(o, p))
  {
    identity := PassedRunsAgreeOnShared(cases, RunSet(RunsOf(evidences)));
    var selected := Assess(cases, RunSet(RunsOf(evidences))).selected;
    forall r | r in selected
      ensures r in RunsOf(evidences) && CoversSuite(r.parsed.value)
      ensures forall o | o in r.parsed.value.observations :: o.caseId in identity.caseIds
    {
      RunCovers(evidences, r);
    }
  }

  /** In a suite that lists no case twice, each of the three runs observed each case exactly once. */
  lemma OneObservationEach(p: Parsed, caseId: string)
    requires CoversSuite(p) && Sorting.Distinct(p.identity.caseIds) && caseId in p.identity.caseIds
    ensures |Of(p.observations, caseId)| == 1
  {
    Sorting.DistinctCount(p.identity.caseIds);
    assert caseId in multiset(p.identity.caseIds);
  }
}
