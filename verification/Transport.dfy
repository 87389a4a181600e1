/** What the dispatch guard lets through: the contracted requests only, and nothing after a bad exchange. */
module Transport {
  import opened Options
  import opened Dispatch

  /** The one request a contract allows for a case. */
  function ContractedRequest(active: Request, apiKey: string): HttpRequest {
    HttpRequest("POST", "https://api.openai.com/v1/responses", "Bearer " + apiKey, Some(active.bodyDigest))
  }

  predicate HasCase(requests: seq<Request>, caseId: string) {
    exists i :: 0 <= i < |requests| && requests[i].caseId == caseId
  }

  /** What may be recorded of a case. */
  predicate EvidenceOk(record: CaseRecord) {
    && record.onlyAllowedFields && record.flagsAreBooleans
    && (record.outcome == "plan" || record.outcome == "clarification" || record.outcome == "unsafe_request")
  }

  predicate LineOk(requests: seq<Request>, event: Event) {
    match event
    case Started(_) => true
    case StoppedBy(_) => true
    case LogicalCall(caseId, number) => 0 < number <= |requests| && requests[number - 1].caseId == caseId
    case Reserved(caseId, number) => 0 < number <= |requests| && HasCase(requests, caseId)
    case DispatchResult(caseId, number, _) => 0 < number <= |requests| && HasCase(requests, caseId)
    case CaseResult(record) => HasCase(requests, record.caseId) && EvidenceOk(record)
  }

  /** A call of the transport carries the contracted request of its case; a journal line fits the contract. */
  predicate EffectOk(requests: seq<Request>, apiKey: string, e: Effect) {
    match e
    case Sent(caseId, request) =>
      exists i :: 0 <= i < |requests| && requests[i].caseId == caseId
                  && request == ContractedRequest(requests[i], apiKey)
    case Wrote(event, _) => LineOk(requests, event)
  }

  // ----- one call

  /** The contracted request of an active case that was not sent yet, within the budget. */
  predicate Admits(s: State, request: HttpRequest) {
    && !s.stopped && s.active.Some? && s.active.value < |s.requests| && s.physicalDispatches < s.maxCalls
    && !s.requests[s.active.value].dispatched
    && request == ContractedRequest(s.requests[s.active.value], s.apiKey)
  }

  /** The transport is called past the callback and after a durable reservation. */
  predicate Sends(s: State, request: HttpRequest, env: Environment) {
    Admits(s, request) && !env.callback.CallbackRaises? && env.reserve.Durable?
  }

  /** A complete answer of the right model to a request that got through. */
  predicate GoodAnswer(x: Exchange) {
    && x.Response? && 200 <= x.status < 300 && x.size <= 1_000_000
    && x.isJson && x.usageComplete && x.identityAndStatusOk
  }

  lemma HandleCases(s: State, request: HttpRequest, env: Environment) returns (code: string)
    requires s.Valid()
    ensures !Admits(s, request) ==> Handle(s, request, env) == Stop(s, code, env.stopWrite)
    ensures Admits(s, request) && env.callback.CallbackRaises? ==>
            Handle(s, request, env) == (s.(stopped := true), OtherException)
    ensures Admits(s, request) && !env.callback.CallbackRaises? ==>
            Handle(s, request, env) == Exchanged(s, s.requests[s.active.value], request, env)
  {
    code := if s.stopped || s.active.None? || s.requests[s.active.value].dispatched
               || s.physicalDispatches >= s.maxCalls then "physical_budget_exhausted"
            else if request.bodyDigest.None? then "invalid_request" else "request_identity_mismatch";
  }

  lemma StopSendsNothing(s: State, code: string, w: Write)
    ensures var (t, outcome) := Stop(s, code, w);
            && s.trace <= t.trace && t.stopped && outcome != Returned
            && forall e | e in t.trace[|s.trace|..] :: e == Wrote(StoppedBy(code), w.Durable?)
  {
  }

  function Failure(env: Environment): Option<string> {
    if env.reserve.Durable? then Judge(env.exchange)
    else if env.reserve.Short? then Some(JOURNAL_WRITE_FAILED) else Some("transport_or_interruption")
  }

  lemma SentOnly(caseId: string, request: HttpRequest, number: nat, failure: Option<string>, reserve: Write,
                 result: Write)
    ensures var effects := ExchangeEffects(caseId, request, number, failure, reserve, result);
            && (forall e | e in effects && e.Sent? :: reserve.Durable? && e == Sent(caseId, request))
            && (reserve.Durable? ==> Sent(caseId, request) in effects)
  {
  }

  /** Each failure is recorded under the code of its first cause. */
  lemma JudgedExactly(x: Exchange)
    ensures Judge(x).None? <==> GoodAnswer(x)
    ensures Judge(x) == Some("transport_or_interruption") <==> x.Interrupted?
    ensures Judge(x) == Some("unexpected_redirect") <==> x.Response? && 300 <= x.status < 400
    ensures Judge(x) == Some("http_failure") <==> x.Response? && !(200 <= x.status < 400)
    ensures x.Response? && 200 <= x.status < 300 ==>
            && (Judge(x) == Some("response_too_large") <==> x.size > 1_000_000)
            && (Judge(x) == Some("response_invalid") <==> x.size <= 1_000_000 && !x.isJson)
            && (Judge(x) == Some("incomplete_usage") <==> x.size <= 1_000_000 && x.isJson && !x.usageComplete)
            && (Judge(x) == Some("response_identity_or_status_invalid") <==>
                  x.size <= 1_000_000 && x.isJson && x.usageComplete && !x.identityAndStatusOk)
  {
  }

  lemma ExchangedExactly(s: State, request: HttpRequest, env: Environment)
    requires s.Valid() && s.active.Some?
    ensures var active := s.requests[s.active.value];
            var (t, outcome) := Exchanged(s, active, request, env);
            && s.trace <= t.trace
            && (forall e | e in t.trace[|s.trace|..] && e.Sent? ::
                  env.reserve.Durable? && e == Sent(active.caseId, request))
            && (env.reserve.Durable? ==> Sent(active.caseId, request) in t.trace[|s.trace|..])
            && (outcome == Returned <==> Failure(env).None? && env.result.Durable?)
            && (outcome != Returned ==> t.stopped)
  {
    var active := s.requests[s.active.value];
    SentOnly(active.caseId, request, s.physicalDispatches + 1, Failure(env), env.reserve, env.result);
    var t := Exchanged(s, active, request, env).0;
    assert t.trace[|s.trace|..]
        == ExchangeEffects(active.caseId, request, s.physicalDispatches + 1, Failure(env), env.reserve, env.result);
  }

  /** A call of the transport happens exactly for an admitted request, and carries it; the guard goes on exactly
      after a good answer whose result line is durable. */
  lemma HandleSendsExactly(s: State, request: HttpRequest, env: Environment)
    requires s.Valid()
    ensures var (t, outcome) := Handle(s, request, env);
            && s.trace <= t.trace
            && (forall e | e in t.trace[|s.trace|..] && e.Sent? ::
                  Sends(s, request, env) && e == Sent(s.requests[s.active.value].caseId, request))
            && (Sends(s, request, env) ==> Sent(s.requests[s.active.value].caseId, request) in t.trace[|s.trace|..])
            && (outcome == Returned <==> Sends(s, request, env) && GoodAnswer(env.exchange) && env.result.Durable?)
            && (outcome != Returned ==> t.stopped)
  {
    var code := HandleCases(s, request, env);
    StopSendsNothing(s, code, env.stopWrite);
    if Admits(s, request) {
      ExchangedExactly(s, request, env);
      FailureNone(env);
    }
  }

  lemma FailureNone(env: Environment)
    ensures Failure(env).None? <==> env.reserve.Durable? && GoodAnswer(env.exchange)
  {
    JudgedExactly(env.exchange);
  }

  /** What the guard remembers of a request it let through: its case, its number, and why it failed, if it did; the
      same is written to the journal. */
  lemma HandleRecords(s: State, request: HttpRequest, env: Environment)
    requires s.Valid()
    ensures var t := Handle(s, request, env).0;
            if Admits(s, request) && !env.callback.CallbackRaises? then
              var caseId, number := s.requests[s.active.value].caseId, s.physicalDispatches + 1;
              && t.records == s.records + [Record(caseId, number, Failure(env))]
              && t.physicalDispatches == number && t.requests[s.active.value].dispatched
              && (env.result.Durable? ==>
                    && t.trace != []
                    && t.trace[|t.trace| - 1] == Wrote(DispatchResult(caseId, number, Failure(env)), true))
            else t.records == s.records && t.requests == s.requests && t.physicalDispatches == s.physicalDispatches
  {
    var code := HandleCases(s, request, env);
  }

  /** A case ends exactly when its request was sent and its evidence, if any, is its own and well formed. */
  lemma FinishExactly(s: State, record: Option<CaseRecord>, w: Write)
    requires s.Valid()
    ensures var (t, outcome) := Finish(s, record, w);
            && (outcome == Returned <==>
                  && !s.stopped && s.active.Some? && s.requests[s.active.value].dispatched
                  && (record.Some? ==> EvidenceOk(record.value)
                                       && record.value.caseId == s.requests[s.active.value].caseId && w.Durable?))
            && (if outcome == Returned then t.active.None? && !t.stopped else t.stopped)
  {
  }

  /** After an exchange that went wrong in any way, whatever is called next, nothing more is sent. */
  lemma BadExchangeIsLast(s: State, request: HttpRequest, env: Environment, calls: seq<Call>)
    requires s.Valid() && !(GoodAnswer(env.exchange) && env.reserve.Durable? && env.result.Durable?)
    ensures var t := Handle(s, request, env).0;
            t.Valid() && t.stopped && SentIds(Run(t, calls).trace) == SentIds(t.trace)
  {
    HandleSendsExactly(s, request, env);
    StepIs(s, CallHandle(request, env));
    assert Step(s, CallHandle(request, env)).0.Valid();
    NothingSentAfterStop(Handle(s, request, env).0, calls);
  }

  // ----- any run

  /** The guard still has the requests it was opened with, but for their marks, and kept to them so far. */
  ghost predicate KeepsContract(requests: seq<Request>, apiKey: string, s: State) {
    && s.apiKey == apiKey && |s.requests| == |requests| == s.maxCalls && s.physicalDispatches <= s.maxCalls
    && (forall i | 0 <= i < |requests| ::
          s.requests[i].caseId == requests[i].caseId && s.requests[i].bodyDigest == requests[i].bodyDigest)
    && (forall e | e in s.trace :: EffectOk(requests, apiKey, e))
  }

  lemma LineKept(requests: seq<Request>, apiKey: string, s: State, event: Event, w: Write)
    requires KeepsContract(requests, apiKey, s) && LineOk(requests, event)
    ensures KeepsContract(requests, apiKey, s.Write(event, w))
  {
  }

  lemma StopKept(requests: seq<Request>, apiKey: string, s: State, code: string, w: Write)
    requires KeepsContract(requests, apiKey, s)
    ensures KeepsContract(requests, apiKey, Stop(s, code, w).0)
  {
    LineKept(requests, apiKey, s.(stopped := true), StoppedBy(code), w);
  }

  lemma BeginKept(requests: seq<Request>, apiKey: string, s: State, caseId: string, w: Write)
    requires s.Valid() && KeepsContract(requests, apiKey, s)
    ensures KeepsContract(requests, apiKey, Begin(s, caseId, w).0)
  {
    StopKept(requests, apiKey, s, "logical_budget_or_order_invalid", w);
    if !s.stopped && s.active.None? && s.logicalCalls < s.maxCalls && s.requests[s.logicalCalls].caseId == caseId {
      LineKept(requests, apiKey, s.(active := Some(s.logicalCalls), logicalCalls := s.logicalCalls + 1),
               LogicalCall(caseId, s.logicalCalls + 1), w);
    }
  }

  lemma FinishKept(requests: seq<Request>, apiKey: string, s: State, record: Option<CaseRecord>, w: Write)
    requires s.Valid() && KeepsContract(requests, apiKey, s)
    ensures KeepsContract(requests, apiKey, Finish(s, record, w).0)
  {
    if s.stopped || s.active.None? || !s.requests[s.active.value].dispatched {
      StopKept(requests, apiKey, s, "missing_or_failed_dispatch", w);
    } else if record.Some? {
      StopKept(requests, apiKey, s, "case_evidence_invalid", w);
      var r := record.value;
      if EvidenceOk(r) && r.caseId == s.requests[s.active.value].caseId {
        assert requests[s.active.value].caseId == r.caseId;
        LineKept(requests, apiKey, s, CaseResult(r), w);
      }
    }
  }

  lemma EffectsKept(requests: seq<Request>, apiKey: string, i: nat, number: nat, failure: Option<string>,
                    reserve: Write, result: Write)
    requires i < |requests| && 0 < number <= |requests|
    ensures forall e | e in ExchangeEffects(requests[i].caseId, ContractedRequest(requests[i], apiKey), number,
                                            failure, reserve, result) :: EffectOk(requests, apiKey, e)
  {
  }

  lemma HandleKept(requests: seq<Request>, apiKey: string, s: State, request: HttpRequest, env: Environment)
    requires s.Valid() && KeepsContract(requests, apiKey, s)
    ensures KeepsContract(requests, apiKey, Handle(s, request, env).0)
  {
    var code := HandleCases(s, request, env);
    StopKept(requests, apiKey, s, code, env.stopWrite);
    if Admits(s, request) && !env.callback.CallbackRaises? {
      var i := s.active.value;
      EffectsKept(requests, apiKey, i, s.physicalDispatches + 1, Failure(env), env.reserve, env.result);
      var t := Exchanged(s, s.requests[i], request, env).0;
      assert t.trace == s.trace + ExchangeEffects(requests[i].caseId, request, s.physicalDispatches + 1, Failure(env),
                                                  env.reserve, env.result);
    }
  }

  lemma StepKept(requests: seq<Request>, apiKey: string, s: State, call: Call)
    requires s.Valid() && KeepsContract(requests, apiKey, s)
    ensures KeepsContract(requests, apiKey, Step(s, call).0)
  {
    StepIs(s, call);
    match call
    case CallBegin(caseId, w) => BeginKept(requests, apiKey, s, caseId, w);
    case CallHandle(request, env) => HandleKept(requests, apiKey, s, request, env);
    case CallFinish(record, w) => FinishKept(requests, apiKey, s, record, w);
    case CallStop(code, w) => StopKept(requests, apiKey, s, code, w);
  }

  lemma {:induction false} RunKept(requests: seq<Request>, apiKey: string, s: State, calls: seq<Call>)
    requires s.Valid() && KeepsContract(requests, apiKey, s)
    ensures KeepsContract(requests, apiKey, Run(s, calls))
    decreases |calls|
  {
    if calls != [] {
      StepKept(requests, apiKey, s, calls[0]);
      RunKept(requests, apiKey, Step(s, calls[0]).0, calls[1..]);
    }
  }

  /** In every run of a fresh guard, whatever fails and whatever marks the requests arrive with, every call of the
      transport carries the contracted request of its case, and every journal line fits the contract. */
  lemma OnlyContractedRequests(requests: seq<Request>, maxCalls: nat, apiKey: string, fingerprint: string,
                               calls: seq<Call>)
    requires ContractOk(requests, maxCalls, apiKey)
    ensures var start := Opened(requests, maxCalls, apiKey, fingerprint);
            start.Valid() && forall e | e in Run(start, calls).trace :: EffectOk(requests, apiKey, e)
  {
    RunKept(requests, apiKey, Opened(requests, maxCalls, apiKey, fingerprint), calls);
  }
}
