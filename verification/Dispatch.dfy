/** The single-use dispatch guard: budget, order and write-ahead journal of a fixed list of requests. */
module Dispatch {
  import opened Options

  const RESPONSES_URL := "https://api.openai.com/v1/responses"

  /** A contracted request. `dispatched` is the key the guard sets on the caller's own dictionary. */
  datatype Request = Request(caseId: string, bodyDigest: nat, dispatched: bool)

  datatype Event =
    | Started(fingerprint: string)
    | LogicalCall(caseId: string, number: nat)
    | Reserved(caseId: string, number: nat)
    | DispatchResult(caseId: string, number: nat, failure: Option<string>)
    | CaseResult(record: CaseRecord)
    | StoppedBy(code: string)

  /** What the world saw, in order: whole journal lines, synced or not, and transport calls. */
  datatype Effect = Wrote(event: Event, durable: bool) | Sent(caseId: string, request: HttpRequest)

  /** A journal write returns only when durable. A short one leaves no whole line and stops with its own code;
      one that fails otherwise, in the write or in the sync, may still have left a whole line behind. */
  datatype Write = Durable | Short | Failing(reached: bool)

  datatype Outcome = Returned | Diagnostic(code: string) | OtherException

  datatype HttpRequest = HttpRequest(verb: string, url: string, authorization: string, bodyDigest: Option<nat>)

  datatype Callback = NoCallback | CallbackReturns | CallbackRaises

  datatype Exchange =
    | Interrupted
    | Response(status: int, size: nat, isJson: bool, usageComplete: bool, identityAndStatusOk: bool)

  /** The failures the environment may choose during one transport call. */
  datatype Environment = Environment(callback: Callback, reserve: Write, exchange: Exchange, result: Write,
                                     stopWrite: Write)

  datatype CaseRecord = CaseRecord(caseId: string, outcome: string, onlyAllowedFields: bool, flagsAreBooleans: bool)

  datatype Record = Record(caseId: string, number: nat, failure: Option<string>)

  datatype State = State(
    maxCalls: nat, apiKey: string, requests: seq<Request>,
    logicalCalls: nat, physicalDispatches: nat, stopped: bool, active: Option<nat>,
    records: seq<Record>, trace: seq<Effect>)
  {
    ghost predicate Valid() {
      && |requests| == maxCalls
      && logicalCalls <= maxCalls
      && (active.Some? ==> active.value < maxCalls)
      && forall i, j | 0 <= i < j < |requests| :: requests[i].caseId != requests[j].caseId
    }

    function Write(event: Event, w: Write): State {
      this.(trace := trace + Lines(event, w))
    }
  }

  /** What one write leaves in the journal. */
  function Lines(event: Event, w: Write): seq<Effect> {
    match w
    case Durable => [Wrote(event, true)]
    case Short => []
    case Failing(reached) => if reached then [Wrote(event, false)] else []
  }

  const JOURNAL_WRITE_FAILED := "journal_write_failed"

  /** How a write that is not durable answers. */
  function Raised(w: Write): Outcome {
    if w.Short? then Diagnostic(JOURNAL_WRITE_FAILED) else OtherException
  }

  // ----- the calls as functions of the state

  function Stop(s: State, code: string, w: Write): (State, Outcome) {
    (s.(stopped := true).Write(StoppedBy(code), w), if w.Durable? then Diagnostic(code) else Raised(w))
  }

  function Begin(s: State, caseId: string, w: Write): (State, Outcome)
    requires s.Valid()
  {
    if s.stopped || s.active.Some? || s.logicalCalls >= s.maxCalls || s.requests[s.logicalCalls].caseId != caseId
    then Stop(s, "logical_budget_or_order_invalid", w)
    else
      var begun := s.(active := Some(s.logicalCalls), logicalCalls := s.logicalCalls + 1)
                    .Write(LogicalCall(caseId, s.logicalCalls + 1), w);
      if w.Durable? then (begun, Returned) else (begun.(stopped := true), Raised(w))
  }

  /** Why a finished exchange counts as a failure, checked in the guard's order. */
  function Judge(x: Exchange): Option<string> {
    match x
    case Interrupted => Some("transport_or_interruption")
    case Response(status, size, isJson, usageComplete, identityAndStatusOk) =>
      if size <= 1_000_000 && !isJson && 200 <= status < 300 then Some("response_invalid")
      else if 300 <= status < 400 then Some("unexpected_redirect")
      else if !(200 <= status < 300) then Some("http_failure")
      else if size > 1_000_000 then Some("response_too_large")
      else if !usageComplete then Some("incomplete_usage")
      else if !identityAndStatusOk then Some("response_identity_or_status_invalid")
      else None
  }

  function Handle(s: State, request: HttpRequest, env: Environment): (State, Outcome)
    requires s.Valid()
  {
    if s.stopped || s.active.None? || s.requests[s.active.value].dispatched || s.physicalDispatches >= s.maxCalls
    then Stop(s, "physical_budget_exhausted", env.stopWrite)
    else if request.bodyDigest.None? then Stop(s, "invalid_request", env.stopWrite)
    else
      var active := s.requests[s.active.value];
      if request.verb != "POST" || request.url != RESPONSES_URL || request.authorization != "Bearer " + s.apiKey
         || request.bodyDigest.value != active.bodyDigest
      then Stop(s, "request_identity_mismatch", env.stopWrite)
      else if env.callback.CallbackRaises? then (s.(stopped := true), OtherException)
      else Exchanged(s, active, request, env)
  }

  /** The effects of one exchange: a reservation, the transport call if that was durable, the result. */
  function ExchangeEffects(caseId: string, request: HttpRequest, number: nat, failure: Option<string>,
                           reserve: Write, result: Write): seq<Effect> {
    Lines(Reserved(caseId, number), reserve)
    + (if reserve.Durable? then [Sent(caseId, request)] else [])
    + Lines(DispatchResult(caseId, number, failure), result)
  }

  /** Reserve durably, then send, then record the result whatever happened. */
  function Exchanged(s: State, active: Request, request: HttpRequest, env: Environment): (State, Outcome)
    requires s.Valid() && s.active.Some?
  {
    var number := s.physicalDispatches + 1;
    var failure := if env.reserve.Durable? then Judge(env.exchange)
                   else if env.reserve.Short? then Some(JOURNAL_WRITE_FAILED) else Some("transport_or_interruption");
    var clean := failure.None? && env.result.Durable?;
    (s.(requests := s.requests[s.active.value := active.(dispatched := true)],
        physicalDispatches := number,
        records := s.records + [Record(active.caseId, number, failure)],
        trace := s.trace + ExchangeEffects(active.caseId, request, number, failure, env.reserve, env.result),
        stopped := s.stopped || !clean),
     if clean then Returned
     else if !env.result.Durable? then Raised(env.result)
     else if !env.reserve.Durable? then Raised(env.reserve)
     else if env.exchange.Interrupted? then OtherException
     else Diagnostic(failure.value))
  }

  function Finish(s: State, record: Option<CaseRecord>, w: Write): (State, Outcome)
    requires s.Valid()
  {
    if s.stopped || s.active.None? || !s.requests[s.active.value].dispatched
    then Stop(s, "missing_or_failed_dispatch", w)
    else if record.None? then (s.(active := None), Returned)
    else
      var r := record.value;
      if !r.onlyAllowedFields || r.caseId != s.requests[s.active.value].caseId
         || r.outcome !in {"plan", "clarification", "unsafe_request"} || !r.flagsAreBooleans
      then Stop(s, "case_evidence_invalid", w)
      else
        var written := s.Write(CaseResult(r), w);
        if w.Durable? then (written.(active := None), Returned) else (written.(stopped := true), Raised(w))
  }

  datatype Call =
    | CallBegin(caseId: string, w: Write)
    | CallHandle(request: HttpRequest, env: Environment)
    | CallFinish(record: Option<CaseRecord>, w: Write)
    | CallStop(code: string, w: Write)

  function Step(s: State, call: Call): (r: (State, Outcome))
    requires s.Valid()
    ensures r.0.Valid()
  {
    match call
    case CallBegin(caseId, w) => Begin(s, caseId, w)
    case CallHandle(request, env) => Handle(s, request, env)
    case CallFinish(record, w) => Finish(s, record, w)
    case CallStop(code, w) => Stop(s, code, w)
  }

  function Run(s: State, calls: seq<Call>): (r: State)
    requires s.Valid()
    ensures r.Valid()
    decreases |calls|
  {
    if calls == [] then s else Run(Step(s, calls[0]).0, calls[1..])
  }

  // ----- the guard object

  predicate ContractOk(requests: seq<Request>, maxCalls: nat, apiKey: string) {
    && |requests| == maxCalls
    && (forall i, j | 0 <= i < j < |requests| :: requests[i].caseId != requests[j].caseId)
    && exists c | c in apiKey :: c !in " \t\n\r"
  }

  function Opened(requests: seq<Request>, maxCalls: nat, apiKey: string, fingerprint: string): State {
    State(maxCalls, apiKey, requests, 0, 0, false, None, [], [Wrote(Started(fingerprint), true)])
  }

  class DispatchGuard {
    const maxCalls: nat
    const apiKey: string
    var requests: seq<Request>
    var logicalCalls: nat
    var physicalDispatches: nat
    var stopped: bool
    var active: Option<nat>
    var records: seq<Record>
    var trace: seq<Effect>

    function View(): State
      reads this
    {
      State(maxCalls, apiKey, requests, logicalCalls, physicalDispatches, stopped, active, records, trace)
    }

    /** Reached only when the contract holds, the journal was new and its first line was synced. */
    constructor (requests: seq<Request>, maxCalls: nat, apiKey: string, fingerprint: string)
      requires ContractOk(requests, maxCalls, apiKey)
      ensures View() == Opened(requests, maxCalls, apiKey, fingerprint)
    {
      this.maxCalls, this.apiKey, this.requests := maxCalls, apiKey, requests;
      logicalCalls, physicalDispatches, stopped, active := 0, 0, false, None;
      records, trace := [], [Wrote(Started(fingerprint), true)];
    }

    method WriteLine(event: Event, w: Write) returns (ok: bool)
      modifies this`trace
      ensures trace == old(trace) + Lines(event, w) && ok == w.Durable?
    {
      if w.Durable? {
        trace := trace + [Wrote(event, true)];
      } else if w.Failing? && w.reached {
        trace := trace + [Wrote(event, false)];
      } else {
        assert trace == trace + [];
      }
      ok := w.Durable?;
    }

    method StopWith(code: string, w: Write) returns (outcome: Outcome)
      modifies this
      ensures (View(), outcome) == Stop(old(View()), code, w)
    {
      stopped := true;
      var ok := WriteLine(StoppedBy(code), w);
      outcome := if ok then Diagnostic(code) else Raised(w);
    }

    method BeginCase(caseId: string, w: Write) returns (outcome: Outcome)
      requires View().Valid()
      modifies this
      ensures (View(), outcome) == Begin(old(View()), caseId, w)
    {
      if stopped || active.Some? || logicalCalls >= maxCalls || requests[logicalCalls].caseId != caseId {
        outcome := StopWith("logical_budget_or_order_invalid", w);
        return;
      }
      active := Some(logicalCalls);
      logicalCalls := logicalCalls + 1;
      var ok := WriteLine(LogicalCall(caseId, logicalCalls), w);
      if !ok {
        stopped := true;
        return Raised(w);
      }
      return Returned;
    }

    method HandleRequest(request: HttpRequest, env: Environment) returns (outcome: Outcome)
      requires View().Valid()
      modifies this
      ensures (View(), outcome) == Handle(old(View()), request, env)
    {
      if stopped || active.None? || requests[active.value].dispatched || physicalDispatches >= maxCalls {
        outcome := StopWith("physical_budget_exhausted", env.stopWrite);
        return;
      }
      if request.bodyDigest.None? {
        outcome := StopWith("invalid_request", env.stopWrite);
        return;
      }
      var current := requests[active.value];
      if request.verb != "POST" || request.url != RESPONSES_URL || request.authorization != "Bearer " + apiKey
         || request.bodyDigest.value != current.bodyDigest
      {
        outcome := StopWith("request_identity_mismatch", env.stopWrite);
        return;
      }
      if env.callback.CallbackRaises? {
        stopped := true;
        return OtherException;
      }
      requests := requests[active.value := current.(dispatched := true)];
      physicalDispatches := physicalDispatches + 1;
      var failure: Option<string> := Some("transport_or_interruption");
      var reserved := WriteLine(Reserved(current.caseId, physicalDispatches), env.reserve);
      if reserved {
        trace := trace + [Sent(current.caseId, request)];
        failure := Judge(env.exchange);
      } else if env.reserve.Short? {
        failure := Some(JOURNAL_WRITE_FAILED);
      }
      if failure.Some? {
        stopped := true;
      }
      records := records + [Record(current.caseId, physicalDispatches, failure)];
      var ok := WriteLine(DispatchResult(current.caseId, physicalDispatches, failure), env.result);
      assert trace == old(trace)
                      + ExchangeEffects(current.caseId, request, physicalDispatches, failure, env.reserve,
                                        env.result);
      if !ok {
        stopped := true;
        return Raised(env.result);
      }
      if failure.None? {
        return Returned;
      }
      outcome := if !reserved then Raised(env.reserve)
                 else if env.exchange.Interrupted? then OtherException else Diagnostic(failure.value);
    }

    method FinishCase(record: Option<CaseRecord>, w: Write) returns (outcome: Outcome)
      requires View().Valid()
      modifies this
      ensures (View(), outcome) == Finish(old(View()), record, w)
    {
      if stopped || active.None? || !requests[active.value].dispatched {
        outcome := StopWith("missing_or_failed_dispatch", w);
        return;
      }
      if record.Some? {
        var r := record.value;
        if !r.onlyAllowedFields || r.caseId != requests[active.value].caseId
           || r.outcome !in {"plan", "clarification", "unsafe_request"} || !r.flagsAreBooleans
        {
          outcome := StopWith("case_evidence_invalid", w);
          return;
        }
        var ok := WriteLine(CaseResult(r), w);
        if !ok {
          stopped := true;
          return Raised(w);
        }
      }
      active := None;
      return Returned;
    }
  }

  /** Opening a guard: a bad contract, a journal that exists already, or a first line or directory entry that is not
      synced leaves no guard behind. */
  method OpenGuard(requests: seq<Request>, maxCalls: nat, apiKey: string, fingerprint: string, journalIsNew: bool,
                   w: Write, directorySynced: bool)
    returns (guard: DispatchGuard?, outcome: Outcome)
    ensures guard != null <==> ContractOk(requests, maxCalls, apiKey) && journalIsNew && w.Durable? && directorySynced
    ensures guard != null ==> fresh(guard) && guard.View() == Opened(requests, maxCalls, apiKey, fingerprint)
    ensures outcome == if guard != null then Returned
                       else if !ContractOk(requests, maxCalls, apiKey) then Diagnostic("invalid_dispatch_contract")
                       else if journalIsNew && w.Short? then Diagnostic(JOURNAL_WRITE_FAILED)
                       else OtherException
  {
    if !ContractOk(requests, maxCalls, apiKey) {
      return null, Diagnostic("invalid_dispatch_contract");
    }
    if !journalIsNew {
      return null, OtherException;
    }
    if !w.Durable? {
      return null, Raised(w);
    }
    if !directorySynced {
      return null, OtherException;
    }
    guard := new DispatchGuard(requests, maxCalls, apiKey, fingerprint);
    outcome := Returned;
  }

  // ----- what the trace shows

  function SentIds(trace: seq<Effect>): seq<string> {
    if trace == [] then []
    else
      var last := trace[|trace| - 1];
      SentIds(trace[..|trace| - 1]) + if last.Sent? then [last.caseId] else []
  }

  function Reservations(trace: seq<Effect>): nat {
    if trace == [] then 0
    else
      var last := trace[|trace| - 1];
      Reservations(trace[..|trace| - 1]) + if last.Wrote? && last.durable && last.event.Reserved? then 1 else 0
  }

  /** Every transport call comes right after the durable reservation for its own case. */
  ghost predicate SentAfterReserved(trace: seq<Effect>) {
    forall i | 0 <= i < |trace| && trace[i].Sent? ::
      && i > 0 && trace[i - 1].Wrote? && trace[i - 1].durable
      && trace[i - 1].event.Reserved? && trace[i - 1].event.caseId == trace[i].caseId
  }

  lemma {:induction false} TraceConcat(trace: seq<Effect>, more: seq<Effect>)
    ensures SentIds(trace + more) == SentIds(trace) + SentIds(more)
    ensures Reservations(trace + more) == Reservations(trace) + Reservations(more)
  {
    if more == [] {
      assert trace + more == trace;
    } else {
      var front := more[..|more| - 1];
      assert (trace + more)[..|trace + more| - 1] == trace + front;
      TraceConcat(trace, front);
    }
  }

  lemma CountOne(effect: Effect)
    ensures SentIds([effect]) == if effect.Sent? then [effect.caseId] else []
    ensures Reservations([effect]) == if effect.Wrote? && effect.durable && effect.event.Reserved? then 1 else 0
  {
    assert [effect][..0] == [];
  }

  lemma SentAfterReservedConcat(trace: seq<Effect>, more: seq<Effect>)
    requires SentAfterReserved(trace) && SentAfterReserved(more)
    ensures SentAfterReserved(trace + more)
  {
    var all := trace + more;
    forall i | 0 <= i < |all| && all[i].Sent?
      ensures i > 0 && all[i - 1].Wrote? && all[i - 1].durable
              && all[i - 1].event.Reserved? && all[i - 1].event.caseId == all[i].caseId
    {
      if i >= |trace| {
        var j := i - |trace|;
        assert more[j].Sent? && all[i - 1] == more[j - 1];
      }
    }
  }

  /** A line other than a reservation is invisible to the counts. */
  lemma LinesKeepCounts(trace: seq<Effect>, event: Event, w: Write)
    requires !event.Reserved?
    ensures SentIds(trace + Lines(event, w)) == SentIds(trace)
    ensures Reservations(trace + Lines(event, w)) == Reservations(trace)
    ensures SentAfterReserved(trace) ==> SentAfterReserved(trace + Lines(event, w))
  {
    TraceConcat(trace, Lines(event, w));
    CountLines(event, w);
    if SentAfterReserved(trace) {
      SentAfterReservedConcat(trace, Lines(event, w));
    }
  }

  lemma CountLines(event: Event, w: Write)
    ensures SentIds(Lines(event, w)) == []
    ensures Reservations(Lines(event, w)) == if event.Reserved? && w.Durable? then 1 else 0
  {
    CountOne(Wrote(event, true));
    CountOne(Wrote(event, false));
  }

  // ----- the budget invariant

  /** No request but the last carries a "dispatched" mark of its own when the guard opens. */
  predicate NoEarlyMark(requests: seq<Request>) {
    forall i | 0 <= i < |requests| - 1 :: !requests[i].dispatched
  }

  ghost predicate Safe(s: State) {
    && |s.requests| == s.maxCalls
    && |SentIds(s.trace)| <= Reservations(s.trace) <= s.physicalDispatches <= s.logicalCalls <= s.maxCalls
    && s.logicalCalls - s.physicalDispatches <= 1
    && SentIds(s.trace) == CaseIds(s.requests)[..|SentIds(s.trace)|]
    && SentAfterReserved(s.trace)
    && |s.records| == s.physicalDispatches
  }

  function CaseIds(requests: seq<Request>): seq<string> {
    seq(|requests|, i requires 0 <= i < |requests| => requests[i].caseId)
  }

  ghost predicate Inv(s: State) {
    && s.Valid() && Safe(s)
    && (forall i | 0 <= i < s.maxCalls - 1 :: s.requests[i].dispatched <==> i < s.physicalDispatches)
    && (s.physicalDispatches == s.maxCalls && s.maxCalls > 0 ==> s.requests[s.maxCalls - 1].dispatched)
    && (!s.stopped ==> |SentIds(s.trace)| == s.physicalDispatches)
    && (s.active.Some? ==> s.active.value == s.logicalCalls - 1)
    && (!s.stopped && s.active.None? && s.logicalCalls < s.maxCalls ==> s.physicalDispatches == s.logicalCalls)
    && (!s.stopped && s.active.Some? && !s.requests[s.active.value].dispatched
        ==> s.physicalDispatches == s.logicalCalls - 1)
    && (!s.stopped && s.active.Some? && s.requests[s.active.value].dispatched && s.logicalCalls < s.maxCalls
        ==> s.physicalDispatches == s.logicalCalls)
  }

  lemma LineKeepsInv(s: State, event: Event, w: Write)
    requires Inv(s) && !event.Reserved?
    ensures Inv(s.Write(event, w))
  {
    LinesKeepCounts(s.trace, event, w);
    RetraceKeepsInv(s, s.trace + Lines(event, w));
  }

  lemma RetraceKeepsInv(s: State, trace: seq<Effect>)
    requires Inv(s) && SentAfterReserved(trace)
    requires SentIds(trace) == SentIds(s.trace) && Reservations(trace) == Reservations(s.trace)
    ensures Inv(s.(trace := trace))
  {
  }

  lemma StoppingKeepsInv(s: State)
    requires Inv(s)
    ensures Inv(s.(stopped := true))
  {
  }

  lemma ClearingKeepsInv(s: State)
    requires Inv(s) && !s.stopped && s.active.Some? && s.requests[s.active.value].dispatched
    ensures Inv(s.(active := None))
  {
  }

  lemma StopKeepsInv(s: State, code: string, w: Write)
    requires Inv(s)
    ensures Inv(Stop(s, code, w).0)
  {
    StoppingKeepsInv(s);
    LineKeepsInv(s.(stopped := true), StoppedBy(code), w);
  }

  lemma ReservedThenSent(caseId: string, request: HttpRequest, number: nat, failure: Option<string>,
                         reserve: Write, result: Write)
    ensures SentAfterReserved(ExchangeEffects(caseId, request, number, failure, reserve, result))
  {
    var last := Lines(DispatchResult(caseId, number, failure), result);
    assert |last| <= 1 && forall i | 0 <= i < |last| :: last[i].Wrote?;
    if reserve.Durable? {
      assert ExchangeEffects(caseId, request, number, failure, reserve, result)
             == [Wrote(Reserved(caseId, number), true), Sent(caseId, request)] + last;
    }
  }

  lemma CountExchange(caseId: string, request: HttpRequest, number: nat, failure: Option<string>,
                      reserve: Write, result: Write)
    ensures var effects := ExchangeEffects(caseId, request, number, failure, reserve, result);
            && SentIds(effects) == (if reserve.Durable? then [caseId] else [])
            && Reservations(effects) == (if reserve.Durable? then 1 else 0)
            && SentAfterReserved(effects)
  {
    ReservedThenSent(caseId, request, number, failure, reserve, result);
    var first := Lines(Reserved(caseId, number), reserve);
    var call := if reserve.Durable? then [Sent(caseId, request)] else [];
    var last := Lines(DispatchResult(caseId, number, failure), result);
    TraceConcat(first + call, last);
    TraceConcat(first, call);
    CountLines(Reserved(caseId, number), reserve);
    CountLines(DispatchResult(caseId, number, failure), result);
    CountOne(Sent(caseId, request));
  }

  /** Exactly what one exchange changes. */
  lemma ExchangedFields(s: State, active: Request, request: HttpRequest, env: Environment, t: State)
    requires s.Valid() && s.active.Some? && t == Exchanged(s, active, request, env).0
    ensures t.maxCalls == s.maxCalls && t.active == s.active && t.logicalCalls == s.logicalCalls
    ensures t.requests == s.requests[s.active.value := active.(dispatched := true)]
    ensures t.physicalDispatches == s.physicalDispatches + 1 && |t.records| == |s.records| + 1
    ensures !env.reserve.Durable? ==> t.stopped
    ensures exists failure ::
              t.trace == s.trace + ExchangeEffects(active.caseId, request, t.physicalDispatches, failure,
                                                   env.reserve, env.result)
  {
    var failure := if env.reserve.Durable? then Judge(env.exchange)
                   else if env.reserve.Short? then Some(JOURNAL_WRITE_FAILED) else Some("transport_or_interruption");
    assert t.trace == s.trace + ExchangeEffects(active.caseId, request, t.physicalDispatches, failure, env.reserve,
                                                env.result);
  }

  lemma InvAfterExchange(s: State, t: State, sent: bool)
    requires Inv(s) && !s.stopped && s.active.Some? && !s.requests[s.active.value].dispatched
    requires s.physicalDispatches < s.maxCalls
    requires t.maxCalls == s.maxCalls && t.active == s.active && t.logicalCalls == s.logicalCalls
    requires t.requests == s.requests[s.active.value := s.requests[s.active.value].(dispatched := true)]
    requires t.physicalDispatches == s.physicalDispatches + 1 && |t.records| == |s.records| + 1
    requires !sent ==> t.stopped
    requires SentIds(t.trace) == SentIds(s.trace) + (if sent then [s.requests[s.active.value].caseId] else [])
    requires Reservations(t.trace) == Reservations(s.trace) + (if sent then 1 else 0)
    requires SentAfterReserved(t.trace)
    ensures Inv(t)
  {
    var k := s.physicalDispatches;
    assert CaseIds(t.requests) == CaseIds(s.requests);
    assert CaseIds(s.requests)[..k + 1] == CaseIds(s.requests)[..k] + [s.requests[k].caseId];
  }

  lemma ExchangedKeepsInv(s: State, request: HttpRequest, env: Environment, t: State)
    requires Inv(s) && !s.stopped && s.active.Some? && !s.requests[s.active.value].dispatched
    requires s.physicalDispatches < s.maxCalls
    requires t == Exchanged(s, s.requests[s.active.value], request, env).0
    ensures Inv(t)
  {
    var active := s.requests[s.active.value];
    ExchangedFields(s, active, request, env, t);
    var failure :|
      t.trace == s.trace + ExchangeEffects(active.caseId, request, t.physicalDispatches, failure, env.reserve,
                                           env.result);
    var effects := ExchangeEffects(active.caseId, request, t.physicalDispatches, failure, env.reserve, env.result);
    CountExchange(active.caseId, request, t.physicalDispatches, failure, env.reserve, env.result);
    TraceConcat(s.trace, effects);
    SentAfterReservedConcat(s.trace, effects);
    InvAfterExchange(s, t, env.reserve.Durable?);
  }

  lemma BeginKeepsInv(s: State, caseId: string, w: Write)
    requires Inv(s)
    ensures Inv(Begin(s, caseId, w).0)
  {
    StopKeepsInv(s, "logical_budget_or_order_invalid", w);
    if !(s.stopped || s.active.Some? || s.logicalCalls >= s.maxCalls || s.requests[s.logicalCalls].caseId != caseId) {
      var begun := s.(active := Some(s.logicalCalls), logicalCalls := s.logicalCalls + 1);
      assert Inv(begun);
      LineKeepsInv(begun, LogicalCall(caseId, s.logicalCalls + 1), w);
      StoppingKeepsInv(begun.Write(LogicalCall(caseId, s.logicalCalls + 1), w));
    }
  }

  lemma HandleKeepsInv(s: State, request: HttpRequest, env: Environment)
    requires Inv(s)
    ensures Inv(Handle(s, request, env).0)
  {
    StopKeepsInv(s, "physical_budget_exhausted", env.stopWrite);
    StopKeepsInv(s, "invalid_request", env.stopWrite);
    StopKeepsInv(s, "request_identity_mismatch", env.stopWrite);
    if !(s.stopped || s.active.None? || s.requests[s.active.value].dispatched || s.physicalDispatches >= s.maxCalls) {
      ExchangedKeepsInv(s, request, env, Exchanged(s, s.requests[s.active.value], request, env).0);
    }
  }

  lemma FinishKeepsInv(s: State, record: Option<CaseRecord>, w: Write)
    requires Inv(s)
    ensures Inv(Finish(s, record, w).0)
  {
    if s.stopped || s.active.None? || !s.requests[s.active.value].dispatched {
      StopKeepsInv(s, "missing_or_failed_dispatch", w);
    } else if record.None? {
      ClearingKeepsInv(s);
    } else {
      StopKeepsInv(s, "case_evidence_invalid", w);
      var written := s.Write(CaseResult(record.value), w);
      LineKeepsInv(s, CaseResult(record.value), w);
      StoppingKeepsInv(written);
      ClearingKeepsInv(written);
    }
  }

  lemma StepIs(s: State, call: Call)
    requires s.Valid()
    ensures Step(s, call) == match call
                             case CallBegin(caseId, w) => Begin(s, caseId, w)
                             case CallHandle(request, env) => Handle(s, request, env)
                             case CallFinish(record, w) => Finish(s, record, w)
                             case CallStop(code, w) => Stop(s, code, w)
  {
  }

  lemma CallKeepsInv(s: State, call: Call) returns (t: State)
    requires Inv(s)
    ensures Inv(t) && t == Step(s, call).0
  {
    StepIs(s, call);
    t := Step(s, call).0;
    match call
    case CallBegin(caseId, w) => BeginKeepsInv(s, caseId, w);
    case CallHandle(request, env) => HandleKeepsInv(s, request, env);
    case CallFinish(record, w) => FinishKeepsInv(s, record, w);
    case CallStop(code, w) => StopKeepsInv(s, code, w);
  }

  lemma StepKeepsInv(s: State, call: Call)
    requires Inv(s)
    ensures Inv(Step(s, call).0)
  {
    var t := CallKeepsInv(s, call);
  }

  lemma {:induction false} RunKeepsInv(s: State, calls: seq<Call>)
    requires Inv(s)
    ensures Inv(Run(s, calls))
    decreases |calls|
  {
    if calls != [] {
      StepKeepsInv(s, calls[0]);
      RunKeepsInv(Step(s, calls[0]).0, calls[1..]);
    }
  }

  /** Once stopped, a guard stays stopped and never calls the transport again. */
  lemma {:induction false} NothingSentAfterStop(s: State, calls: seq<Call>)
    requires s.Valid() && s.stopped
    ensures Run(s, calls).stopped && SentIds(Run(s, calls).trace) == SentIds(s.trace)
    ensures Run(s, calls).physicalDispatches == s.physicalDispatches
    decreases |calls|
  {
    if calls != [] {
      var next := Step(s, calls[0]).0;
      match calls[0] {
        case CallBegin(_, w) => LinesKeepCounts(s.trace, StoppedBy("logical_budget_or_order_invalid"), w);
        case CallHandle(_, env) => LinesKeepCounts(s.trace, StoppedBy("physical_budget_exhausted"), env.stopWrite);
        case CallFinish(_, w) => LinesKeepCounts(s.trace, StoppedBy("missing_or_failed_dispatch"), w);
        case CallStop(code, w) => LinesKeepCounts(s.trace, StoppedBy(code), w);
      }
      assert s.(stopped := true) == s;
      NothingSentAfterStop(next, calls[1..]);
    }
  }

  // ----- when the budget holds

  const QUIET := Environment(NoCallback, Durable, Response(200, 0, true, true, true), Durable, Durable)

  /** One undisturbed round for request i. */
  function Round(s: State, i: nat): seq<Call>
    requires i < |s.requests|
  {
    [CallBegin(s.requests[i].caseId, Durable),
     CallHandle(HttpRequest("POST", RESPONSES_URL, "Bearer " + s.apiKey, Some(s.requests[i].bodyDigest)), QUIET),
     CallFinish(None, Durable)]
  }

  function Rounds(s: State, n: nat): seq<Call>
    requires n <= |s.requests|
  {
    if n == 0 then [] else Rounds(s, n - 1) + Round(s, n - 1)
  }

  lemma {:induction false} RunAppend(s: State, calls: seq<Call>, more: seq<Call>)
    requires s.Valid()
    ensures Run(s, calls + more) == Run(Run(s, calls), more)
    decreases |calls|
  {
    if calls == [] {
      assert calls + more == more;
    } else {
      assert (calls + more)[1..] == calls[1..] + more;
      RunAppend(Step(s, calls[0]).0, calls[1..], more);
    }
  }

  lemma RunOne(s: State, call: Call)
    requires s.Valid()
    ensures Run(s, [call]) == Step(s, call).0
  {
    assert [call][1..] == [];
  }

  lemma RunThree(s: State, a: Call, b: Call, c: Call)
    requires s.Valid()
    ensures Run(s, [a, b, c]) == Run(Run(Run(s, [a]), [b]), [c])
  {
    assert [a, b, c] == [a] + ([b] + [c]);
    RunAppend(s, [a], [b] + [c]);
    RunAppend(Run(s, [a]), [b], [c]);
  }

  ghost predicate Idle(s: State, n: nat) {
    && s.Valid() && !s.stopped && s.active.None? && s.logicalCalls == s.physicalDispatches == n
  }

  lemma RoundAdvances(s: State, start: State, n: nat)
    requires Idle(s, n) && n < s.maxCalls && start.Valid() && start.maxCalls == s.maxCalls
    requires s.apiKey == start.apiKey && s.requests[n] == start.requests[n] && !s.requests[n].dispatched
    ensures Idle(Run(s, Round(start, n)), n + 1)
    ensures Run(s, Round(start, n)).apiKey == s.apiKey && Run(s, Round(start, n)).maxCalls == s.maxCalls
    ensures forall i | n < i < s.maxCalls :: Run(s, Round(start, n)).requests[i] == s.requests[i]
  {
    var calls := Round(start, n);
    var begun := Step(s, calls[0]).0;
    assert begun.active == Some(n) && begun.logicalCalls == n + 1 && begun.requests == s.requests && !begun.stopped;
    var sent := Step(begun, calls[1]).0;
    assert Judge(QUIET.exchange) == None;
    assert sent.physicalDispatches == n + 1 && !sent.stopped && sent.requests[n].dispatched && sent.active == Some(n);
    RunThree(s, calls[0], calls[1], calls[2]);
    RunOne(s, calls[0]);
    RunOne(begun, calls[1]);
    RunOne(sent, calls[2]);
  }

  lemma {:induction false} RoundsAdvance(start: State, n: nat)
    requires Idle(start, 0) && n <= start.maxCalls
    requires forall i | 0 <= i < n :: !start.requests[i].dispatched
    ensures Idle(Run(start, Rounds(start, n)), n)
    ensures Run(start, Rounds(start, n)).apiKey == start.apiKey
    ensures Run(start, Rounds(start, n)).maxCalls == start.maxCalls
    ensures forall i | n <= i < start.maxCalls :: Run(start, Rounds(start, n)).requests[i] == start.requests[i]
  {
    if n > 0 {
      RoundsAdvance(start, n - 1);
      var s := Run(start, Rounds(start, n - 1));
      RunAppend(start, Rounds(start, n - 1), Round(start, n - 1));
      RoundAdvances(s, start, n - 1);
    }
  }

  /** A marked request before the last lets two logical calls run ahead of the transport. */
  lemma Overrun(s: State, k: nat, calls: seq<Call>)
    requires Idle(s, k) && k + 1 < s.maxCalls && s.requests[k].dispatched
    requires calls == [CallBegin(s.requests[k].caseId, Durable), CallFinish(None, Durable),
                       CallBegin(s.requests[k + 1].caseId, Durable)]
    ensures Run(s, calls).logicalCalls == k + 2 && Run(s, calls).physicalDispatches == k
  {
    RunThree(s, calls[0], calls[1], calls[2]);
    RunOne(s, calls[0]);
    var begun := Begin(s, s.requests[k].caseId, Durable).0;
    assert begun.requests == s.requests && begun.active == Some(k) && !begun.stopped && begun.logicalCalls == k + 1;
    RunOne(begun, calls[1]);
    var finished := Finish(begun, None, Durable).0;
    assert finished == begun.(active := None);
    RunOne(finished, calls[2]);
  }

  lemma EarlyMarkBreaksBudget(start: State, k: nat)
    requires Idle(start, 0) && k + 1 < start.maxCalls && start.requests[k].dispatched
    requires forall i | 0 <= i < k :: !start.requests[i].dispatched
    ensures exists calls :: !Safe(Run(start, calls))
  {
    RoundsAdvance(start, k);
    var s := Run(start, Rounds(start, k));
    var calls := [CallBegin(s.requests[k].caseId, Durable), CallFinish(None, Durable),
                  CallBegin(s.requests[k + 1].caseId, Durable)];
    Overrun(s, k, calls);
    RunAppend(start, Rounds(start, k), calls);
    assert !Safe(Run(start, Rounds(start, k) + calls));
  }

  lemma {:induction false} FirstMark(requests: seq<Request>, n: nat) returns (k: nat)
    requires n < |requests| && requests[n].dispatched
    ensures k <= n && requests[k].dispatched && forall i | 0 <= i < k :: !requests[i].dispatched
  {
    if j :| 0 <= j < n && requests[j].dispatched {
      k := FirstMark(requests, j);
    } else {
      k := n;
    }
  }

  /** The budget, order and durability properties hold in every run of a fresh guard exactly when no
      request but the last arrives already marked as dispatched. */
  lemma SafeExactlyWithoutEarlyMark(requests: seq<Request>, maxCalls: nat, apiKey: string, fingerprint: string)
    requires ContractOk(requests, maxCalls, apiKey)
    ensures var start := Opened(requests, maxCalls, apiKey, fingerprint);
            start.Valid() && ((forall calls :: Safe(Run(start, calls))) <==> NoEarlyMark(requests))
  {
    var start := Opened(requests, maxCalls, apiKey, fingerprint);
    CountOne(Wrote(Started(fingerprint), true));
    if NoEarlyMark(requests) {
      assert Inv(start);
      forall calls ensures Safe(Run(start, calls)) {
        RunKeepsInv(start, calls);
      }
    } else {
      var n :| 0 <= n < |requests| - 1 && requests[n].dispatched;
      var k := FirstMark(requests, n);
      EarlyMarkBreaksBudget(start, k);
    }
  }
}
