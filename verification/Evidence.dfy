/** When a bounded execution is the whole answer, and what a widened second execution adds. */
module Evidence {
  import opened Options
  import opened Delivery

  const EVIDENCE_ROW_LIMIT := 1_000
  const EVIDENCE_SQL_LIMIT := EVIDENCE_ROW_LIMIT + 1

  /** A validated statement with the two facts the evaluator reads off its syntax: whether rows may be
      compared at all, and whether its outer LIMIT is the only one and a literal. */
  datatype Statement = Statement(validation: Validation, comparable: bool, onlyOuterLimit: bool)

  datatype Execution<Row> = Execution(succeeded: bool, rows: seq<Row>, truncated: bool, payloadLimited: bool,
                                      timedOut: bool)

  datatype Completeness = Complete | SafetyLimited | Unknown

  datatype Side<Row> = Side(rows: seq<Row>, complete: bool, comparable: bool, exhausted: bool,
                            reason: Option<string>, delivery: Completeness)

  function Exhausted<Row>(v: Validation, x: Execution<Row>): bool {
    x.succeeded && !x.truncated && v.effectiveLimit.Some? && |x.rows| < v.effectiveLimit.value
  }

  function AnswerIsComplete<Row>(s: Statement, x: Execution<Row>, answerBound: Option<int>, exhausted: bool): bool {
    && x.succeeded && !x.truncated
    && ((exhausted && (s.validation.source in {Some(SafetyAdded), Some(SafetyClamped)}
                       || (s.validation.source == Some(Input) && s.comparable)))
        || (answerBound.Some? && s.validation.inputLimit == answerBound && s.validation.effectiveLimit == answerBound))
  }

  function ObservedSide<Row>(s: Statement, x: Execution<Row>, answerBound: Option<int>): Side<Row> {
    var exhausted := Exhausted(s.validation, x);
    var delivered := AnswerIsComplete(s, x, answerBound, exhausted);
    var complete := delivered && s.comparable;
    Side(x.rows, complete, s.comparable, exhausted && s.comparable,
         if complete then None else if !s.comparable then Some("unsupported_query_shape")
           else Some("nonsemantic_bound_reached"),
         if delivered then Complete
         else if s.validation.source in {Some(SafetyAdded), Some(SafetyClamped)} then SafetyLimited
         else Unknown)
  }

  function AuxiliarySide<Row>(s: Statement, x: Execution<Row>, answerBound: Option<int>): Side<Row> {
    if !x.succeeded then
      Side([], false, s.comparable, false,
           Some(if x.timedOut then "evidence_timeout" else "completeness_evidence_missing"), Unknown)
    else
      var exhausted := Exhausted(s.validation, x) && !x.payloadLimited && !x.timedOut && s.comparable;
      var complete := AnswerIsComplete(s, x, answerBound, exhausted) && !x.payloadLimited && !x.timedOut
        && s.comparable;
      Side(x.rows, complete, s.comparable, exhausted,
           if complete then None
           else if !s.comparable then Some("unsupported_query_shape")
           else if x.timedOut then Some("evidence_timeout")
           else if x.payloadLimited then Some("evidence_payload_exceeded")
           else if x.truncated then Some("evidence_row_budget_exceeded")
           else Some("nonsemantic_bound_reached"),
           if complete then Complete else Unknown)
  }

  /** Widen only a safety limit, to the statement's own limit or the look-ahead limit, whichever is less. */
  function AuxiliaryStatement(s: Statement, accepted: bool): Option<Statement> {
    var v := s.validation;
    if !v.valid || v.sanitized.None? || v.source !in {Some(SafetyAdded), Some(SafetyClamped)} then None
    else if !s.comparable || !s.onlyOuterLimit then None
    else if v.effectiveLimit.None? || !v.sanitized.value.limit.LimitLiteral?
            || v.sanitized.value.limit.n != v.effectiveLimit.value then None
    else
      var target := if v.inputLimit.None? || v.inputLimit.value > EVIDENCE_SQL_LIMIT
                    then EVIDENCE_SQL_LIMIT else v.inputLimit.value;
      if target < 0 then None
      else
        var widened := Validate(v.sanitized.value.(limit := LimitLiteral(target)), accepted, EVIDENCE_SQL_LIMIT,
                                EVIDENCE_SQL_LIMIT);
        if !widened.valid || widened.sanitized.None? then None
        else Some(s.(validation := widened.(inputLimit := v.inputLimit, effectiveLimit := Some(target),
                                            source := v.source)))
  }

  // ----- what execution means

  function Take<Row>(rows: seq<Row>, n: int): seq<Row> {
    if n < 0 then [] else if n < |rows| then rows[..n] else rows
  }

  /** `x` is an execution of a statement whose body, without the outer LIMIT, yields `all` in this order.
      Uncut and untruncated, it returns exactly the rows within the limit. */
  ghost predicate Executes<Row>(s: Statement, all: seq<Row>, x: Execution<Row>) {
    && s.validation.effectiveLimit.Some?
    && x.rows <= Take(all, s.validation.effectiveLimit.value)
    && (x.succeeded && !x.truncated && !x.payloadLimited && !x.timedOut
        ==> x.rows == Take(all, s.validation.effectiveLimit.value))
  }

  /** The answer to the statement as its author wrote it: its own LIMIT, or none. */
  function Asked<Row>(s: Statement, all: seq<Row>): seq<Row> {
    match s.validation.inputLimit
    case None => all
    case Some(n) => Take(all, n)
  }

  /** The bound of a validated statement: what validation, restoring and widening can produce. */
  ghost predicate SoundBound(v: Validation) {
    && v.effectiveLimit.Some? && v.effectiveLimit.value >= 0
    && (v.inputLimit.Some? ==> v.inputLimit.value >= v.effectiveLimit.value)
  }

  lemma BoundsAreSound(sql: Sql, metadata: Metadata)
    ensures ValidateQuery(sql, true).valid ==> SoundBound(ValidateQuery(sql, true))
    ensures ValidateQuery(sql, true).valid ==> SoundBound(RestoreSavedBound(ValidateQuery(sql, true), metadata))
  {
  }

  lemma WideningIsSound(s: Statement)
    requires SoundBound(s.validation) && AuxiliaryStatement(s, true).Some?
    ensures var wide := AuxiliaryStatement(s, true).value.validation;
            && SoundBound(wide) && wide.inputLimit == s.validation.inputLimit
            && wide.sanitized == Some(s.validation.sanitized.value.(limit := LimitLiteral(wide.effectiveLimit.value)))
            && wide.source == s.validation.source
            && wide.effectiveLimit == Some(
                 match s.validation.inputLimit
                 case None => 1_001
                 case Some(n) => if n < 1_001 then n else 1_001)
  {
  }

  /** A bound of a query run that was added or clamped for safety really grows, for every statement the query limits
      and the restoring of stored bounds can produce, and such a statement is widened exactly when it may be. */
  lemma WideningGrows(sql: Sql, metadata: Metadata, comparable: bool, onlyOuterLimit: bool)
    ensures var v := RestoreSavedBound(ValidateQuery(sql, true), metadata);
            var s := Statement(v, comparable, onlyOuterLimit);
            && (AuxiliaryStatement(s, true).Some? <==>
                  v.valid && v.source in {Some(SafetyAdded), Some(SafetyClamped)} && comparable && onlyOuterLimit)
            && (AuxiliaryStatement(s, true).Some? ==>
                  AuxiliaryStatement(s, true).value.validation.effectiveLimit.value > v.effectiveLimit.value)
  {
  }

  /** A widened execution is complete exactly when it was comparable, uncut and either ended before its limit or is
      the result of a limit that equals the answer bound. */
  lemma AuxiliaryCompleteExactly<Row>(s: Statement, x: Execution<Row>, answerBound: Option<int>)
    requires SoundBound(s.validation) && s.validation.source in {Some(SafetyAdded), Some(SafetyClamped)}
    ensures AuxiliarySide(s, x, answerBound).complete <==>
            && x.succeeded && !x.truncated && !x.payloadLimited && !x.timedOut && s.comparable
            && (|x.rows| < s.validation.effectiveLimit.value
                || (answerBound.Some? && s.validation.inputLimit == answerBound
                    && s.validation.effectiveLimit == answerBound))
    ensures AuxiliarySide(s, x, answerBound).complete ==> AuxiliarySide(s, x, answerBound).reason.None?
  {
  }

  /** An observed execution is complete exactly when it was comparable, not truncated, of a known bound, and either
      ended before its limit or is the result of a limit that equals the answer bound. */
  lemma ObservedCompleteExactly<Row>(s: Statement, x: Execution<Row>, answerBound: Option<int>)
    requires SoundBound(s.validation)
    ensures ObservedSide(s, x, answerBound).complete <==>
            && x.succeeded && !x.truncated && s.comparable
            && ((s.validation.source.Some? && |x.rows| < s.validation.effectiveLimit.value)
                || (answerBound.Some? && s.validation.inputLimit == answerBound
                    && s.validation.effectiveLimit == answerBound))
  {
    if s.validation.source.Some? {
      match s.validation.source.value
      case Input =>
      case SafetyAdded =>
      case SafetyClamped =>
    }
  }

  /** The rows ended before a known limit and nothing was dropped after them. */
  predicate EndedEarly<Row>(s: Statement, x: Execution<Row>) {
    x.succeeded && !x.truncated && s.validation.effectiveLimit.Some? && |x.rows| < s.validation.effectiveLimit.value
  }

  /** The bound asked for is the bound executed. */
  predicate AtTheBound(s: Statement, answerBound: Option<int>) {
    answerBound.Some? && s.validation.inputLimit == answerBound && s.validation.effectiveLimit == answerBound
  }

  /** What an observed side reports beside its rows: the delivered result counts as complete even when rows may not be
      compared, unless only the question's own limit bounds it; the reason names what stands against comparing. */
  lemma ObservedReports<Row>(s: Statement, x: Execution<Row>, answerBound: Option<int>)
    ensures var side := ObservedSide(s, x, answerBound);
            var safety := s.validation.source == Some(SafetyAdded) || s.validation.source == Some(SafetyClamped);
            var delivered := x.succeeded && !x.truncated
                             && ((EndedEarly(s, x) && (safety || (s.validation.source == Some(Input) && s.comparable)))
                                 || AtTheBound(s, answerBound));
            && side.rows == x.rows && side.comparable == s.comparable
            && (side.complete <==> delivered && s.comparable)
            && (side.exhausted <==> EndedEarly(s, x) && s.comparable)
            && (side.delivery == Complete <==> delivered)
            && (side.delivery == SafetyLimited <==> !delivered && safety)
            && (side.reason.None? <==> side.complete)
            && (side.reason == Some("unsupported_query_shape") <==> !s.comparable)
            && (side.reason == Some("nonsemantic_bound_reached") <==> s.comparable && !delivered)
  {
  }

  /** What a widened side reports: rows only of a success, and the first thing that stands against completeness. */
  lemma AuxiliaryReports<Row>(s: Statement, x: Execution<Row>, answerBound: Option<int>)
    ensures var side := AuxiliarySide(s, x, answerBound);
            && side.rows == (if x.succeeded then x.rows else []) && side.comparable == s.comparable
            && (side.exhausted <==> EndedEarly(s, x) && s.comparable && !x.payloadLimited && !x.timedOut)
            && (side.delivery == Complete <==> side.complete) && side.delivery != SafetyLimited
            && (side.reason.None? <==> side.complete)
            && (side.reason == Some("completeness_evidence_missing") <==> !x.succeeded && !x.timedOut)
            && (side.reason == Some("unsupported_query_shape") <==> x.succeeded && !s.comparable)
            && (side.reason == Some("evidence_timeout") <==>
                  x.timedOut && (x.succeeded ==> s.comparable))
            && (side.reason == Some("evidence_payload_exceeded") <==>
                  x.succeeded && s.comparable && !x.timedOut && x.payloadLimited)
            && (side.reason == Some("evidence_row_budget_exceeded") <==>
                  x.succeeded && s.comparable && !x.timedOut && !x.payloadLimited && x.truncated)
  {
  }

  lemma ExhaustedIsAll<Row>(s: Statement, all: seq<Row>, x: Execution<Row>)
    requires Executes(s, all, x) && SoundBound(s.validation)
    requires Exhausted(s.validation, x) && !x.payloadLimited && !x.timedOut
    ensures x.rows == all == Asked(s, all)
  {
  }

  /** The rows are the full result, or exactly the result of a LIMIT that is the question's own answer bound. */
  predicate IsAnswer<Row(==)>(s: Statement, all: seq<Row>, rows: seq<Row>, answerBound: Option<int>) {
    || rows == all
    || (answerBound.Some? && s.validation.inputLimit == answerBound && s.validation.effectiveLimit == answerBound
        && rows == Take(all, answerBound.value))
  }

  /** A side marked complete after a widened execution holds the author's answer: all rows, or those of its bound. */
  lemma AuxiliaryCompleteIsAnswer<Row>(s: Statement, all: seq<Row>, x: Execution<Row>, answerBound: Option<int>)
    requires Executes(s, all, x) && SoundBound(s.validation)
    requires AuxiliarySide(s, x, answerBound).complete
    ensures AuxiliarySide(s, x, answerBound).rows == Asked(s, all)
    ensures IsAnswer(s, all, AuxiliarySide(s, x, answerBound).rows, answerBound)
  {
    if Exhausted(s.validation, x) {
      ExhaustedIsAll(s, all, x);
    }
  }

  /** The same of an observed side whose execution nothing cut, or that was cut only after its last allowed row. */
  lemma ObservedCompleteIsAnswer<Row>(s: Statement, all: seq<Row>, x: Execution<Row>, answerBound: Option<int>)
    requires Executes(s, all, x) && SoundBound(s.validation)
    requires (!x.payloadLimited && !x.timedOut) || |x.rows| == s.validation.effectiveLimit.value
    requires ObservedSide(s, x, answerBound).complete
    ensures ObservedSide(s, x, answerBound).rows == Asked(s, all)
    ensures IsAnswer(s, all, ObservedSide(s, x, answerBound).rows, answerBound)
  {
    if Exhausted(s.validation, x) {
      ExhaustedIsAll(s, all, x);
    }
  }

  /** An observed side that is marked complete can be trusted, whatever the full result is, exactly when its execution
      was not cut or had already reached its limit: the two cut flags are the part the observed side does not read. */
  lemma ObservedSoundExactly<Row>(s: Statement, x: Execution<Row>, answerBound: Option<int>, another: Row)
    requires SoundBound(s.validation) && |x.rows| <= s.validation.effectiveLimit.value
    requires ObservedSide(s, x, answerBound).complete
    ensures (forall all: seq<Row> | Executes(s, all, x) :: ObservedSide(s, x, answerBound).rows == Asked(s, all))
            <==> (!x.payloadLimited && !x.timedOut) || |x.rows| == s.validation.effectiveLimit.value
  {
    if (!x.payloadLimited && !x.timedOut) || |x.rows| == s.validation.effectiveLimit.value {
      forall all: seq<Row> | Executes(s, all, x) ensures ObservedSide(s, x, answerBound).rows == Asked(s, all) {
        ObservedCompleteIsAnswer(s, all, x, answerBound);
      }
    } else {
      var all := x.rows + [another];
      assert Executes(s, all, x) && x.rows != Asked(s, all);
    }
  }

  /** A concrete case where the condition fails: the clock stops an execution before its first row, and the side that
      ignores it is called complete. */
  lemma ObservedIgnoresCuts()
    ensures exists s: Statement, all: seq<int>, x: Execution<int> ::
              && Executes(s, all, x) && SoundBound(s.validation) && x.timedOut
              && ObservedSide(s, x, None).complete && ObservedSide(s, x, None).rows != Asked(s, all)
  {
    var s := Statement(ValidateQuery(Sql("", NoLimit), true), true, true);
    var x := Execution(true, [], false, false, true);
    assert Executes(s, [7], x);
    assert ObservedSide(s, x, None).complete && ObservedSide(s, x, None).rows != Asked(s, [7]);
  }

  // ----- fetching the rows

  /** What the fetch loop can make of the rows a statement yields, under a row limit, a payload budget and a
   *  deadline. */
  ghost predicate FetchedFrom<Row>(x: Execution<Row>, source: seq<Row>, rowLimit: nat, budgeted: bool, timed: bool) {
    && x.succeeded && x.rows <= source && |x.rows| <= rowLimit
    && (!x.truncated && !x.payloadLimited && !x.timedOut ==> x.rows == source)
    && (x.truncated ==> |x.rows| == rowLimit < |source|)
    && (x.payloadLimited ==> budgeted) && (x.timedOut ==> timed)
  }

  /** The loop over the result; `size` measures a row, the clock is read before and after each one. */
  method Fetch<Row>(source: seq<Row>, rowLimit: nat, budget: Option<nat>, size: Row -> nat, timed: bool,
                    lateBefore: nat -> bool, lateAfter: nat -> bool)
    returns (x: Execution<Row>)
    ensures FetchedFrom(x, source, rowLimit, budget.Some?, timed)
  {
    var rows: seq<Row> := [];
    var payload := if budget.Some? then 2 else 0;
    for n := 0 to |source|
      invariant rows == source[..n] && n <= rowLimit
    {
      if timed && lateBefore(n) {
        return Execution(true, rows, false, false, true);
      }
      if budget.Some? && payload > budget.value {
        return Execution(true, rows, false, true, false);
      }
      if |rows| == rowLimit {
        return Execution(true, rows, true, false, false);
      }
      if budget.Some? {
        var encoded := size(source[n]) + if rows != [] then 1 else 0;
        if payload + encoded > budget.value {
          return Execution(true, rows, false, true, false);
        }
        payload := payload + encoded;
      }
      rows := rows + [source[n]];
      if timed && lateAfter(n) {
        return Execution(true, rows, false, false, true);
      }
    }
    return Execution(true, rows, false, false, false);
  }

  /** A fetched result is an execution in the sense above. */
  lemma FetchExecutes<Row>(s: Statement, all: seq<Row>, x: Execution<Row>, rowLimit: nat, budgeted: bool, timed: bool)
    requires s.validation.effectiveLimit.Some?
    requires FetchedFrom(x, Take(all, s.validation.effectiveLimit.value), rowLimit, budgeted, timed)
    ensures Executes(s, all, x)
  {
  }

  /** Fetched without a payload budget and a deadline, a complete observed side is always the author's answer. */
  lemma ObservedWithoutBudget<Row>(s: Statement, all: seq<Row>, x: Execution<Row>, rowLimit: nat,
                                   answerBound: Option<int>)
    requires SoundBound(s.validation)
    requires FetchedFrom(x, Take(all, s.validation.effectiveLimit.value), rowLimit, false, false)
    requires ObservedSide(s, x, answerBound).complete
    ensures ObservedSide(s, x, answerBound).rows == Asked(s, all)
    ensures IsAnswer(s, all, ObservedSide(s, x, answerBound).rows, answerBound)
  {
    FetchExecutes(s, all, x, rowLimit, false, false);
    ObservedCompleteIsAnswer(s, all, x, answerBound);
  }

  /** Over one snapshot a complete delivered side and a complete widened side hold the same rows, even when
      the two executions order ties differently. */
  lemma CompleteSidesAgree<Row>(s: Statement, delivered: seq<Row>, widened: seq<Row>,
                                x: Execution<Row>, y: Execution<Row>, answerBound: Option<int>, sql: Sql)
    requires s.validation == ValidateQuery(sql, true) && s.validation.valid && AuxiliaryStatement(s, true).Some?
    requires multiset(delivered) == multiset(widened)
    requires Executes(s, delivered, x) && !x.payloadLimited && !x.timedOut
    requires Executes(AuxiliaryStatement(s, true).value, widened, y)
    requires ObservedSide(s, x, answerBound).complete
    requires AuxiliarySide(AuxiliaryStatement(s, true).value, y, answerBound).complete
    ensures multiset(x.rows) == multiset(y.rows)
  {
    var wide := AuxiliaryStatement(s, true).value;
    BoundsAreSound(sql, NoMetadata);
    WideningIsSound(s);
    ObservedCompleteIsAnswer(s, delivered, x, answerBound);
    AuxiliaryCompleteIsAnswer(wide, widened, y, answerBound);
    assert x.rows == delivered;
    assert |multiset(delivered)| == |delivered| && |multiset(widened)| == |widened|;
    assert y.rows == widened;
  }

  /** An answer whose bound is unknown is never marked complete. */
  lemma UnknownIsNeverComplete<Row>(s: Statement, x: Execution<Row>, answerBound: Option<int>)
    requires s.validation.source.None? && s.validation.inputLimit.None?
    ensures !ObservedSide(s, x, answerBound).complete && ObservedSide(s, x, answerBound).delivery == Unknown
    ensures !AuxiliarySide(s, x, answerBound).complete
  {
  }
}
