/** Row bounds: what SQL validation attaches, what a saved run stores, and what any chain of
    card refreshes can restore from it. */
module Delivery {
  import opened Options

  const DEFAULT_QUERY_LIMIT := 100
  const MAX_QUERY_LIMIT := 500

  /** The top-level LIMIT of a statement; everything else in it is `body`. */
  datatype LimitClause = NoLimit | LimitLiteral(n: nat) | LimitExpression | ManyLimits

  datatype Sql = Sql(body: string, limit: LimitClause)

  datatype Source = Input | SafetyAdded | SafetyClamped

  datatype Validation = Validation(valid: bool, sanitized: Option<Sql>,
                                   inputLimit: Option<int>, effectiveLimit: Option<int>, source: Option<Source>)

  const DENIED := Validation(false, None, None, None, None)

  /** The limit rule of SQL validation; `accepted` stands for all its other checks. */
  function Validate(sql: Sql, accepted: bool, defaultLimit: nat, maxLimit: nat): Validation {
    if !accepted then DENIED
    else match sql.limit
      case NoLimit =>
        Validation(true, Some(sql.(limit := LimitLiteral(defaultLimit))), None, Some(defaultLimit), Some(SafetyAdded))
      case LimitLiteral(n) =>
        if n <= maxLimit then Validation(true, Some(sql), Some(n), Some(n), Some(Input))
        else Validation(true, Some(sql.(limit := LimitLiteral(maxLimit))), Some(n), Some(maxLimit), Some(SafetyClamped))
      case LimitExpression => DENIED
      case ManyLimits => DENIED
  }

  function ValidateQuery(sql: Sql, accepted: bool): Validation {
    Validate(sql, accepted, DEFAULT_QUERY_LIMIT, MAX_QUERY_LIMIT)
  }

  /** An entry of stored JSON that should be an integer or null. */
  datatype Stored = Missing | Whole(n: int) | Malformed

  datatype Metadata =
    | NoMetadata
    | Bound(valid: bool, inputLimit: Stored, effectiveLimit: Stored, source: Option<Source>)

  function RestoreSavedBound(v: Validation, metadata: Metadata): Validation {
    var unknown := v.(inputLimit := None, source := None);
    if !v.valid || metadata.NoMetadata? || !metadata.valid then unknown
    else if !metadata.effectiveLimit.Whole? || metadata.effectiveLimit.n < 0
            || v.effectiveLimit != Some(metadata.effectiveLimit.n) || v.source != Some(Input)
    then unknown
    else
      var effective := metadata.effectiveLimit.n;
      if metadata.source == Some(Input) && metadata.inputLimit == Whole(effective)
      then v.(inputLimit := Some(effective), source := Some(Input))
      else if metadata.source == Some(SafetyAdded) && metadata.inputLimit == Missing && effective == DEFAULT_QUERY_LIMIT
      then v.(inputLimit := None, source := Some(SafetyAdded))
      else if metadata.source == Some(SafetyClamped) && metadata.inputLimit.Whole?
              && metadata.inputLimit.n > effective && effective == MAX_QUERY_LIMIT
      then v.(inputLimit := Some(metadata.inputLimit.n), source := Some(SafetyClamped))
      else unknown
  }

  function ToStored(limit: Option<int>): Stored {
    match limit
    case None => Missing
    case Some(n) => Whole(n)
  }

  function BoundMetadata(v: Validation): Metadata {
    Bound(v.valid, ToStored(v.inputLimit), ToStored(v.effectiveLimit), v.source)
  }

  // ----- runs and refreshes

  datatype QueryRun = QueryRun(executedSql: Sql, metadata: Metadata)

  /** The first run of a question: validate, execute the sanitized statement, store the bound. */
  function FirstRun(sql: Sql): Option<QueryRun> {
    var v := ValidateQuery(sql, true);
    if v.valid then Some(QueryRun(v.sanitized.value, BoundMetadata(v))) else None
  }

  /** A card refresh from one earlier run; `None` when the stored statement no longer validates. */
  function Refresh(from: QueryRun): Option<QueryRun> {
    var v := ValidateQuery(from.executedSql, true);
    if v.valid then Some(QueryRun(v.sanitized.value, BoundMetadata(RestoreSavedBound(v, from.metadata)))) else None
  }

  /** The bound under which a refresh from this run executes: (input, effective, source). */
  function BoundOf(run: QueryRun): (Option<int>, Option<int>, Option<Source>) {
    var v := RestoreSavedBound(ValidateQuery(run.executedSql, true), run.metadata);
    (v.inputLimit, v.effectiveLimit, v.source)
  }

  /** The bound of a first run is restored exactly as validation found it. */
  lemma FirstRunRoundTrip(sql: Sql)
    requires FirstRun(sql).Some?
    ensures var v := ValidateQuery(sql, true);
            BoundOf(FirstRun(sql).value) == (v.inputLimit, v.effectiveLimit, v.source)
  {
  }

  /** What validation says of a bound. */
  function Said(v: Validation): (Option<int>, Option<int>, Option<Source>) {
    (v.inputLimit, v.effectiveLimit, v.source)
  }

  /** A statement whose validation says exactly this. */
  function Witness(bound: (Option<int>, Option<int>, Option<Source>)): Sql {
    Sql("", if bound.0.Some? && bound.0.value >= 0 then LimitLiteral(bound.0.value) else NoLimit)
  }

  /** Whatever is stored, a bound that is restored as known is one that validation gives to some statement, with the
      limit that is really executed; and every such bound is restored from what its own first run stores. */
  lemma RestoredExactly(executed: Sql, bound: (Option<int>, Option<int>, Option<Source>))
    requires ValidateQuery(executed, true).valid && bound.2.Some?
    ensures (exists metadata :: Said(RestoreSavedBound(ValidateQuery(executed, true), metadata)) == bound) <==>
            && ValidateQuery(executed, true).source == Some(Input)
            && bound.1 == ValidateQuery(executed, true).effectiveLimit
            && exists sql :: ValidateQuery(sql, true).valid && Said(ValidateQuery(sql, true)) == bound
  {
    var v := ValidateQuery(executed, true);
    if metadata :| Said(RestoreSavedBound(v, metadata)) == bound {
      var sql := Witness(bound);
      assert ValidateQuery(sql, true).valid && Said(ValidateQuery(sql, true)) == bound;
    }
    if sql :| ValidateQuery(sql, true).valid && Said(ValidateQuery(sql, true)) == bound
              && bound.1 == v.effectiveLimit && v.source == Some(Input) {
      var metadata := BoundMetadata(ValidateQuery(sql, true));
      assert Said(RestoreSavedBound(v, metadata)) == bound;
    }
  }

  /** A refresh neither gains nor loses anything, whatever the stored metadata of its source. */
  lemma RefreshKeepsBound(from: QueryRun)
    requires Refresh(from).Some?
    ensures BoundOf(Refresh(from).value) == BoundOf(from)
    ensures Refresh(Refresh(from).value) == Refresh(from)
  {
  }

  /** Where a run of a saved query came from: a statement, older stored data, or an earlier run. */
  datatype Origin = Asked(sql: Sql) | Legacy(run: QueryRun) | RefreshedFrom(index: nat)

  /** A run history with the origin of every run; a refresh may pick any earlier run. */
  ghost predicate History(runs: seq<QueryRun>, origins: seq<Origin>) {
    && |origins| == |runs|
    && forall k | 0 <= k < |runs| ::
         match origins[k]
         case Asked(sql) => FirstRun(sql) == Some(runs[k])
         case Legacy(run) => run == runs[k]
         case RefreshedFrom(i) => i < k && Refresh(runs[i]) == Some(runs[k])
  }

  /** The run at the head of the refresh chain of run k. */
  function Root(origins: seq<Origin>, k: nat): (root: nat)
    ensures root <= k
    decreases k
  {
    if k < |origins| && origins[k].RefreshedFrom? && origins[k].index < k then Root(origins, origins[k].index) else k
  }

  /** After any number of refreshes the restored bound is the root's. */
  lemma {:induction false} ChainKeepsBound(runs: seq<QueryRun>, origins: seq<Origin>, k: nat)
    requires History(runs, origins) && k < |runs|
    ensures Root(origins, k) <= k && !origins[Root(origins, k)].RefreshedFrom?
    ensures BoundOf(runs[k]) == BoundOf(runs[Root(origins, k)])
    decreases k
  {
    match origins[k]
    case Asked(_) =>
    case Legacy(_) =>
    case RefreshedFrom(i) =>
      assert Refresh(runs[i]) == Some(runs[k]);
      RefreshKeepsBound(runs[i]);
      ChainKeepsBound(runs, origins, i);
  }

  /** A refreshed answer counts as bounded by its own statement exactly when the question that started
      the chain wrote that literal LIMIT itself; an added or clamped bound never turns into one. */
  lemma InputBoundIsAsked(runs: seq<QueryRun>, origins: seq<Origin>, k: nat)
    requires History(runs, origins) && k < |runs| && origins[Root(origins, k)].Asked?
    ensures var sql := origins[Root(origins, k)].sql;
            && (BoundOf(runs[k]).2 == Some(Input) <==> sql.limit.LimitLiteral? && sql.limit.n <= 500)
            && (BoundOf(runs[k]).2 == Some(SafetyAdded) <==> sql.limit.NoLimit?)
            && (BoundOf(runs[k]).2 == Some(SafetyClamped) <==> sql.limit.LimitLiteral? && sql.limit.n > 500)
            && BoundOf(runs[k]).1 == Some(if sql.limit.NoLimit? then 100
                                          else if sql.limit.n > 500 then 500 else sql.limit.n)
            && BoundOf(runs[k]).0 == (if sql.limit.LimitLiteral? then Some(sql.limit.n) else None)
  {
    ChainKeepsBound(runs, origins, k);
    FirstRunRoundTrip(origins[Root(origins, k)].sql);
  }
}
