/**
 * `executeTransaction`: validation and threshold resolution before any
 * connection is requested, then beginTransaction, the query loop
 * (`_executeOrRollbackLoop`), the commit (`_commitTransaction`) and the
 * release of the connection.
 */
module Transaction {
  import opened JsValues
  import opened Breadcrumb
  import opened Driver
  import opened SeqFacts
  import SingleQuery

  /** One element of `options.queries`: `{query, args}`. */
  datatype QueryEntry = QueryEntry(query: Option<string>, args: Option<seq<Arg>>)

  /** The options object of `executeTransaction`; a query entry may itself be missing. */
  datatype TransactionOptions = TransactionOptions(
    queries: Option<seq<Option<QueryEntry>>>,
    poolType: Option<string>,
    queryCountThreshold: Option<int>)

  // ----- Validation ---------------------------------------------------------

  /**
   * `options.queryCountThreshold || classThreshold || default`: the first
   * truthy candidate, else the default whatever it is.
   */
  function ResolveThreshold(perCall: Option<int>, classLevel: Option<int>, fallback: int): (t: int)
    ensures t == 0 ==> fallback == 0
  {
    if IsTruthyNumber(perCall) then perCall.value
    else if IsTruthyNumber(classLevel) then classLevel.value
    else fallback
  }

  /** The threshold is the first truthy candidate: per call, then class level, then the default. */
  lemma ThresholdIsFirstTruthy(perCall: Option<int>, classLevel: Option<int>, fallback: int)
    ensures IsTruthyNumber(perCall) ==> ResolveThreshold(perCall, classLevel, fallback) == perCall.value
    ensures !IsTruthyNumber(perCall) && IsTruthyNumber(classLevel) ==>
              ResolveThreshold(perCall, classLevel, fallback) == classLevel.value
    ensures !IsTruthyNumber(perCall) && !IsTruthyNumber(classLevel) ==>
              ResolveThreshold(perCall, classLevel, fallback) == fallback
  {
  }

  /** A zero or undefined threshold falls through to the next candidate. */
  lemma FalsyThresholdFallsThrough(perCall: Option<int>, classLevel: Option<int>, fallback: int)
    requires perCall == None || perCall == Some(0)
    ensures ResolveThreshold(perCall, classLevel, fallback) == ResolveThreshold(None, classLevel, fallback)
    ensures classLevel == None || classLevel == Some(0) ==>
              ResolveThreshold(perCall, classLevel, fallback) == fallback
    ensures IsTruthyNumber(classLevel) ==> ResolveThreshold(perCall, classLevel, fallback) == classLevel.value
  {
  }

  /** `poolType = MYSQL_CONN_POOL_GENERAL` in the destructuring: only an undefined pool type is defaulted. */
  function PoolName(options: TransactionOptions, general: string): string {
    if options.poolType.Some? then options.poolType.value else general
  }

  /**
   * An empty pool type selects the general pool in executeQuery (`||`) but
   * names the pool "" in executeTransaction (a destructuring default).
   */
  lemma EmptyPoolTypeDefaultsOnlyInExecuteQuery(queryOptions: SingleQuery.QueryOptions,
                                               options: TransactionOptions, general: string)
    requires queryOptions.poolType == Some("") && options.poolType == Some("")
    ensures SingleQuery.PoolName(queryOptions, general) == general
    ensures PoolName(options, general) == ""
  {
  }

  /**
   * Given the same pool type, executeQuery (`poolType || general`) and
   * executeTransaction (a destructuring default) select different pools
   * exactly when the pool type is the empty string and the general pool
   * has a non-empty name.
   */
  lemma PoolNamesAgree(queryOptions: SingleQuery.QueryOptions, options: TransactionOptions, general: string)
    requires queryOptions.poolType == options.poolType
    ensures SingleQuery.PoolName(queryOptions, general) != PoolName(options, general)
            <==> options.poolType == Some("") && general != ""
  {
  }

  /** `queries` is present and not empty. */
  predicate HasQueries(options: TransactionOptions) {
    options.queries.Some? && |options.queries.value| > 0
  }

  /** Why a transaction is refused before a connection is requested. */
  datatype Rejection = NoOptions | NoQueries | UnknownPool | TooManyQueries

  datatype Admission =
    | Refused(reason: Rejection)
    | Admitted(pool: Pool, queries: seq<Option<QueryEntry>>)

  /**
   * The checks of `executeTransaction` in their order: options present,
   * queries present and non-empty, pool known, count within the threshold.
   * The first that fails decides the rejection.
   */
  function Admit(options: Option<TransactionOptions>, pools: map<string, Pool>,
                 classThreshold: Option<int>, defaultThreshold: int, general: string): (a: Admission)
    ensures a == Refused(NoOptions) <==> options.None?
    ensures a == Refused(NoQueries) <==> options.Some? && !HasQueries(options.value)
    ensures a == Refused(UnknownPool) <==>
              options.Some? && HasQueries(options.value) && PoolName(options.value, general) !in pools
    ensures a == Refused(TooManyQueries) <==>
              && options.Some? && HasQueries(options.value) && PoolName(options.value, general) in pools
              && |options.value.queries.value|
                 > ResolveThreshold(options.value.queryCountThreshold, classThreshold, defaultThreshold)
    ensures a.Admitted? ==>
              && options.Some? && PoolName(options.value, general) in pools
              && a.pool == pools[PoolName(options.value, general)]
              && a.queries == options.value.queries.value
              && 1 <= |a.queries| <= ResolveThreshold(options.value.queryCountThreshold, classThreshold, defaultThreshold)
  {
    if options.None? then Refused(NoOptions)
    else
      var opts := options.value;
      var threshold := ResolveThreshold(opts.queryCountThreshold, classThreshold, defaultThreshold);
      if !HasQueries(opts) then Refused(NoQueries)
      else if PoolName(opts, general) !in pools then Refused(UnknownPool)
      else if |opts.queries.value| > threshold then Refused(TooManyQueries)
      else Admitted(pools[PoolName(opts, general)], opts.queries.value)
  }

  function RejectionMessage(reason: Rejection): string {
    match reason
    case NoOptions => "Invalid arguments received"
    case NoQueries => "Queries parameter is undefined"
    case UnknownPool => "Invalid poolType"
    case TooManyQueries => "Query count exceeds threshold"
  }

  /** The appendDetails call at the check that failed. */
  function RejectionFrame(reason: Rejection, options: Option<TransactionOptions>): Frame {
    match reason
    case NoOptions => Frame(ClassName, "executeTransaction", "options:undefined")
    case NoQueries =>
      var shown := if options.Some? && options.value.queries.Some? then "" else "undefined";
      Frame(ClassName, "executeTransaction", "Queries: " + shown)
    case UnknownPool =>
      var poolType := if options.Some? then options.value.poolType else None;
      Frame(ClassName, "executeQuery", "PoolType: " + Show(poolType))
    case TooManyQueries => Frame(ClassName, "executeTransaction", "Query count exceeds threshold")
  }

  /**
   * The error a refused transaction rejects with: a fresh error whose
   * message names the reason, annotated once at the failing check.
   */
  function RejectionError(reason: Rejection, options: Option<TransactionOptions>): (r: ErrorRecord)
    ensures r.message == RejectionMessage(reason)
    ensures r.path == "#" + PathSegment(RejectionFrame(reason, options))
    ensures r.causes == "#" + CauseSegment(RejectionFrame(reason, options))
  {
    AppendDetails(NewError(RejectionMessage(reason)), RejectionFrame(reason, options))
  }

  /** Each refusal has its own message, so the caller can tell the reasons apart. */
  lemma RejectionMessageNamesReason(a: Rejection, b: Rejection)
    requires RejectionMessage(a) == RejectionMessage(b)
    ensures a == b
  {
  }

  // ----- The query loop and the commit --------------------------------------

  /** `queries[i] && queries[i].query`: the entry exists and its query is a non-empty string. */
  predicate IsRunnable(entry: Option<QueryEntry>) {
    entry.Some? && IsTruthyText(entry.value.query)
  }

  /** The driver call for a runnable entry: its query with `args || []`. */
  function QueryEvent(entry: Option<QueryEntry>): (ev: Event)
    requires IsRunnable(entry)
    ensures ev.Query? && ev.sql == entry.value.query.value && ev.sql != ""
    ensures ev.args == (if entry.value.args.Some? then entry.value.args.value else [])
  {
    Query(entry.value.query.value, if entry.value.args.Some? then entry.value.args.value else [])
  }

  /**
   * The loop's entry check agrees with `_constructQuery`: an entry is runnable
   * exactly when a query built from its text and arguments (with no suffix)
   * would not throw, and the call the loop issues is then that built query.
   */
  lemma RunnableIffConstructible(query: Option<string>, args: Option<seq<Arg>>)
    ensures var built := SingleQuery.ConstructQuery(SingleQuery.QueryOptions(query, args, None, None, false));
            && (IsRunnable(Some(QueryEntry(query, args))) <==> built.Ok?)
            && (built.Ok? ==> QueryEvent(Some(QueryEntry(query, args))) == Query(built.value.query, built.value.args))
  {
  }

  function InvalidEntryMessage(iteration: nat): string {
    "Invalid query detected for iteration:" + DecimalDigits(iteration)
  }

  function LoopFrame(iteration: nat): Frame {
    Frame(ClassName, "_executeOrRollbackLoop", InvalidEntryMessage(iteration))
  }

  /** The rejection for an entry that is missing or has no query. */
  function InvalidEntryError(iteration: nat): ErrorRecord {
    AppendDetails(NewError(InvalidEntryMessage(iteration)), LoopFrame(iteration))
  }

  /** The message of an invalid-entry error names the entry's index unambiguously. */
  lemma InvalidEntryErrorNamesIndex(i: nat, j: nat)
    requires InvalidEntryError(i).message == InvalidEntryError(j).message
    ensures i == j
  {
    var prefix := "Invalid query detected for iteration:";
    assert InvalidEntryMessage(i)[|prefix|..] == DecimalDigits(i);
    assert InvalidEntryMessage(j)[|prefix|..] == DecimalDigits(j);
    DecimalRoundTrip(i);
    DecimalRoundTrip(j);
  }

  const QueryFailedFrame := Frame(ClassName, "_executeOrRollbackLoop", "[MySQL]Error executing query")
  const CommitFailedFrame := Frame(ClassName, "_commitTransaction", "Error while rolling-back transaction")

  /**
   * `_commitTransaction`: commit, and on failure one rollback before the
   * rejection; on success the accumulated results are the value.
   */
  function CommitSpec(results: seq<Rows>, reply: Reply): (run: Run<seq<Rows>>)
    ensures run.outcome.Ok? <==> reply.Answered?
    ensures run.outcome.Ok? ==> run.events == [Commit] && run.outcome.value == results
    ensures run.outcome.Err? ==> run.events == [Commit, Rollback]
  {
    match reply
    case Answered(_) => Run([Commit], Ok(results))
    case Failed(error) => Run([Commit, Rollback], Err(AppendDetails(error, CommitFailedFrame)))
  }

  /** Only query, rollback and commit calls, the connection-level calls the loop makes. */
  predicate LoopEventsOnly(events: seq<Event>) {
    forall i :: 0 <= i < |events| ==> events[i].Query? || events[i] == Rollback || events[i] == Commit
  }

  /**
   * `_executeOrRollbackLoop(conn, queries, iteration, results)`, as the
   * source writes it, recursively. `replies[i]` answers query i and
   * `replies[|queries|]` the commit. A successful value extends `results`
   * by one entry per remaining query; LoopCallsOnly, LoopOkIffCommitted and
   * LoopRollbackLast state which calls
   * the loop makes.
   */
  function LoopSpec(queries: seq<Option<QueryEntry>>, iteration: nat, results: seq<Rows>, replies: seq<Reply>)
    : (run: Run<seq<Rows>>)
    requires iteration <= |queries| < |replies|
    ensures run.outcome.Ok? ==>
              |run.outcome.value| == |results| + (|queries| - iteration) && results <= run.outcome.value
    decreases |queries| - iteration
  {
    if iteration == |queries| then
      var commit := CommitSpec(results, replies[iteration]);
      match commit.outcome
      case Ok(_) => commit
      case Err(error) => Run(commit.events, Err(AppendDetails(error, LoopFrame(iteration))))
    else if !IsRunnable(queries[iteration]) then
      Run([], Err(InvalidEntryError(iteration)))
    else
      match replies[iteration]
      case Failed(error) =>
        Run([QueryEvent(queries[iteration]), Rollback], Err(AppendDetails(error, QueryFailedFrame)))
      case Answered(rows) =>
        var rest := LoopSpec(queries, iteration + 1, results + [rows], replies);
        Run([QueryEvent(queries[iteration])] + rest.events, rest.outcome)
  }

  /** The loop makes only query, rollback and commit calls. */
  lemma {:induction false} LoopCallsOnly(queries: seq<Option<QueryEntry>>, iteration: nat, results: seq<Rows>,
                                         replies: seq<Reply>)
    requires iteration <= |queries| < |replies|
    ensures LoopEventsOnly(LoopSpec(queries, iteration, results, replies).events)
    decreases |queries| - iteration
  {
    if iteration < |queries| && IsRunnable(queries[iteration]) && replies[iteration].Answered? {
      LoopCallsOnly(queries, iteration + 1, results + [replies[iteration].payload], replies);
    }
  }

  /** The loop settles successfully exactly when it committed without rolling back. */
  lemma {:induction false} LoopOkIffCommitted(queries: seq<Option<QueryEntry>>, iteration: nat, results: seq<Rows>,
                                              replies: seq<Reply>)
    requires iteration <= |queries| < |replies|
    ensures var run := LoopSpec(queries, iteration, results, replies);
            run.outcome.Ok? <==> Commit in run.events && Rollback !in run.events
    decreases |queries| - iteration
  {
    if iteration < |queries| && IsRunnable(queries[iteration]) && replies[iteration].Answered? {
      var rest := LoopSpec(queries, iteration + 1, results + [replies[iteration].payload], replies);
      LoopOkIffCommitted(queries, iteration + 1, results + [replies[iteration].payload], replies);
      PrependQuery(QueryEvent(queries[iteration]), rest.events);
    }
  }

  /**
   * The loop issues at most one rollback, and only as its last call: no
   * call but the last is a rollback.
   */
  lemma {:induction false} LoopRollbackLast(queries: seq<Option<QueryEntry>>, iteration: nat, results: seq<Rows>,
                                            replies: seq<Reply>)
    requires iteration <= |queries| < |replies|
    ensures OnlyLast(LoopSpec(queries, iteration, results, replies).events, Rollback)
    decreases |queries| - iteration
  {
    if iteration < |queries| && IsRunnable(queries[iteration]) && replies[iteration].Answered? {
      var rest := LoopSpec(queries, iteration + 1, results + [replies[iteration].payload], replies);
      LoopRollbackLast(queries, iteration + 1, results + [replies[iteration].payload], replies);
      PrependQuery(QueryEvent(queries[iteration]), rest.events);
    }
  }

  /** Putting a query call in front changes neither membership nor where a rollback sits. */
  lemma PrependQuery(head: Event, events: seq<Event>)
    requires head.Query?
    ensures Commit in [head] + events <==> Commit in events
    ensures Rollback in [head] + events <==> Rollback in events
    ensures OnlyLast(events, Rollback) ==> OnlyLast([head] + events, Rollback)
  {
  }

  /**
   * `_executeOrRollbackLoop` flattened into a while loop over the queries,
   * with the results array and the issued calls as accumulators; it issues
   * exactly the calls, and settles exactly as, the recursive definition.
   */
  method ExecuteOrRollbackLoop(queries: seq<Option<QueryEntry>>, replies: seq<Reply>)
    returns (events: seq<Event>, outcome: Outcome<seq<Rows>>)
    requires |queries| < |replies|
    ensures Run(events, outcome) == LoopSpec(queries, 0, [], replies)
  {
    var iteration := 0;
    var results := [];
    events := [];
    while iteration < |queries|
      invariant iteration <= |queries|
      invariant var rest := LoopSpec(queries, iteration, results, replies);
                LoopSpec(queries, 0, [], replies) == Run(events + rest.events, rest.outcome)
      decreases |queries| - iteration
    {
      if !IsRunnable(queries[iteration]) {
        assert events + [] == events;
        return events, Err(InvalidEntryError(iteration));
      }
      events := events + [QueryEvent(queries[iteration])];
      match replies[iteration]
      case Failed(error) =>
        events := events + [Rollback];
        return events, Err(AppendDetails(error, QueryFailedFrame));
      case Answered(rows) =>
        results := results + [rows];
        iteration := iteration + 1;
    }
    var commit := CommitSpec(results, replies[iteration]);
    events := events + commit.events;
    match commit.outcome
    case Ok(value) =>
      outcome := Ok(value);
    case Err(error) =>
      outcome := Err(AppendDetails(error, LoopFrame(iteration)));
  }

  // ----- The loop in closed form --------------------------------------------

  /**
   * The index at which the loop stops looking at entries, from `from` on:
   * the first entry that is not runnable or whose query fails, or
   * `|queries|` when there is none.
   */
  function FirstStop(queries: seq<Option<QueryEntry>>, replies: seq<Reply>, from: nat): (k: nat)
    requires from <= |queries| <= |replies|
    ensures from <= k <= |queries|
    ensures forall j :: from <= j < k ==> IsRunnable(queries[j]) && replies[j].Answered?
    ensures k < |queries| ==> !IsRunnable(queries[k]) || replies[k].Failed?
    decreases |queries| - from
  {
    if from == |queries| || !IsRunnable(queries[from]) || replies[from].Failed? then from
    else FirstStop(queries, replies, from + 1)
  }

  /** The query calls for entries `lo` up to (not including) `hi`, in index order. */
  function QueryEvents(queries: seq<Option<QueryEntry>>, lo: nat, hi: nat): (events: seq<Event>)
    requires lo <= hi <= |queries|
    requires forall j :: lo <= j < hi ==> IsRunnable(queries[j])
    ensures |events| == hi - lo
    ensures forall i :: 0 <= i < |events| ==> events[i].Query?
    decreases hi - lo
  {
    if lo == hi then [] else [QueryEvent(queries[lo])] + QueryEvents(queries, lo + 1, hi)
  }

  /** The rows of replies `lo` up to (not including) `hi`, in index order. */
  function RowsOf(replies: seq<Reply>, lo: nat, hi: nat): (rows: seq<Rows>)
    requires lo <= hi <= |replies|
    requires forall j :: lo <= j < hi ==> replies[j].Answered?
    ensures |rows| == hi - lo
    decreases hi - lo
  {
    if lo == hi then [] else [replies[lo].payload] + RowsOf(replies, lo + 1, hi)
  }

  /** The j-th issued query is entry lo + j's query: queries go out in index order. */
  lemma {:induction false} QueryEventsInOrder(queries: seq<Option<QueryEntry>>, lo: nat, hi: nat, j: nat)
    requires lo <= hi <= |queries|
    requires forall i :: lo <= i < hi ==> IsRunnable(queries[i])
    requires j < hi - lo
    ensures QueryEvents(queries, lo, hi)[j] == QueryEvent(queries[lo + j])
    decreases hi - lo
  {
    if j > 0 {
      QueryEventsInOrder(queries, lo + 1, hi, j - 1);
    }
  }

  /** The j-th result is the rows of reply lo + j: results keep submission order. */
  lemma {:induction false} RowsOfInOrder(replies: seq<Reply>, lo: nat, hi: nat, j: nat)
    requires lo <= hi <= |replies|
    requires forall i :: lo <= i < hi ==> replies[i].Answered?
    requires j < hi - lo
    ensures RowsOf(replies, lo, hi)[j] == replies[lo + j].payload
    decreases hi - lo
  {
    if j > 0 {
      RowsOfInOrder(replies, lo + 1, hi, j - 1);
    }
  }

  /** The calls after the issued queries, for a loop that stopped at index k. */
  function StopTail(queries: seq<Option<QueryEntry>>, replies: seq<Reply>, k: nat): seq<Event>
    requires k <= |queries| < |replies|
  {
    if k < |queries| && !IsRunnable(queries[k]) then []
    else if k < |queries| then [QueryEvent(queries[k]), Rollback]
    else if replies[k].Answered? then [Commit]
    else [Commit, Rollback]
  }

  /** How a loop that stopped at index k settles; `value` is what it resolves with. */
  function StopOutcome(queries: seq<Option<QueryEntry>>, replies: seq<Reply>, k: nat, value: seq<Rows>)
    : Outcome<seq<Rows>>
    requires k <= |queries| < |replies|
    requires k < |queries| ==> !IsRunnable(queries[k]) || replies[k].Failed?
  {
    if k < |queries| && !IsRunnable(queries[k]) then Err(InvalidEntryError(k))
    else if k < |queries| then Err(AppendDetails(replies[k].error, QueryFailedFrame))
    else if replies[k].Answered? then Ok(value)
    else Err(AppendDetails(AppendDetails(replies[k].error, CommitFailedFrame), LoopFrame(k)))
  }

  /**
   * The loop from `from` on, described by where it stops rather than step
   * by step: the queries before the stop, then the stop's own calls.
   */
  function LoopClosedForm(queries: seq<Option<QueryEntry>>, from: nat, results: seq<Rows>, replies: seq<Reply>)
    : Run<seq<Rows>>
    requires from <= |queries| < |replies|
  {
    var k := FirstStop(queries, replies, from);
    Run(QueryEvents(queries, from, k) + StopTail(queries, replies, k),
        StopOutcome(queries, replies, k, results + RowsOf(replies, from, k)))
  }

  /** The recursive loop and its closed form agree on every input. */
  lemma {:induction false} LoopMatchesClosedForm(queries: seq<Option<QueryEntry>>, from: nat, results: seq<Rows>,
                                                  replies: seq<Reply>)
    requires from <= |queries| < |replies|
    ensures LoopSpec(queries, from, results, replies) == LoopClosedForm(queries, from, results, replies)
    decreases |queries| - from
  {
    if from == |queries| {
      ClosedFormAtCommit(queries, results, replies);
    } else if !IsRunnable(queries[from]) || replies[from].Failed? {
      ClosedFormAtStop(queries, from, results, replies);
    } else {
      LoopMatchesClosedForm(queries, from + 1, results + [replies[from].payload], replies);
      ClosedFormStep(queries, from, results, replies);
    }
  }

  /** Closed form, base case: all entries done, only the commit is left. */
  lemma ClosedFormAtCommit(queries: seq<Option<QueryEntry>>, results: seq<Rows>, replies: seq<Reply>)
    requires |queries| < |replies|
    ensures LoopSpec(queries, |queries|, results, replies) == LoopClosedForm(queries, |queries|, results, replies)
  {
    var from := |queries|;
    assert FirstStop(queries, replies, from) == from;
    assert QueryEvents(queries, from, from) == [];
    assert RowsOf(replies, from, from) == [];
    assert results + [] == results;
  }

  /** Closed form, stopping case: the current entry is invalid or its query fails. */
  lemma ClosedFormAtStop(queries: seq<Option<QueryEntry>>, from: nat, results: seq<Rows>, replies: seq<Reply>)
    requires from < |queries| < |replies|
    requires !IsRunnable(queries[from]) || replies[from].Failed?
    ensures LoopSpec(queries, from, results, replies) == LoopClosedForm(queries, from, results, replies)
  {
    assert FirstStop(queries, replies, from) == from;
    assert QueryEvents(queries, from, from) == [];
  }

  /** Closed form, step: one successful query prepends its call and its rows. */
  lemma ClosedFormStep(queries: seq<Option<QueryEntry>>, from: nat, results: seq<Rows>, replies: seq<Reply>)
    requires from < |queries| < |replies|
    requires IsRunnable(queries[from]) && replies[from].Answered?
    requires LoopSpec(queries, from + 1, results + [replies[from].payload], replies)
             == LoopClosedForm(queries, from + 1, results + [replies[from].payload], replies)
    ensures LoopSpec(queries, from, results, replies) == LoopClosedForm(queries, from, results, replies)
  {
    var rows := replies[from].payload;
    var head := QueryEvent(queries[from]);
    var k := FirstStop(queries, replies, from);
    assert k == FirstStop(queries, replies, from + 1);
    var issued := QueryEvents(queries, from + 1, k);
    var later := RowsOf(replies, from + 1, k);
    var tail := StopTail(queries, replies, k);
    assert QueryEvents(queries, from, k) == [head] + issued;
    assert RowsOf(replies, from, k) == [rows] + later;
    Assoc([head], issued, tail);
    Assoc(results, [rows], later);
  }

  /** All queries ran and the commit was answered: the whole transaction succeeded. */
  predicate AllSucceed(queries: seq<Option<QueryEntry>>, replies: seq<Reply>)
    requires |queries| < |replies|
  {
    && (forall j :: 0 <= j < |queries| ==> IsRunnable(queries[j]) && replies[j].Answered?)
    && replies[|queries|].Answered?
  }

  /**
   * The loop resolves exactly when every entry is runnable and every query
   * and the commit succeed; it then issued Query(0) … Query(N-1) and one
   * commit, and its value holds one rows entry per query in submission order.
   */
  lemma LoopSucceedsIffAllSucceed(queries: seq<Option<QueryEntry>>, replies: seq<Reply>)
    requires |queries| < |replies|
    ensures LoopSpec(queries, 0, [], replies).outcome.Ok? <==> AllSucceed(queries, replies)
    ensures AllSucceed(queries, replies) ==>
              var run := LoopSpec(queries, 0, [], replies);
              && run.events == QueryEvents(queries, 0, |queries|) + [Commit]
              && |run.outcome.value| == |queries|
              && forall j :: 0 <= j < |queries| ==> run.outcome.value[j] == replies[j].payload
  {
    LoopMatchesClosedForm(queries, 0, [], replies);
    if AllSucceed(queries, replies) {
      assert FirstStop(queries, replies, 0) == |queries|;
      forall j | 0 <= j < |queries|
        ensures LoopSpec(queries, 0, [], replies).outcome.value[j] == replies[j].payload
      {
        RowsOfInOrder(replies, 0, |queries|, j);
      }
    }
  }

  /**
   * A driver failure of query k (all before it succeeded) issues queries
   * 0 … k, then exactly one rollback, and nothing after: no later query and
   * no commit.
   */
  lemma LoopStopsAtFailedQuery(queries: seq<Option<QueryEntry>>, replies: seq<Reply>, k: nat)
    requires k < |queries| < |replies|
    requires forall j :: 0 <= j < k ==> IsRunnable(queries[j]) && replies[j].Answered?
    requires IsRunnable(queries[k]) && replies[k].Failed?
    ensures LoopSpec(queries, 0, [], replies).events == QueryEvents(queries, 0, k + 1) + [Rollback]
    ensures LoopSpec(queries, 0, [], replies).outcome == Err(AppendDetails(replies[k].error, QueryFailedFrame))
  {
    LoopMatchesClosedForm(queries, 0, [], replies);
    assert FirstStop(queries, replies, 0) == k;
    var failed := QueryEvent(queries[k]);
    QueryEventsSplit(queries, 0, k);
    assert StopTail(queries, replies, k) == [failed] + [Rollback];
    Assoc(QueryEvents(queries, 0, k), [failed], [Rollback]);
  }

  /**
   * `_commitTransaction` is reached only once the iteration passed every entry:
   * a Commit among the loop's calls means every entry was runnable and every
   * query was answered.
   */
  lemma CommitOnlyAfterAll(queries: seq<Option<QueryEntry>>, replies: seq<Reply>)
    requires |queries| < |replies|
    ensures Commit in LoopSpec(queries, 0, [], replies).events ==>
              forall j :: 0 <= j < |queries| ==> IsRunnable(queries[j]) && replies[j].Answered?
  {
    LoopMatchesClosedForm(queries, 0, [], replies);
    var k := FirstStop(queries, replies, 0);
    if k < |queries| {
      var events := QueryEvents(queries, 0, k) + StopTail(queries, replies, k);
      forall i | 0 <= i < |events| ensures events[i] != Commit {
        if i >= k {
          assert events[i] == StopTail(queries, replies, k)[i - k];
        }
      }
    }
  }

  /**
   * A missing entry, or one without a query, at index k (all before it
   * succeeded) rejects at once: queries 0 … k-1 were issued, nothing for k
   * or later, and no rollback.
   */
  lemma LoopStopsAtInvalidEntry(queries: seq<Option<QueryEntry>>, replies: seq<Reply>, k: nat)
    requires k < |queries| < |replies|
    requires forall j :: 0 <= j < k ==> IsRunnable(queries[j]) && replies[j].Answered?
    requires !IsRunnable(queries[k])
    ensures LoopSpec(queries, 0, [], replies).events == QueryEvents(queries, 0, k)
    ensures LoopSpec(queries, 0, [], replies).outcome == Err(InvalidEntryError(k))
    ensures Rollback !in LoopSpec(queries, 0, [], replies).events
  {
    LoopMatchesClosedForm(queries, 0, [], replies);
    assert FirstStop(queries, replies, 0) == k;
  }

  /**
   * When every query succeeded but the commit fails, one rollback follows
   * the commit and the loop rejects.
   */
  lemma LoopCommitFailureRollsBack(queries: seq<Option<QueryEntry>>, replies: seq<Reply>)
    requires |queries| < |replies|
    requires forall j :: 0 <= j < |queries| ==> IsRunnable(queries[j]) && replies[j].Answered?
    requires replies[|queries|].Failed?
    ensures LoopSpec(queries, 0, [], replies).events == QueryEvents(queries, 0, |queries|) + [Commit, Rollback]
  {
    LoopMatchesClosedForm(queries, 0, [], replies);
    assert FirstStop(queries, replies, 0) == |queries|;
  }

  /**
   * The failed commit's error, annotated by `_commitTransaction` and then
   * by the loop, with the iteration that reached the commit.
   */
  lemma LoopCommitFailureRejects(queries: seq<Option<QueryEntry>>, replies: seq<Reply>)
    requires |queries| < |replies|
    requires forall j :: 0 <= j < |queries| ==> IsRunnable(queries[j]) && replies[j].Answered?
    requires replies[|queries|].Failed?
    ensures LoopSpec(queries, 0, [], replies).outcome
            == Err(AppendDetails(AppendDetails(replies[|queries|].error, CommitFailedFrame), LoopFrame(|queries|)))
  {
    LoopMatchesClosedForm(queries, 0, [], replies);
    assert FirstStop(queries, replies, 0) == |queries|;
  }

  /** Issuing queries lo … k and then query k is issuing queries lo … k+1. */
  lemma {:induction false} QueryEventsSplit(queries: seq<Option<QueryEntry>>, lo: nat, k: nat)
    requires lo <= k < |queries|
    requires forall j :: lo <= j <= k ==> IsRunnable(queries[j])
    ensures QueryEvents(queries, lo, k + 1) == QueryEvents(queries, lo, k) + [QueryEvent(queries[k])]
    decreases k - lo
  {
    if lo < k {
      QueryEventsSplit(queries, lo + 1, k);
    }
  }

  // ----- executeTransaction -------------------------------------------------

  const ConnectionFrame := Frame(ClassName, "executeTransaction", "[MySQL]Error getting connection from pool")
  const BeginFrame := Frame(ClassName, "executeTransaction", "[MySQL]Error starting transaction")
  const TransactionFailedFrame := Frame(ClassName, "executeTransaction", "[MySQL]Failed to complete transaction")

  /** The loop's script holds an answer for every query and for the commit. */
  predicate EnoughReplies(options: Option<TransactionOptions>, loopReplies: seq<Reply>) {
    options.Some? && options.value.queries.Some? ==> |options.value.queries.value| < |loopReplies|
  }

  /** How the loop's settlement reaches the caller of executeTransaction. */
  function Surfaced(loop: Outcome<seq<Rows>>): Outcome<seq<Rows>> {
    match loop
    case Ok(results) => Ok(results)
    case Err(error) => Err(AppendDetails(error, TransactionFailedFrame))
  }

  /** The loop's calls between the begin and the release: the release is last and the only one. */
  lemma Bracketed(loopEvents: seq<Event>)
    requires LoopEventsOnly(loopEvents)
    ensures var events := [Begin] + loopEvents + [Release];
            && ReleasedOnceAtEnd(events) && NoConnectionRequest(events)
            && (Commit in events <==> Commit in loopEvents)
            && (Rollback in events <==> Rollback in loopEvents)
  {
    var events := [Begin] + loopEvents + [Release];
    forall i | 0 <= i < |events| - 1
      ensures events[i] != Release && !events[i].GetConn?
    {
      if i > 0 {
        assert events[i] == loopEvents[i - 1];
      }
    }
  }

  /**
   * The getConnection callback of `executeTransaction` once a connection is
   * held: beginTransaction, then the loop; the connection is released
   * exactly once, as the last call, whatever happened. `beginReply`
   * answers beginTransaction and `loopReplies` the loop.
   */
  method OnConnection(queries: seq<Option<QueryEntry>>, beginReply: Reply, loopReplies: seq<Reply>)
    returns (events: seq<Event>, outcome: Outcome<seq<Rows>>)
    requires |queries| < |loopReplies|
    ensures ReleasedOnceAtEnd(events) && NoConnectionRequest(events)
    ensures beginReply.Failed? ==>
              events == [Begin, Release] && outcome == Err(AppendDetails(beginReply.error, BeginFrame))
    ensures beginReply.Answered? ==>
              var loop := LoopSpec(queries, 0, [], loopReplies);
              events == [Begin] + loop.events + [Release] && outcome == Surfaced(loop.outcome)
    ensures outcome.Ok? <==> Commit in events && Rollback !in events
  {
    events := [Begin];
    if beginReply.Failed? {
      events := events + [Release];
      return events, Err(AppendDetails(beginReply.error, BeginFrame));
    }
    var issued, settled := ExecuteOrRollbackLoop(queries, loopReplies);
    LoopCallsOnly(queries, 0, [], loopReplies);
    LoopOkIffCommitted(queries, 0, [], loopReplies);
    Bracketed(issued);
    events := events + issued + [Release];
    outcome := Surfaced(settled);
  }

  /** The calls of a transaction that obtained a connection and began: `events` between begin and release. */
  function InConnection(pool: Pool, events: seq<Event>): seq<Event> {
    [GetConn(pool)] + ([Begin] + events + [Release])
  }

  /**
   * Connection and transaction start succeeded: the loop's calls sit
   * between the begin and the release, and its settlement reaches the
   * caller.
   */
  predicate LoopPhase(pool: Pool, queries: seq<Option<QueryEntry>>, loopReplies: seq<Reply>,
                      trace: seq<Event>, outcome: Outcome<seq<Rows>>)
    requires |queries| < |loopReplies|
  {
    var loop := LoopSpec(queries, 0, [], loopReplies);
    trace == InConnection(pool, loop.events) && outcome == Surfaced(loop.outcome)
  }

  /**
   * What `executeTransaction` does from its connection request on, given
   * the pool and the queries: `connReply` answers getConnection,
   * `beginReply` beginTransaction and `loopReplies` the loop. A failed
   * request releases nothing; once a connection is held it is released
   * exactly once, as the last call; the transaction resolves exactly when
   * it committed and never rolled back.
   */
  predicate ConnectionPhase(pool: Pool, queries: seq<Option<QueryEntry>>,
                            connReply: Reply, beginReply: Reply, loopReplies: seq<Reply>,
                            trace: seq<Event>, outcome: Outcome<seq<Rows>>)
    requires |queries| < |loopReplies|
  {
    && ConnectionRequestedFirst(trace, pool)
    && (connReply.Failed? ==>
          && trace == [GetConn(pool)] && Release !in trace
          && outcome == Err(AppendDetails(connReply.error, ConnectionFrame)))
    && (connReply.Answered? ==> ReleasedOnceAtEnd(trace))
    && (connReply.Answered? && beginReply.Failed? ==>
          trace == [GetConn(pool), Begin, Release] && outcome == Err(AppendDetails(beginReply.error, BeginFrame)))
    && (connReply.Answered? && beginReply.Answered? ==> LoopPhase(pool, queries, loopReplies, trace, outcome))
    && (outcome.Ok? <==> Commit in trace && Rollback !in trace)
  }

  /** The getConnection callback of `executeTransaction`. */
  method Connect(pool: Pool, queries: seq<Option<QueryEntry>>,
                 connReply: Reply, beginReply: Reply, loopReplies: seq<Reply>)
    returns (trace: seq<Event>, outcome: Outcome<seq<Rows>>)
    requires |queries| < |loopReplies|
    ensures ConnectionPhase(pool, queries, connReply, beginReply, loopReplies, trace, outcome)
  {
    trace := [GetConn(pool)];
    if connReply.Failed? {
      return trace, Err(AppendDetails(connReply.error, ConnectionFrame));
    }
    var events;
    events, outcome := OnConnection(queries, beginReply, loopReplies);
    Requested(pool, events);
    trace := trace + events;
  }

  /**
   * `executeTransaction`: a transaction refused by the checks makes no
   * driver call at all and rejects with the first failing check's error;
   * an admitted one requests a connection from the selected pool and goes
   * on as ConnectionPhase describes.
   */
  method ExecuteTransaction(options: Option<TransactionOptions>, pools: map<string, Pool>,
                            classThreshold: Option<int>, defaultThreshold: int, general: string,
                            connReply: Reply, beginReply: Reply, loopReplies: seq<Reply>)
    returns (trace: seq<Event>, outcome: Outcome<seq<Rows>>)
    requires EnoughReplies(options, loopReplies)
    ensures var a := Admit(options, pools, classThreshold, defaultThreshold, general);
            a.Refused? ==> trace == [] && outcome == Err(RejectionError(a.reason, options))
    ensures var a := Admit(options, pools, classThreshold, defaultThreshold, general);
            a.Admitted? ==> ConnectionPhase(a.pool, a.queries, connReply, beginReply, loopReplies, trace, outcome)
  {
    var admission := Admit(options, pools, classThreshold, defaultThreshold, general);
    if admission.Refused? {
      return [], Err(RejectionError(admission.reason, options));
    }
    trace, outcome := Connect(admission.pool, admission.queries, connReply, beginReply, loopReplies);
  }

  // ----- Whole-transaction consequences -------------------------------------
  // Each lemma below starts from LoopPhase, or from the half of its definition
  // it needs; ConnectionPhase grants LoopPhase once getConnection and
  // beginTransaction were both answered successfully.

  /**
   * The transaction resolves exactly when every entry is runnable and every
   * query and the commit succeed; it then issued Query(0) … Query(N-1), one commit and one
   * release, and resolves with one rows entry per query in submission order.
   */
  lemma TransactionSucceedsIffAllSucceed(pool: Pool, queries: seq<Option<QueryEntry>>,
                                         loopReplies: seq<Reply>, trace: seq<Event>, outcome: Outcome<seq<Rows>>)
    requires |queries| < |loopReplies|
    requires LoopPhase(pool, queries, loopReplies, trace, outcome)
    ensures outcome.Ok? <==> AllSucceed(queries, loopReplies)
    ensures outcome.Ok? ==>
              && trace == InConnection(pool, QueryEvents(queries, 0, |queries|) + [Commit])
              && |outcome.value| == |queries|
              && forall j :: 0 <= j < |queries| ==> outcome.value[j] == loopReplies[j].payload
  {
    LoopSucceedsIffAllSucceed(queries, loopReplies);
  }

  /**
   * A driver failure of query k ends the transaction with queries 0 … k
   * issued, then one rollback and the release: no later query and no commit.
   */
  lemma TransactionStopsAtFailedQuery(pool: Pool, queries: seq<Option<QueryEntry>>,
                                      loopReplies: seq<Reply>, trace: seq<Event>, outcome: Outcome<seq<Rows>>, k: nat)
    requires k < |queries| < |loopReplies|
    requires LoopPhase(pool, queries, loopReplies, trace, outcome)
    requires forall j :: 0 <= j < k ==> IsRunnable(queries[j]) && loopReplies[j].Answered?
    requires IsRunnable(queries[k]) && loopReplies[k].Failed?
    ensures trace == InConnection(pool, QueryEvents(queries, 0, k + 1) + [Rollback])
    ensures outcome == Err(AppendDetails(AppendDetails(loopReplies[k].error, QueryFailedFrame), TransactionFailedFrame))
  {
    LoopStopsAtFailedQuery(queries, loopReplies, k);
  }

  /**
   * An invalid entry at index k ends the transaction with queries 0 … k-1
   * issued and the release, and without any rollback.
   */
  lemma TransactionStopsAtInvalidEntry(pool: Pool, queries: seq<Option<QueryEntry>>,
                                       loopReplies: seq<Reply>, trace: seq<Event>, outcome: Outcome<seq<Rows>>, k: nat)
    requires k < |queries| < |loopReplies|
    requires LoopPhase(pool, queries, loopReplies, trace, outcome)
    requires forall j :: 0 <= j < k ==> IsRunnable(queries[j]) && loopReplies[j].Answered?
    requires !IsRunnable(queries[k])
    ensures trace == InConnection(pool, QueryEvents(queries, 0, k))
    ensures Rollback !in trace
    ensures outcome == Err(AppendDetails(InvalidEntryError(k), TransactionFailedFrame))
  {
    LoopStopsAtInvalidEntry(queries, loopReplies, k);
  }

  /**
   * When every query succeeded but the commit fails, the trace ends with the
   * commit, one rollback and the release.
   */
  lemma TransactionCommitFailureRollsBack(pool: Pool, queries: seq<Option<QueryEntry>>,
                                          loopReplies: seq<Reply>, trace: seq<Event>)
    requires |queries| < |loopReplies|
    requires trace == InConnection(pool, LoopSpec(queries, 0, [], loopReplies).events)
    requires forall j :: 0 <= j < |queries| ==> IsRunnable(queries[j]) && loopReplies[j].Answered?
    requires loopReplies[|queries|].Failed?
    ensures trace == InConnection(pool, QueryEvents(queries, 0, |queries|) + [Commit, Rollback])
  {
    LoopCommitFailureRollsBack(queries, loopReplies);
  }

  /**
   * A failed commit rejects with the driver's error annotated by
   * `_commitTransaction`, by the loop and by executeTransaction.
   */
  lemma TransactionCommitFailureRejects(queries: seq<Option<QueryEntry>>, loopReplies: seq<Reply>,
                                        outcome: Outcome<seq<Rows>>)
    requires |queries| < |loopReplies|
    requires outcome == Surfaced(LoopSpec(queries, 0, [], loopReplies).outcome)
    requires forall j :: 0 <= j < |queries| ==> IsRunnable(queries[j]) && loopReplies[j].Answered?
    requires loopReplies[|queries|].Failed?
    ensures outcome == Err(AppendDetails(AppendDetails(AppendDetails(loopReplies[|queries|].error, CommitFailedFrame),
                                                       LoopFrame(|queries|)), TransactionFailedFrame))
  {
    LoopCommitFailureRejects(queries, loopReplies);
  }

  /** Six queries against a default threshold of five, with no override, are refused. */
  lemma SixQueriesExceedDefaultOfFive(options: TransactionOptions, pools: map<string, Pool>, general: string)
    requires options.queries.Some? && |options.queries.value| == 6
    requires options.queryCountThreshold == None && PoolName(options, general) in pools
    ensures Admit(Some(options), pools, None, 5, general) == Refused(TooManyQueries)
  {
  }
}
