/**
 * `executeQuery`: one statement on a pooled connection, with the optional
 * `SET SESSION group_concat_max_len` statement before it, and the query
 * construction (`_constructQuery`) and final execution (`_execute`) it uses.
 */
module SingleQuery {
  import opened JsValues
  import opened Breadcrumb
  import opened Driver
  import opened SeqFacts

  /** The options object of `executeQuery` (`merchantType` is not modelled). */
  datatype QueryOptions = QueryOptions(
    query: Option<string>,
    args: Option<seq<Arg>>,
    querySuffix: Option<string>,
    poolType: Option<string>,
    lengthConstraint: bool)

  /** The statement and bind values handed to the driver. */
  datatype BuiltQuery = BuiltQuery(query: string, args: seq<Arg>)

  const QueryUndefined: ErrorRecord :=
    AppendDetails(NewError("Query is undefined"), Frame(ClassName, "_constructQuery", "Query is undefined"))

  /**
   * `_constructQuery`: throws when the query is missing or empty; otherwise
   * appends a truthy suffix to the query and defaults the arguments to [].
   */
  function ConstructQuery(options: QueryOptions): (r: Outcome<BuiltQuery>)
    ensures r.Err? <==> !IsTruthyText(options.query)
    ensures r.Err? ==> r.error == QueryUndefined
    ensures r.Ok? ==> options.query.value <= r.value.query
    ensures r.Ok? ==> r.value.query[|options.query.value|..]
                      == (if IsTruthyText(options.querySuffix) then options.querySuffix.value else "")
    ensures r.Ok? ==> r.value.args == (if options.args.Some? then options.args.value else [])
  {
    if !IsTruthyText(options.query) then Err(QueryUndefined)
    else
      var query := options.query.value;
      var args := if options.args.Some? then options.args.value else [];
      if IsTruthyText(options.querySuffix)
      then Ok(BuiltQuery(query + options.querySuffix.value, args))
      else Ok(BuiltQuery(query, args))
  }

  /** The statement the driver receives for "SELECT 1" with suffix " LIMIT 1". */
  lemma SuffixIsAppendedVerbatim()
    ensures ConstructQuery(QueryOptions(Some("SELECT 1"), None, Some(" LIMIT 1"), None, false))
            == Ok(BuiltQuery("SELECT 1 LIMIT 1", []))
  {
    assert "SELECT 1" + " LIMIT 1" == "SELECT 1 LIMIT 1";
  }

  /** `options.poolType || MYSQL_CONN_POOL_GENERAL`: an empty pool type also selects the general pool. */
  function PoolName(options: QueryOptions, general: string): string {
    if IsTruthyText(options.poolType) then options.poolType.value else general
  }

  const NoArguments: ErrorRecord :=
    AppendDetails(NewError("Invalid arguments received"), Frame(ClassName, "executeQuery", "Invalid arguments received"))

  function InvalidPoolType(poolType: Option<string>): ErrorRecord {
    AppendDetails(NewError("Invalid poolType"), Frame(ClassName, "executeQuery", "PoolType: " + Show(poolType)))
  }

  const ConnectionFrame := Frame(ClassName, "executeQuery", "[MySQL]Error getting connection from pool")
  /** Both the SET failure and every later failure of executeQuery carry this cause. */
  const SetLenFrame := Frame(ClassName, "executeQuery", "[MySQL]Error setting group_concat_max_len to 55555")
  const ExecuteFrame := Frame(ClassName, "_execute", "Query syntax issue or processing issue")

  /** The checks before the connection request all pass, so the pool is asked for a connection. */
  predicate RequestsConnection(options: Option<QueryOptions>, pools: map<string, Pool>, general: string) {
    && options.Some?
    && PoolName(options.value, general) in pools
    && ConstructQuery(options.value).Ok?
  }

  /**
   * `_execute`: runs the statement, releases the connection before looking
   * at the driver's answer, and annotates a driver error.
   */
  method Execute(query: string, args: seq<Arg>, reply: Reply) returns (events: seq<Event>, outcome: Outcome<Rows>)
    ensures events == [Query(query, args), Release]
    ensures reply.Answered? ==> outcome == Ok(reply.payload)
    ensures reply.Failed? ==> outcome == Err(AppendDetails(reply.error, ExecuteFrame))
  {
    events := [Query(query, args)];
    events := events + [Release];
    match reply
    case Failed(error) =>
      outcome := Err(AppendDetails(error, ExecuteFrame));
    case Answered(rows) =>
      outcome := Ok(rows);
  }

  /**
   * How `executeQuery` settles once its statement ran: with the rows, or
   * with the driver's error annotated by `_execute` and then by the
   * callback (whose cause names the SET statement either way).
   */
  function Settled(queryReply: Reply): Outcome<Rows> {
    match queryReply
    case Answered(rows) => Ok(rows)
    case Failed(error) => Err(AppendDetails(AppendDetails(error, ExecuteFrame), SetLenFrame))
  }

  /**
   * The getConnection callback of `executeQuery` once a connection is held:
   * the optional SET statement, whose failure skips the main query, then
   * `_execute`. The connection is released exactly once, as the last event.
   * `setReply` answers the SET statement, when it is issued, and
   * `queryReply` the statement itself.
   */
  method OnConnection(lengthConstraint: bool, built: BuiltQuery, setReply: Reply, queryReply: Reply)
    returns (events: seq<Event>, outcome: Outcome<Rows>)
    ensures ReleasedOnceAtEnd(events) && NoConnectionRequest(events)
    ensures lengthConstraint && setReply.Failed? ==>
              events == [SetLen, Release] && outcome == Err(AppendDetails(setReply.error, SetLenFrame))
    ensures lengthConstraint && setReply.Answered? ==>
              events == [SetLen, Query(built.query, built.args), Release] && outcome == Settled(queryReply)
    ensures !lengthConstraint ==>
              events == [Query(built.query, built.args), Release] && outcome == Settled(queryReply)
  {
    events := [];
    if lengthConstraint {
      events := [SetLen];
      if setReply.Failed? {
        events := events + [Release];
        return events, Err(AppendDetails(setReply.error, SetLenFrame));
      }
    }
    var executed, result := Execute(built.query, built.args, queryReply);
    events := events + executed;
    match result
    case Ok(rows) =>
      outcome := Ok(rows);
    case Err(error) =>
      outcome := Err(AppendDetails(error, SetLenFrame));
  }

  /**
   * `executeQuery`: the checks run in the order options, pool, query, all
   * before any connection is requested; a failed connection request
   * releases nothing; once a connection is obtained it is released exactly
   * once, as the last event; the driver receives the statement
   * `_constructQuery` built. `connReply` answers getConnection.
   */
  method ExecuteQuery(options: Option<QueryOptions>, pools: map<string, Pool>, general: string,
                      connReply: Reply, setReply: Reply, queryReply: Reply)
    returns (trace: seq<Event>, outcome: Outcome<Rows>)
    ensures options.None? ==> trace == [] && outcome == Err(NoArguments)
    ensures options.Some? && PoolName(options.value, general) !in pools ==>
              trace == [] && outcome == Err(InvalidPoolType(options.value.poolType))
    ensures options.Some? && PoolName(options.value, general) in pools && ConstructQuery(options.value).Err? ==>
              trace == [] && outcome == Err(QueryUndefined)
    ensures RequestsConnection(options, pools, general) ==>
              ConnectionRequestedFirst(trace, pools[PoolName(options.value, general)])
    ensures RequestsConnection(options, pools, general) && connReply.Failed? ==>
              trace == [GetConn(pools[PoolName(options.value, general)])]
              && outcome == Err(AppendDetails(connReply.error, ConnectionFrame))
    ensures RequestsConnection(options, pools, general) && connReply.Answered? ==> ReleasedOnceAtEnd(trace)
    ensures !(RequestsConnection(options, pools, general) && connReply.Answered?) ==> Release !in trace
    ensures RequestsConnection(options, pools, general) && connReply.Answered? ==>
              var pool := pools[PoolName(options.value, general)];
              var built := ConstructQuery(options.value).value;
              && (options.value.lengthConstraint && setReply.Failed? ==>
                    trace == [GetConn(pool), SetLen, Release]
                    && outcome == Err(AppendDetails(setReply.error, SetLenFrame)))
              && (options.value.lengthConstraint && setReply.Answered? ==>
                    trace == [GetConn(pool), SetLen, Query(built.query, built.args), Release]
                    && outcome == Settled(queryReply))
              && (!options.value.lengthConstraint ==>
                    trace == [GetConn(pool), Query(built.query, built.args), Release]
                    && outcome == Settled(queryReply))
  {
    trace := [];
    if options.None? {
      return trace, Err(NoArguments);
    }
    var opts := options.value;
    var name := PoolName(opts, general);
    if name !in pools {
      return trace, Err(InvalidPoolType(opts.poolType));
    }
    var constructed := ConstructQuery(opts);
    if constructed.Err? {
      return trace, Err(constructed.error);
    }
    trace := [GetConn(pools[name])];
    if connReply.Failed? {
      return trace, Err(AppendDetails(connReply.error, ConnectionFrame));
    }
    var events;
    events, outcome := OnConnection(opts.lengthConstraint, constructed.value, setReply, queryReply);
    Requested(pools[name], events);
    trace := trace + events;
  }
}
