# easy-mysql request execution, modelled in Dafny

This project models the request-execution core of the `EasyMysql` wrapper
class (`src/easy-mysql.js`): a thin layer over the `mysql` driver that picks a
connection pool, runs single statements (`executeQuery`) and multi-statement
transactions (`executeTransaction`), and annotates every error with a
breadcrumb trail (`appendDetails`) on its way out.

The driver is not modelled. Each driver call that can fail is answered by a
named, scripted `Reply`:

- `executeQuery`: getConnection, the optional `SET SESSION group_concat_max_len` statement, and the statement itself.
- `executeTransaction`: getConnection, beginTransaction, then one reply per query entry plus one for the commit.

What the wrapper does with the connection is recorded as a trace of
`Event`s (`GetConn`, `Begin`, `SetLen`, `Query`, `Rollback`, `Commit`,
`Release`). How the returned promise settles is an `Outcome` (`Ok` or `Err`
with an error record).

Modules and files:

- `js.dfy` (`JsValues`): undefined properties, JavaScript truthiness of strings and numbers, and how template literals render an optional string or a non-negative integer.
- `breadcrumb.dfy` (`Breadcrumb`): error records and `appendDetails`. It holds the pure update `AppendDetails` and a class `ErrorObject` whose `Append` method reassigns the trails in place. It also proves lemmas about chains of annotations.
- `driver.dfy` (`Driver`): replies, events, outcomes, and the trace predicates for connection accounting.
- `query.dfy` (`SingleQuery`): `_constructQuery`, `_execute` and `executeQuery`.
- `transaction.dfy` (`Transaction`): the checks of `executeTransaction`, the threshold resolution, `_executeOrRollbackLoop` and `_commitTransaction`. The loop appears three ways: a recursive definition that follows the source, a while-loop method proved equal to it, and a closed form proved equal to it. Lemmas state what a whole transaction does in each way it can end.
- `registry.dfy` (`Registry`): the constructor's writes to the static fields `connectionPools` and `queryCountThreshold`, as a class.
- `seqs.dfy` (`SeqFacts`): small regrouping facts about sequence concatenation.

The doc comment of `_executeOrRollbackLoop` (src/easy-mysql.js:213-214)
says that on an error the loop rolls back the current execution and stops.
The code does not do this for an invalid query entry, that is, a missing
entry or one with a falsy `query`. The loop rejects at once, with no
rollback (src/easy-mysql.js:236-240). `executeTransaction` then only
annotates the error and releases the connection (src/easy-mysql.js:200-204).
The model follows the code, and `TransactionStopsAtInvalidEntry` proves that
such a trace holds no `Rollback`. As a result, the connection goes back to
the pool with its transaction begun and queries 0 to k-1 neither committed
nor rolled back.

## Model

| member | source | states |
|---|---|---|
| JsValues.DecimalRoundTrip | src/easy-mysql.js:237 | the decimal rendering of an iteration number reads back as that number, so the rendering is injective |
| Breadcrumb.Seed | src/easy-mysql.js:318-319 | `x \|\| "#"` on a string is never empty and keeps a non-empty trail unchanged |
| Breadcrumb.AppendDetails | src/easy-mysql.js:317-320 | one annotation leaves the message alone and makes both trails strictly longer, by exactly one segment after the seeded old trail |
| Breadcrumb.AppendExtends | src/easy-mysql.js:317-320 | after one annotation, the old trail and the seeded old trail are prefixes of the new trail, and what follows the seed is exactly the new segment, for path and causes |
| Breadcrumb.ErrorObject.constructor | src/easy-mysql.js:36 | a new Error carries its message and no breadcrumbs |
| Breadcrumb.ErrorObject.Append | src/easy-mysql.js:317-320 | the in-place update leaves the object holding exactly AppendDetails of its old value, and both old trails remain prefixes |
| Breadcrumb.Annotate | src/easy-mysql.js:317-320 | a chain of annotations keeps the message and, when non-empty, lengthens both trails |
| Breadcrumb.AnnotateExtends | src/easy-mysql.js:317-320 | a chain of annotations never rewrites what either trail already holds: the old trail is a prefix |
| Breadcrumb.AnnotatePair | src/easy-mysql.js:317-320 | two annotations in a row, as an error passes two call sites, equal the chain of both frames, deeper first |
| Breadcrumb.AnnotateTrail | src/easy-mysql.js:317-320 | after a non-empty chain each trail is the seeded old trail followed by one segment per call, in call order |
| Breadcrumb.FreshErrorTrail | src/easy-mysql.js:317-320 | a fresh error's trails after a non-empty chain are "#" followed by the chain's segments |
| Breadcrumb.AnnotateInStages | src/easy-mysql.js:317-320 | annotating at inner call sites and then at outer ones is annotating with the concatenated frames |
| Driver.ReleasedOnceCountsOne | src/easy-mysql.js:190-204 | a trace released once at the end holds exactly one Release |
| Driver.Requested | src/easy-mysql.js:185-189 | putting the connection request in front of the calls made on the connection gives a trace that requests first and only once, still releases once at the end, and keeps Commit and Rollback membership |
| SingleQuery.ConstructQuery | src/easy-mysql.js:289-305 | fails with "Query is undefined" exactly when the query is missing or empty; otherwise the statement starts with the query and continues with the suffix when it is truthy (nothing otherwise), and the arguments default to [] |
| SingleQuery.SuffixIsAppendedVerbatim | src/easy-mysql.js:300-303 | one instance: the query "SELECT 1" with the suffix " LIMIT 1" and no arguments gives exactly the statement "SELECT 1 LIMIT 1" with arguments [] |
| SingleQuery.Execute | src/easy-mysql.js:119-130 | the statement is issued and the connection released before the reply is examined; success resolves with the rows, failure rejects with the error annotated by `_execute` |
| SingleQuery.OnConnection | src/easy-mysql.js:87-104 | with a length constraint a failed SET releases and skips the statement; every path releases exactly once, last, and requests no other connection |
| SingleQuery.ExecuteQuery | src/easy-mysql.js:60-107 | missing options, an unknown pool and a bad query reject in that order with an empty trace; otherwise the selected pool is asked first; a failed request releases nothing; once connected the release comes exactly once, last; the exact trace and settlement of each path |
| Transaction.ResolveThreshold | src/easy-mysql.js:159-161 | the threshold can be zero only when the default is zero: a falsy candidate is never chosen over a later one |
| Transaction.ThresholdIsFirstTruthy | src/easy-mysql.js:159-161 | the threshold is the per-call value when that is truthy, else the class value when that is truthy, else the default |
| Transaction.FalsyThresholdFallsThrough | src/easy-mysql.js:159-161 | an undefined or zero per-call threshold falls through to the class threshold, and with that also falsy to the default |
| Transaction.PoolNamesAgree | src/easy-mysql.js:71 | for the same pool type, executeQuery (`poolType || general`) and executeTransaction (the destructuring default at :153) select different pools exactly when the pool type is the empty string and the general pool name is not empty |
| Transaction.EmptyPoolTypeDefaultsOnlyInExecuteQuery | src/easy-mysql.js:153 | an empty pool type selects the general pool in executeQuery but names the pool "" in executeTransaction |
| Transaction.Admit | src/easy-mysql.js:146-183 | each rejection holds exactly when every earlier check passed and its own check fails (options, queries, pool, count), and an admitted transaction has between 1 and threshold queries on the selected pool |
| Transaction.RejectionError | src/easy-mysql.js:146-183 | a refused transaction rejects with a fresh error carrying the reason's message, whose trails are "#" and one segment for the failing check's appendDetails call |
| Transaction.RejectionMessageNamesReason | src/easy-mysql.js:146-183 | the four refusals have four different messages |
| Transaction.SixQueriesExceedDefaultOfFive | src/easy-mysql.js:177-183 | six queries with no threshold override against a default of five are refused for their count |
| Transaction.RunnableIffConstructible | src/easy-mysql.js:236-241 | the loop's entry check holds exactly when `_constructQuery` (:291-305) would build the entry without throwing, and the loop then sends that built query with its `args || []` |
| Transaction.QueryEvent | src/easy-mysql.js:241 | a runnable entry is sent as its own non-empty query text, with its arguments, or [] when they are undefined |
| Transaction.InvalidEntryErrorNamesIndex | src/easy-mysql.js:236-240 | two invalid-entry errors with the same message come from the same index |
| Transaction.CommitSpec | src/easy-mysql.js:268-280 | the commit resolves with the accumulated results exactly when the driver answers it; a failed commit is followed by one rollback |
| Transaction.LoopSpec | src/easy-mysql.js:225-258 | a successful loop extends the results by one entry per remaining query, keeping the earlier results as a prefix |
| Transaction.LoopCallsOnly | src/easy-mysql.js:225-258 | the loop makes only query, rollback and commit calls |
| Transaction.LoopOkIffCommitted | src/easy-mysql.js:225-258 | the loop resolves exactly when it issued a commit and no rollback |
| Transaction.LoopRollbackLast | src/easy-mysql.js:225-258 | no loop call but the last is a rollback, so at most one rollback is issued, as the last call |
| Transaction.ExecuteOrRollbackLoop | src/easy-mysql.js:225-258 | the while loop with an iteration counter and a results accumulator issues the same calls and settles the same way as the recursive loop |
| Transaction.FirstStop | src/easy-mysql.js:236-247 | the stopping index is the first entry that is invalid or whose query fails, or the end |
| Transaction.QueryEvents | src/easy-mysql.js:241 | one query call per entry in the range |
| Transaction.RowsOf | src/easy-mysql.js:249-251 | one result per successful reply in the range |
| Transaction.QueryEventsInOrder | src/easy-mysql.js:241-253 | the j-th issued query is entry j's query: queries go out in index order |
| Transaction.RowsOfInOrder | src/easy-mysql.js:249-253 | the j-th result is reply j's rows: results keep submission order |
| Transaction.QueryEventsSplit | src/easy-mysql.js:252-253 | issuing queries up to k and then query k is issuing queries up to k + 1 |
| Transaction.LoopMatchesClosedForm | src/easy-mysql.js:225-258 | the recursive loop equals the closed form: the queries before the first stop, then the stop's own calls and settlement |
| Transaction.ClosedFormAtCommit | src/easy-mysql.js:229-233 | with every entry done, only the commit is left, in both forms |
| Transaction.ClosedFormAtStop | src/easy-mysql.js:236-247 | at an invalid entry or a failed query, both forms stop there |
| Transaction.ClosedFormStep | src/easy-mysql.js:248-255 | a successful query prepends its call and its rows in both forms |
| Transaction.CommitOnlyAfterAll | src/easy-mysql.js:229-253 | the loop issues the commit only after every entry was runnable and every one of its queries succeeded |
| Transaction.LoopSucceedsIffAllSucceed | src/easy-mysql.js:225-258 | the loop resolves exactly when every entry is runnable and every query and the commit succeed; then it issued each query in order and one commit, and resolves with one result per query in order |
| Transaction.LoopStopsAtFailedQuery | src/easy-mysql.js:242-246 | a driver failure of query k issues queries 0 to k and then exactly one rollback, with no later query and no commit, and rejects with the error annotated by the loop |
| Transaction.LoopStopsAtInvalidEntry | src/easy-mysql.js:236-240 | an invalid entry at k issues queries 0 to k-1 and nothing more, no rollback, and rejects with the invalid-entry error naming k |
| Transaction.LoopCommitFailureRollsBack | src/easy-mysql.js:270-275 | a failed commit after all queries is followed by exactly one rollback |
| Transaction.LoopCommitFailureRejects | src/easy-mysql.js:229-233 | a failed commit rejects with the driver's error annotated by `_commitTransaction` and then by the loop with the final iteration |
| Transaction.Bracketed | src/easy-mysql.js:197-204 | the loop's calls between begin and release give a trace released once, last, with no connection request |
| Transaction.OnConnection | src/easy-mysql.js:190-205 | a failed begin releases at once; otherwise the loop runs between begin and release; the release is exactly once and last; the result is a success exactly when the trace commits without a rollback |
| Transaction.Connect | src/easy-mysql.js:185-206 | the pool is asked first and once; a failed request releases nothing; once connected the release comes exactly once and last; the begin-failure and loop traces; success exactly when committed without a rollback |
| Transaction.ExecuteTransaction | src/easy-mysql.js:141-209 | a refused transaction makes no driver call and rejects with the first failing check's error; an admitted one behaves as Connect states for the selected pool |
| Transaction.TransactionSucceedsIffAllSucceed | src/easy-mysql.js:197-199 | the transaction resolves exactly when every entry is runnable and every query and the commit succeed; then the trace is request, begin, each query in order, commit, release, and the value holds one result per query in order |
| Transaction.TransactionStopsAtFailedQuery | src/easy-mysql.js:200-204 | a failure of query k gives request, begin, queries 0 to k, one rollback, release, and the error annotated by the loop and by executeTransaction |
| Transaction.TransactionStopsAtInvalidEntry | src/easy-mysql.js:200-204 | an invalid entry at k gives request, begin, queries 0 to k-1, release, and no rollback |
| Transaction.TransactionCommitFailureRollsBack | src/easy-mysql.js:197-204 | a failed commit gives request, begin, every query, commit, one rollback, release |
| Transaction.TransactionCommitFailureRejects | src/easy-mysql.js:200-204 | a failed commit rejects with the driver's error annotated by `_commitTransaction`, by the loop and by executeTransaction |
| Registry.EasyMysql.Unconfigured | src/easy-mysql.js:11-43 | the class declares no static initialiser, so until the constructor first writes them (:29, :33-34, :42) neither static field is set |
| Registry.FirstConstruction | src/easy-mysql.js:20-43 | a first construction that throws leaves both static fields unset; one that succeeds sets the threshold and registers the given pools as they are, or, without them, only the general pool holding the created pool |
| Registry.EasyMysql.Construct | src/easy-mysql.js:20-43 | throws "Invalid configs" and changes nothing exactly when neither pools nor a database configuration are given; given pools are registered as they are; otherwise the registry holds only the general pool; on success the class threshold is overwritten |

## Left out

- The `mysql` driver and `mysql.createPool`, which are foreign code. Each driver call is replaced by a scripted reply and the created pool by a parameter. Rollback and release take no reply, because the source ignores the rollback callback's error and release has no callback. The script always answers, so a driver call that never calls back, and hangs the caller, is not modelled.
- Promise and callback asynchrony. Each call is flattened into sequential steps. Concurrency between calls is not modelled.
- The prototype patching in `modifyErrorPrototype` and the `"*NULL*"` parameter defaults of `appendDetails`. Every call site passes all three arguments.
- The `./constants` module, which is not part of this model. The general pool name and the default threshold are parameters.
- A `TypeError` thrown when the registry is used before any construction, or when the constructor gets undefined options. The methods take the registry as a map.
- Thresholds that are NaN or not numbers, and a comparison against an undefined default. Thresholds are integers.
- Values of `query`, `args`, `querySuffix` and `poolType` that are not strings or arrays (numbers, `null`, objects). Properties are either undefined or of their documented type.
- Pool names that are properties inherited from `Object.prototype` (`toString`, `constructor`, `__proto__`, ...). The registry is modelled as a map of its own keys, so such a pool type is refused as "Invalid poolType"; the source would find a function there and fail later with a `TypeError`, or with the query-count refusal in executeTransaction.
- The `merchantType` option, which is documented but not implemented.
- Row contents and the `{rows}` wrapper objects the loop pushes. Rows are opaque values, and the results hold them directly.
- Transaction lemmas about whole transactions: they take the trace and outcome that ConnectionPhase describes once getConnection and beginTransaction were answered, not a call to ExecuteTransaction. Lemmas cannot call methods.
