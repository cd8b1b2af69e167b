/**
 * The mysql driver as the wrapper sees it. The driver itself is not modelled:
 * each call that can fail (getConnection, beginTransaction, query, commit)
 * is answered by the next entry of a script of replies, and what the
 * wrapper does with the connection is recorded as a trace of events.
 */
module Driver {
  import opened Breadcrumb
  import opened SeqFacts

  /** An opaque bind value of a prepared statement. */
  datatype Arg = Arg(id: nat)

  /** The opaque rows object the driver hands back for one query. */
  datatype Rows = Rows(id: nat)

  /** An opaque handle on one of the driver's connection pools. */
  datatype Pool = Pool(id: nat)

  /**
   * The driver's answer to one call: success, carrying the rows for a query
   * (the payload is ignored for every other call), or an error.
   */
  datatype Reply = Answered(payload: Rows) | Failed(error: ErrorRecord)

  /** One call the wrapper makes on a pool or a connection. */
  datatype Event =
    | GetConn(pool: Pool)              // pool.getConnection
    | Begin                            // conn.beginTransaction
    | SetLen                           // conn.query("SET SESSION group_concat_max_len=55555")
    | Query(sql: string, args: seq<Arg>)  // conn.query(sql, args)
    | Rollback                         // conn.rollback
    | Commit                           // conn.commit
    | Release                          // conn.release

  /** How a promise of the wrapper settles, or how a synchronous call ends. */
  datatype Outcome<+T> = Ok(value: T) | Err(error: ErrorRecord)

  /** The events one step issued and how it settled. */
  datatype Run<+T> = Run(events: seq<Event>, outcome: Outcome<T>)

  /** `ev` occurs nowhere in `trace` but, possibly, as its last event. */
  predicate OnlyLast(trace: seq<Event>, ev: Event) {
    forall i :: 0 <= i < |trace| - 1 ==> trace[i] != ev
  }

  /** The connection is released as the last event and nowhere before it. */
  predicate ReleasedOnceAtEnd(trace: seq<Event>) {
    |trace| > 0 && trace[|trace| - 1] == Release && OnlyLast(trace, Release)
  }

  /** No event of `events` asks a pool for a connection. */
  predicate NoConnectionRequest(events: seq<Event>) {
    forall i :: 0 <= i < |events| ==> !events[i].GetConn?
  }

  /** The trace starts by asking `pool` for a connection and asks for none after that. */
  predicate ConnectionRequestedFirst(trace: seq<Event>, pool: Pool) {
    && |trace| > 0 && trace[0] == GetConn(pool)
    && forall i :: 0 < i < |trace| ==> !trace[i].GetConn?
  }

  /** Released once at the end means exactly one Release in the trace. */
  lemma ReleasedOnceCountsOne(trace: seq<Event>)
    requires ReleasedOnceAtEnd(trace)
    ensures multiset(trace)[Release] == 1
  {
    var n := |trace| - 1;
    assert trace == trace[..n] + [Release];
    assert Release !in trace[..n];
    assert multiset(trace) == multiset(trace[..n]) + multiset([Release]);
  }

  /** A connection request in front of calls made on the connection: requested first, released last. */
  lemma Requested(pool: Pool, events: seq<Event>)
    requires ReleasedOnceAtEnd(events) && NoConnectionRequest(events)
    ensures var trace := [GetConn(pool)] + events;
            && ConnectionRequestedFirst(trace, pool) && ReleasedOnceAtEnd(trace)
            && (Commit in trace <==> Commit in events)
            && (Rollback in trace <==> Rollback in events)
  {
    var trace := [GetConn(pool)] + events;
    forall i | 0 < i < |trace|
      ensures trace[i] == events[i - 1]
    {
    }
  }
}
