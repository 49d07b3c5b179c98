/** The database and the transaction scope of app/db.py. */
module Db {
  import opened Common
  import opened Monitors

  datatype CheckType = HealthCheck | KeepAliveCheck

  datatype ErrorDetail =
    | ConnectTimeout | ReadTimeout | WriteTimeout | PoolTimeout | TotalTimeout | ConnectError
    | TlsError | RedirectError | RequestError | SsrfBlocked | DnsError | TaskSoftTimeLimit

  /** One row of the `ping_results` table. */
  datatype PingResult = PingResult(
    monitorId: Id,
    checkType: CheckType,
    statusCode: Option<int>,
    error: Option<ErrorDetail>,
    checkedAt: Time)

  /** Everything stored. */
  datatype Tables = Tables(monitors: Table, results: seq<PingResult>)

  /** The foreign key of ping_results.monitor_id. */
  predicate ReferencesHold(t: Tables) {
    forall i :: 0 <= i < |t.results| ==> t.results[i].monitorId in t.monitors
  }

  /** Deleting a monitor cascades to its results. */
  function WithoutMonitor(t: Tables, id: Id): (r: Tables)
    ensures ReferencesHold(t) ==> ReferencesHold(r)
    ensures r.monitors.Keys == t.monitors.Keys - {id}
    ensures forall other :: other in r.monitors ==> r.monitors[other] == t.monitors[other]
    ensures r.results == ResultsOfOthers(t.results, id)
  {
    Tables(t.monitors - {id}, ResultsOfOthers(t.results, id))
  }

  function ResultsOfOthers(results: seq<PingResult>, id: Id): (r: seq<PingResult>)
    ensures forall x :: x in r <==> x in results && x.monitorId != id
    ensures |r| <= |results|
  {
    if results == [] then []
    else
      var last := results[|results| - 1];
      var before := ResultsOfOthers(results[..|results| - 1], id);
      assert results == results[..|results| - 1] + [last];
      if last.monitorId == id then before else before + [last]
  }

  /** `at` picks the rows of other monitors, all of them, each once and in their order. */
  ghost predicate PicksOthers(results: seq<PingResult>, id: Id, at: seq<nat>) {
    && (forall i :: 0 <= i < |at| ==> at[i] < |results|)
    && (forall i, j :: 0 <= i < j < |at| ==> at[i] < at[j])
    && (forall k: nat :: k < |results| ==> (k in at <==> results[k].monitorId != id))
  }

  /** `r` holds the rows at the positions `at`. */
  ghost predicate RowsAt(results: seq<PingResult>, at: seq<nat>, r: seq<PingResult>) {
    |r| == |at| && forall i :: 0 <= i < |at| ==> at[i] < |results| && r[i] == results[at[i]]
  }

  /** What is left are exactly the rows of the other monitors, each as often as before and in the same order. */
  lemma {:induction false} OthersInOrder(results: seq<PingResult>, id: Id) returns (at: seq<nat>)
    ensures PicksOthers(results, id, at) && RowsAt(results, at, ResultsOfOthers(results, id))
  {
    at := [];
    if results != [] {
      var before, last := results[..|results| - 1], results[|results| - 1];
      at := OthersInOrder(before, id);
      assert results == before + [last];
      hide PicksOthers, RowsAt;
      OneMoreRow(before, last, id, at);
      OneMoreAt(before, last, at, ResultsOfOthers(before, id));
      if last.monitorId != id {
        at := at + [|before|];
      }
    }
  }

  lemma OneMoreAt(before: seq<PingResult>, last: PingResult, at: seq<nat>, r: seq<PingResult>)
    requires RowsAt(before, at, r)
    ensures RowsAt(before + [last], at, r) && RowsAt(before + [last], at + [|before|], r + [last])
  {
  }

  lemma OneMoreRow(before: seq<PingResult>, last: PingResult, id: Id, at: seq<nat>)
    requires PicksOthers(before, id, at)
    ensures last.monitorId == id ==> PicksOthers(before + [last], id, at)
    ensures last.monitorId != id ==> PicksOthers(before + [last], id, at + [|before|])
  {
    assert |before| !in at;
    assert forall k :: 0 <= k < |before| ==> (before + [last])[k] == before[k];
  }

  class Database {
    var tables: Tables
    var nextId: Id   // the id sequence; it never hands out a value twice

    ghost predicate Valid()
      reads this
    {
      && TableOk(tables.monitors)
      && ReferencesHold(tables)
      && (forall id :: id in tables.monitors ==> id < nextId)
    }

    constructor ()
      ensures Valid() && tables == Tables(map[], []) && nextId == 0
    {
      tables, nextId := Tables(map[], []), 0;
    }
  }

  /** A unit of work: writes stay in the session until they are committed together, or are dropped. */
  class Session {
    const db: Database
    var work: Tables

    constructor (db: Database)
      ensures this.db == db && work == db.tables
    {
      this.db := db;
      work := db.tables;
    }

    /** All of the session's writes become visible, or none: an orphan result violates the foreign key. */
    method Commit() returns (ok: bool)
      modifies db`tables
      ensures ok == ReferencesHold(work)
      ensures db.tables == if ok then work else old(db.tables)
    {
      ok := ReferencesHold(work);
      if ok {
        db.tables := work;
      }
    }

    method Rollback()
      modifies this`work
      ensures work == db.tables
    {
      work := db.tables;
    }
  }
}
