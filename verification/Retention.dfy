/** Pruning old results in batches (`prune_ping_results` in app/tasks.py). */
module Retention {
  import opened Common
  import opened Monitors

  /** The retention view of `ping_results`: when each row was checked. */
  type Results = map<nat, Time>

  function Expired(t: Results, cutoff: Time): set<nat> {
    set id | id in t && t[id] < cutoff
  }

  ghost function ExpiredCount(rows: Results, cutoff: Time): nat {
    |Expired(rows, cutoff)|
  }

  /** The one-shot filter. */
  function Kept(t: Results, cutoff: Time): Results {
    map id | id in t && t[id] >= cutoff :: t[id]
  }

  function Deleted(t: Results, ids: set<nat>): Results {
    t - ids
  }

  function Inserted(t: Results, more: Results): Results {
    t + more
  }

  /** The cutoff itself is kept: a row goes exactly when it is strictly older. */
  lemma ExpiredIsOlder(t: Results, cutoff: Time, id: nat)
    requires id in t
    ensures id in Expired(t, cutoff) <==> t[id] < cutoff
    ensures id in Kept(t, cutoff) <==> cutoff <= t[id]
    ensures id in Kept(t, cutoff) ==> Kept(t, cutoff)[id] == t[id]
  {
  }

  /** The rows of one DELETE: the first `limit` expired ids. */
  ghost predicate FirstExpired(t: Results, cutoff: Time, limit: nat, batch: set<nat>) {
    && batch <= Expired(t, cutoff)
    && |batch| == Min(limit, |Expired(t, cutoff)|)
    && (forall id, other :: id in batch && other in Expired(t, cutoff) - batch ==> id < other)
  }

  lemma {:induction false} HasSmallest(s: set<nat>) returns (first: nat)
    requires s != {}
    ensures first in s && forall other: nat :: other in s ==> first <= other
    decreases |s|
  {
    var some :| some in s;
    first := some;
    if s != {some} {
      var rest := HasSmallest(s - {some});
      assert forall other :: other in s ==> other == some || other in s - {some};
      if rest < some {
        first := rest;
      }
    }
  }

  method SelectExpired(t: Results, cutoff: Time, limit: nat) returns (batch: set<nat>)
    ensures FirstExpired(t, cutoff, limit, batch)
  {
    batch := {};
    var rest := Expired(t, cutoff);
    while |batch| < limit && rest != {}
      invariant rest == Expired(t, cutoff) - batch && |batch| <= limit
      invariant FirstExpired(t, cutoff, |batch|, batch)
      decreases rest
    {
      ghost var _ := HasSmallest(rest);
      var id :| id in rest && forall other :: other in rest ==> id <= other;
      SubsetCardinality(batch + {id}, Expired(t, cutoff));
      batch, rest := batch + {id}, rest - {id};
    }
    if rest == {} {
      assert batch == Expired(t, cutoff);
    }
  }

  /** Rounds of the loop for `n` expired rows: one per batch and a last one that deletes nothing. */
  ghost function Rounds(n: nat, limit: nat): nat
    requires limit > 0
  {
    if n == 0 then 1 else 1 + Rounds(n - Min(limit, n), limit)
  }

  /** That is ceil(n / limit) + 1. */
  lemma {:induction false} RoundsIsCeiling(n: nat, limit: nat)
    requires limit > 0
    ensures n <= (Rounds(n, limit) - 1) * limit < n + limit
  {
    if n > 0 {
      RoundsIsCeiling(n - Min(limit, n), limit);
      var rest := Rounds(n - Min(limit, n), limit);
      assert (1 + rest - 1) * limit == (rest - 1) * limit + limit;
    }
  }

  /** What workers insert after round `i`. */
  function Arrival(arrivals: seq<Results>, i: nat): Results {
    if i < |arrivals| then arrivals[i] else map[]
  }

  /** What workers insert between the batches, up to round `n`. */
  function Arrived(arrivals: seq<Results>, n: nat): Results {
    if n == 0 then map[] else Inserted(Arrived(arrivals, n - 1), Arrival(arrivals, n - 1))
  }

  /** Everything that was inserted is there, and nothing else. */
  lemma {:induction false} ArrivedExactly(arrivals: seq<Results>, n: nat, id: nat)
    ensures id in Arrived(arrivals, n) <==> exists i :: 0 <= i < n && i < |arrivals| && id in arrivals[i]
  {
    if n > 0 {
      ArrivedExactly(arrivals, n - 1, id);
      if n <= |arrivals| {
        assert Arrival(arrivals, n - 1) == arrivals[n - 1];
      }
    }
  }

  /** Rows inserted while the loop runs are new and not expired. */
  ghost predicate Fresh(arrivals: seq<Results>, before: Results, cutoff: Time) {
    forall i: nat, id: nat :: id in Arrival(arrivals, i) ==> Arrival(arrivals, i)[id] >= cutoff && id !in before
  }

  class ResultStore {
    var rows: Results

    constructor (rows: Results)
      ensures this.rows == rows
    {
      this.rows := rows;
    }
  }

  /** Exactly `removed` is gone, all of it expired, and the arrivals of `n` rounds are in. */
  ghost predicate Pruned(before: Results, cutoff: Time, removed: set<nat>, arrivals: seq<Results>, n: nat, rows: Results) {
    && removed <= Expired(before, cutoff)
    && rows == Inserted(Deleted(before, removed), Arrived(arrivals, n))
  }

  /** The one-shot filter, plus the arrivals of `n` rounds. */
  ghost predicate Filtered(before: Results, cutoff: Time, arrivals: seq<Results>, n: nat, rows: Results) {
    rows == Inserted(Kept(before, cutoff), Arrived(arrivals, n))
  }

  /** The pruning loop. Between batches workers insert `arrivals[round]`, none of them expired; the process
      may die right after the commit of round `stopAfter`. */
  method PrunePingResults(store: ResultStore, cutoff: Time, limit: nat, arrivals: seq<Results>, stopAfter: Option<nat>)
    returns (totalDeleted: nat, rounds: nat, finished: bool, ghost removed: set<nat>)
    requires Fresh(arrivals, store.rows, cutoff)
    modifies store
    // At every stopping point: only expired rows are gone, and every arrival is there.
    ensures rounds >= 1 && Pruned(old(store.rows), cutoff, removed, arrivals, rounds - 1, store.rows)
    ensures totalDeleted == |removed|
    ensures stopAfter.None? ==> finished
    // A finished loop equals the one-shot filter and takes exactly the rounds it must.
    ensures finished && limit > 0 ==>
              && Filtered(old(store.rows), cutoff, arrivals, rounds - 1, store.rows)
              && totalDeleted == ExpiredCount(old(store.rows), cutoff)
              && rounds == Rounds(ExpiredCount(old(store.rows), cutoff), limit)
    ensures limit == 0 ==> totalDeleted == 0 && rounds == 1
  {
    hide *;
    ghost var before := store.rows;
    NothingYet(before, cutoff, limit, arrivals);
    totalDeleted, rounds, finished, removed := 0, 0, true, {};
    while true
      invariant finished && Progress(before, cutoff, limit, arrivals, rounds, removed, totalDeleted, store.rows)
      decreases ExpiredCount(store.rows, cutoff)
    {
      ghost var current := store.rows;
      var deleted, batch := DeleteBatch(store, cutoff, limit);
      if deleted == 0 {
        LastRound(before, cutoff, limit, arrivals, rounds, removed, totalDeleted, current, batch);
        rounds := rounds + 1;
        break;
      }
      removed := NextRound(before, cutoff, limit, arrivals, rounds, removed, totalDeleted, current, batch);
      totalDeleted, rounds := totalDeleted + deleted, rounds + 1;
      if stopAfter == Some(rounds) {
        finished := false;
        break;
      }
      store.rows := Inserted(store.rows, Arrival(arrivals, rounds - 1));
    }
  }

  /** One DELETE and its commit. */
  method DeleteBatch(store: ResultStore, cutoff: Time, limit: nat) returns (deleted: nat, ghost batch: set<nat>)
    modifies store
    ensures FirstExpired(old(store.rows), cutoff, limit, batch) && deleted == |batch|
    ensures store.rows == Deleted(old(store.rows), batch)
  {
    var chosen := SelectExpired(store.rows, cutoff, limit);
    store.rows := Deleted(store.rows, chosen);
    deleted, batch := |chosen|, chosen;
  }

  /** After some rounds: `removed` is gone, the arrivals are in, and the remaining rounds are known. */
  ghost predicate Progress(before: Results, cutoff: Time, limit: nat, arrivals: seq<Results>, rounds: nat,
                           removed: set<nat>, totalDeleted: nat, rows: Results)
  {
    && totalDeleted == |removed|
    && Pruned(before, cutoff, removed, arrivals, rounds, rows)
    && Expired(rows, cutoff) == Expired(before, cutoff) - removed
    && (limit == 0 ==> removed == {} && rounds == 0)
    && (limit > 0 ==> rounds + Rounds(ExpiredCount(rows, cutoff), limit) == Rounds(ExpiredCount(before, cutoff), limit))
  }

  lemma LastRound(before: Results, cutoff: Time, limit: nat, arrivals: seq<Results>, rounds: nat, removed: set<nat>,
                  totalDeleted: nat, rows: Results, batch: set<nat>)
    requires Progress(before, cutoff, limit, arrivals, rounds, removed, totalDeleted, rows)
    requires FirstExpired(rows, cutoff, limit, batch) && |batch| == 0
    ensures totalDeleted == |removed|
    ensures Pruned(before, cutoff, removed, arrivals, rounds, Deleted(rows, batch))
    ensures limit == 0 ==> totalDeleted == 0 && rounds == 0
    ensures limit > 0 ==>
              && Filtered(before, cutoff, arrivals, rounds, Deleted(rows, batch))
              && totalDeleted == ExpiredCount(before, cutoff)
              && rounds + 1 == Rounds(ExpiredCount(before, cutoff), limit)
  {
    if limit > 0 {
      assert Expired(rows, cutoff) == {};
      assert removed == Expired(before, cutoff);
      assert before - removed == Kept(before, cutoff);
    }
  }

  /** A round that deletes something: `next` is gone afterwards, and fewer expired rows are left. */
  lemma NextRound(before: Results, cutoff: Time, limit: nat, arrivals: seq<Results>, rounds: nat, removed: set<nat>,
                  totalDeleted: nat, rows: Results, batch: set<nat>) returns (next: set<nat>)
    requires Fresh(arrivals, before, cutoff)
    requires Progress(before, cutoff, limit, arrivals, rounds, removed, totalDeleted, rows)
    requires FirstExpired(rows, cutoff, limit, batch) && |batch| > 0
    ensures limit > 0 && totalDeleted + |batch| == |next|
    ensures Pruned(before, cutoff, next, arrivals, rounds, Deleted(rows, batch))
    ensures Progress(before, cutoff, limit, arrivals, rounds + 1, next, totalDeleted + |batch|,
                     Inserted(Deleted(rows, batch), Arrival(arrivals, rounds)))
    ensures ExpiredCount(Inserted(Deleted(rows, batch), Arrival(arrivals, rounds)), cutoff) < ExpiredCount(rows, cutoff)
  {
    next := removed + batch;
    BatchRemoves(before, cutoff, removed, batch, arrivals, rounds);
    ArrivalsAreFresh(before, cutoff, next, arrivals, rounds + 1);
    hide Fresh, Expired, Arrived;
  }

  lemma NothingYet(before: Results, cutoff: Time, limit: nat, arrivals: seq<Results>)
    ensures Progress(before, cutoff, limit, arrivals, 0, {}, 0, before)
  {
  }

  lemma BatchRemoves(before: Results, cutoff: Time, removed: set<nat>, batch: set<nat>, arrivals: seq<Results>, rounds: nat)
    requires Fresh(arrivals, before, cutoff)
    requires removed <= Expired(before, cutoff) && batch <= Expired(before, cutoff) - removed
    ensures Deleted(Inserted(Deleted(before, removed), Arrived(arrivals, rounds)), batch)
            == Inserted(Deleted(before, removed + batch), Arrived(arrivals, rounds))
    ensures |removed + batch| == |removed| + |batch|
    ensures |Expired(before, cutoff) - (removed + batch)| == |Expired(before, cutoff) - removed| - |batch|
  {
    ArrivedIsFresh(before, cutoff, arrivals, rounds);
    DeletedTogether(before, removed, batch, Arrived(arrivals, rounds));
    hide *;
    CountsApart(Expired(before, cutoff), removed, batch);
  }

  lemma DeletedTogether(before: Results, removed: set<nat>, batch: set<nat>, arrived: Results)
    requires batch <= before.Keys && arrived.Keys !! before.Keys
    ensures Deleted(Inserted(Deleted(before, removed), arrived), batch) == Inserted(Deleted(before, removed + batch), arrived)
  {
  }

  lemma CountsApart(all: set<nat>, removed: set<nat>, batch: set<nat>)
    requires removed <= all && batch <= all - removed
    ensures |removed + batch| == |removed| + |batch| && |all - (removed + batch)| == |all - removed| - |batch|
  {
    assert all - removed == (all - (removed + batch)) + batch;
  }

  lemma {:induction false} ArrivedIsFresh(before: Results, cutoff: Time, arrivals: seq<Results>, n: nat)
    requires Fresh(arrivals, before, cutoff)
    ensures forall id :: id in Arrived(arrivals, n) ==> Arrived(arrivals, n)[id] >= cutoff && id !in before
  {
    if n > 0 {
      ArrivedIsFresh(before, cutoff, arrivals, n - 1);
    }
  }

  lemma ArrivalsAreFresh(before: Results, cutoff: Time, removed: set<nat>, arrivals: seq<Results>, rounds: nat)
    requires rounds > 0
    requires Fresh(arrivals, before, cutoff)
    ensures Inserted(Inserted(Deleted(before, removed), Arrived(arrivals, rounds - 1)), Arrival(arrivals, rounds - 1))
            == Inserted(Deleted(before, removed), Arrived(arrivals, rounds))
    ensures Expired(Inserted(Deleted(before, removed), Arrived(arrivals, rounds)), cutoff) == Expired(before, cutoff) - removed
  {
    ArrivedIsFresh(before, cutoff, arrivals, rounds);
  }

  /** Stopping after any committed batch and pruning again later gives the table one uninterrupted run at the
      later cutoff gives. */
  lemma RerunEqualsOneRun(before: Results, removed: set<nat>, arrived: Results, cutoff: Time, later: Time)
    requires removed <= Expired(before, cutoff) && cutoff <= later && arrived.Keys !! before.Keys
    ensures Kept(Inserted(Deleted(before, removed), arrived), later) == Kept(Inserted(before, arrived), later)
  {
    forall id | id in Inserted(before, arrived)
      ensures id in Kept(Inserted(Deleted(before, removed), arrived), later) <==> id in Kept(Inserted(before, arrived), later)
    {
      if id in removed {
        assert before[id] < cutoff;
      }
    }
  }
}
