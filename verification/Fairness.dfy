/** Bounded fairness of both halves of the sweep: how many sweeps can pass over a due monitor. */
module Fairness {
  import opened Common
  import opened Monitors
  import opened Schemas
  import Api
  import opened Claims
  import opened Sweep

  /** A whole sweep, or one API transaction, with the instant it read from the clock. */
  datatype Event =
    | Swept(now: Time, sends: Schedule -> nat -> bool, recovers: Schedule -> bool, health: PhaseLog, activity: PhaseLog)
    | Created(now: Time, id: Id, payload: MonitorCreate)
    | Updated(now: Time, id: Id, update: MonitorUpdate)
    | Deleted(now: Time, id: Id)

  function LogFor(k: Schedule, e: Event): PhaseLog
    requires e.Swept?
  {
    if k.Health? then e.health else e.activity
  }

  /** One event of a run that watches monitor `x` on schedule `k`: that half of a sweep reaches the broker, `x` is
      not deleted and stays eligible, and an update makes another monitor eligible only if it has no due time
      from before. The publishes of the other half may fail. */
  ghost predicate Step(k: Schedule, x: Id, batchSize: nat, maxBatches: nat, before: Table, e: Event, after: Table) {
    match e
    case Swept(now, sends, recovers, health, activity) =>
      LogFor(k, e).failed == [] && SweepDone(before, now, batchSize, maxBatches, sends, recovers, health, activity, after)
    case Created(now, id, payload) =>
      id !in before && ValidateCreate(payload).None? && after == before[id := Api.NewRow(payload, now)]
    case Updated(now, id, update) =>
      && id in before && Api.Accepts(before[id], update)
      && after == before[id := Api.Merged(before[id], update, now)]
      && (id == x ==> Eligible(k, after[id]))
      && (Eligible(k, after[id]) ==> Eligible(k, before[id]) || Next(k, before[id]).None?)
    case Deleted(now, id) =>
      id != x && after == before - {id}
  }

  ghost predicate Run(k: Schedule, x: Id, batchSize: nat, maxBatches: nat, start: Time, tables: seq<Table>, events: seq<Event>) {
    && |tables| == |events| + 1
    && (forall i :: 0 <= i < |events| ==> Step(k, x, batchSize, maxBatches, tables[i], events[i], tables[i + 1]))
    && (forall i :: 0 <= i < |events| ==> start < events[i].now)
  }

  function Sweeps(events: seq<Event>): nat {
    if events == [] then 0 else (if events[0].Swept? then 1 else 0) + Sweeps(events[1..])
  }

  predicate PublishedIn(k: Schedule, x: Id, e: Event) {
    e.Swept? && x in Published(LogFor(k, e))
  }

  /** The monitors checked on this schedule that are due no later than `x`, itself included. */
  function Ahead(t: Table, k: Schedule, x: Id): set<Id>
    requires x in t
  {
    set y | y in t && Eligible(k, t[y]) && DueTime(t, k, y) <= DueTime(t, k, x)
  }

  ghost predicate Waiting(t: Table, k: Schedule, x: Id, start: Time) {
    TableOk(t) && x in t && IsDue(k, t[x], start)
  }

  /** One half of a sweep does not touch the schedule of the other. */
  lemma OtherHalfKeepsRank(k: Schedule, other: Schedule, x: Id, batchSize: nat, maxBatches: nat, start: Time, before: Table,
                           now: Time, sends: nat -> bool, recovers: bool, log: PhaseLog, after: Table)
    requires Waiting(before, k, x, start) && other != k
    requires PhaseDone(other, before, now, batchSize, maxBatches, sends, recovers, log, after)
    ensures Waiting(after, k, x, start) && Ahead(after, k, x) == Ahead(before, k, x)
  {
    PhaseRows(other, before, now, batchSize, maxBatches, sends, recovers, log, after);
    assert forall id :: id in before ==>
        Eligible(k, after[id]) == Eligible(k, before[id]) && Next(k, after[id]) == Next(k, before[id]);
  }

  /** A sweep that misses `x` was full, and moves as many monitors from before `x` to behind it. */
  lemma MissedSweep(k: Schedule, x: Id, batchSize: nat, maxBatches: nat, start: Time, before: Table, e: Event, after: Table)
    requires Waiting(before, k, x, start) && start < e.now
    requires e.Swept? && Step(k, x, batchSize, maxBatches, before, e, after) && !PublishedIn(k, x, e)
    ensures Waiting(after, k, x, start)
    ensures |Ahead(after, k, x)| == |Ahead(before, k, x)| - batchSize * maxBatches
  {
    hide PhaseDone, Waiting, Ahead;
    var between :|
      && PhaseDone(Health, before, e.now, batchSize, maxBatches, e.sends(Health), e.recovers(Health), e.health, between)
      && PhaseDone(Activity, between, e.now, batchSize, maxBatches, e.sends(Activity), e.recovers(Activity), e.activity, after);
    if k.Health? {
      HalfMisses(k, x, batchSize, maxBatches, start, before, e.now, e.sends(Health), e.recovers(Health), e.health, between);
      OtherHalfKeepsRank(k, Activity, x, batchSize, maxBatches, start, between, e.now, e.sends(Activity),
                         e.recovers(Activity), e.activity, after);
    } else {
      OtherHalfKeepsRank(k, Health, x, batchSize, maxBatches, start, before, e.now, e.sends(Health),
                         e.recovers(Health), e.health, between);
      HalfMisses(k, x, batchSize, maxBatches, start, between, e.now, e.sends(Activity), e.recovers(Activity), e.activity, after);
    }
  }

  lemma HalfMisses(k: Schedule, x: Id, batchSize: nat, maxBatches: nat, start: Time, before: Table, now: Time,
                   sends: nat -> bool, recovers: bool, log: PhaseLog, after: Table)
    requires Waiting(before, k, x, start) && start < now
    requires PhaseDone(k, before, now, batchSize, maxBatches, sends, recovers, log, after)
    requires log.failed == [] && x !in Published(log)
    ensures Waiting(after, k, x, start)
    ensures |Ahead(after, k, x)| == |Ahead(before, k, x)| - batchSize * maxBatches
  {
    PhaseRows(k, before, now, batchSize, maxBatches, sends, recovers, log, after);
    PhaseClaims(k, before, now, batchSize, maxBatches, sends, recovers, log, after);
    assert Failed(log) == {};
    FullHalf(before, k, now, Published(log), x, batchSize * maxBatches);
    MovedBehind(k, x, before, now, Published(log), recovers, after);
  }

  lemma FullHalf(t: Table, k: Schedule, now: Time, published: set<Id>, x: Id, capacity: nat)
    requires x in DueIds(t, k, now) && x !in published && published <= DueIds(t, k, now)
    requires |published| == Min(capacity, |DueIds(t, k, now)|)
    ensures |published| == capacity
  {
    SubsetCardinality(published + {x}, DueIds(t, k, now));
  }

  lemma MovedBehind(k: Schedule, x: Id, before: Table, now: Time, published: set<Id>, recovers: bool, after: Table)
    requires TableOk(before) && x in DueIds(before, k, now) && x !in published
    requires published <= DueIds(before, k, now)
    requires NoneEarlier(before, k, published, DueIds(before, k, now) - published)
    requires after == PhaseTable(before, k, published, {}, now, recovers)
    ensures published <= Ahead(before, k, x)
    ensures Ahead(after, k, x) == Ahead(before, k, x) - published
    ensures |Ahead(after, k, x)| == |Ahead(before, k, x)| - |published|
  {
    forall y | y in before
      ensures y in Ahead(after, k, x) <==> y in Ahead(before, k, x) && y !in published
    {
      assert RowOk(before[y]);
    }
    assert Ahead(before, k, x) == Ahead(after, k, x) + published;
  }

  /** Creating, updating and deleting other monitors never puts anything ahead of `x`. */
  lemma ApiStepKeepsRank(k: Schedule, x: Id, batchSize: nat, maxBatches: nat, start: Time, before: Table, e: Event, after: Table)
    requires Waiting(before, k, x, start) && start < e.now
    requires !e.Swept? && Step(k, x, batchSize, maxBatches, before, e, after)
    ensures Waiting(after, k, x, start)
    ensures |Ahead(after, k, x)| <= |Ahead(before, k, x)|
  {
    hide RowOk;
    if e.Updated? {
      Api.AcceptedIsConsistent(before[e.id], e.update, e.now);
    }
    assert forall id :: id in after && (id !in before || after[id] != before[id]) ==> RowOk(after[id]);
    SubsetCardinality(Ahead(after, k, x), Ahead(before, k, x));
  }

  /** Every sweep that passes over `x` costs it one whole capacity of its rank, and its rank stays positive. */
  lemma {:induction false} RankFalls(k: Schedule, x: Id, batchSize: nat, maxBatches: nat, start: Time,
                                     tables: seq<Table>, events: seq<Event>)
    requires Run(k, x, batchSize, maxBatches, start, tables, events)
    requires Waiting(tables[0], k, x, start)
    requires forall i :: 0 <= i < |events| ==> !PublishedIn(k, x, events[i])
    ensures Waiting(tables[|events|], k, x, start) && |Ahead(tables[|events|], k, x)| >= 1
    ensures Sweeps(events) * (batchSize * maxBatches) + |Ahead(tables[|events|], k, x)| <= |Ahead(tables[0], k, x)|
    decreases |events|
  {
    hide Step, TableOk;
    if events == [] {
      SubsetCardinality({x}, Ahead(tables[0], k, x));
    } else {
      if events[0].Swept? {
        MissedSweep(k, x, batchSize, maxBatches, start, tables[0], events[0], tables[1]);
      } else {
        ApiStepKeepsRank(k, x, batchSize, maxBatches, start, tables[0], events[0], tables[1]);
      }
      RankFalls(k, x, batchSize, maxBatches, start, tables[1..], events[1..]);
      OneMoreSweep(Sweeps(events[1..]), batchSize * maxBatches);
    }
  }

  lemma OneMoreSweep(sweeps: nat, capacity: nat)
    ensures (1 + sweeps) * capacity == capacity + sweeps * capacity
  {
  }

  /** A due monitor with rank r is published by one of the first ceil(r / (batchSize * maxBatches)) sweeps. */
  lemma DueMonitorIsPublished(k: Schedule, x: Id, batchSize: nat, maxBatches: nat, start: Time,
                              tables: seq<Table>, events: seq<Event>)
    requires Run(k, x, batchSize, maxBatches, start, tables, events)
    requires Waiting(tables[0], k, x, start)
    requires Sweeps(events) * (batchSize * maxBatches) >= |Ahead(tables[0], k, x)|
    ensures exists i :: 0 <= i < |events| && PublishedIn(k, x, events[i])
  {
    if forall i :: 0 <= i < |events| ==> !PublishedIn(k, x, events[i]) {
      RankFalls(k, x, batchSize, maxBatches, start, tables, events);
    }
  }
}
