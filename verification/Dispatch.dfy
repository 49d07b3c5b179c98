/** Spacing of scheduled publishes over every interleaving, and how many live messages there can be. */
module Dispatch {
  import opened Common
  import opened Monitors
  import opened Schemas
  import Api
  import opened Db
  import opened Claims
  import Worker
  import opened Scheduler
  import opened Safety

  /** The monitor's due time is the scheduler's: no update has taken it away without safely giving it back.
      Nothing but the scheduler ever moves a health due time. */
  predicate Tracked(s: State, k: Schedule, id: Id) {
    k.Health? || id !in s.rearmed
  }

  /** Where in the history the monitor's due time last became the scheduler's. */
  function Since(s: State, k: Schedule, id: Id): nat {
    if k.Activity? && id in s.since then s.since[id] else 0
  }

  /** The stored due time, if the monitor exists and has one. */
  function NextOf(s: State, k: Schedule, id: Id): Option<Time> {
    if id in s.tables.monitors then Next(k, s.tables.monitors[id]) else None
  }

  ghost predicate DistinctIds(queue: seq<Claim>) {
    forall i, j :: 0 <= i < j < |queue| ==> queue[i].id != queue[j].id
  }

  ghost predicate SweepsOk(c: Config, s: State) {
    forall sid :: sid in s.sweeps ==>
      s.sweeps[sid].now <= s.clock <= s.sweeps[sid].now + c.slack && DistinctIds(InHand(s.sweeps[sid]))
  }

  ghost predicate WaitingOk(s: State) {
    forall sid, item :: Waits(s, sid, item) ==>
      item.id < s.nextId && IntervalInRange(item.interval) && item.due <= NowOf(s, sid)
  }

  ghost predicate LogOk(c: Config, s: State) {
    && (forall e :: e in s.log ==>
          && e.id < s.nextId && IntervalInRange(e.interval)
          && e.due <= e.sweepNow <= e.at <= s.clock && e.at <= e.sweepNow + c.slack)
    && (forall id :: id in s.since ==> s.since[id] <= |s.log|)
  }

  /** While a claim waits, its row still carries the due time the claim gave it. */
  ghost predicate Held(s: State) {
    forall sid, item :: Waits(s, sid, item) && item.id in s.tables.monitors && Tracked(s, ScheduleOf(s, sid), item.id) ==>
      NextOf(s, ScheduleOf(s, sid), item.id) == Some(NowOf(s, sid) + Seconds(item.interval))
  }

  /** At most one sweep has a given monitor in hand. */
  ghost predicate Exclusive(s: State) {
    forall sid, item, sid', item' ::
      Waits(s, sid, item) && Waits(s, sid', item') && item.id == item'.id
      && ScheduleOf(s, sid) == ScheduleOf(s, sid') && Tracked(s, ScheduleOf(s, sid), item.id) ==>
        sid == sid'
  }

  ghost predicate RowsAfterLog(s: State) {
    forall e :: e in s.log && Tracked(s, e.schedule, e.id) && e.id in s.tables.monitors ==>
      NextOf(s, e.schedule, e.id).Some? && Until(e) <= NextOf(s, e.schedule, e.id).value
  }

  ghost predicate WaitingAfterLog(s: State) {
    forall e, sid, item :: e in s.log && Waits(s, sid, item) && e.id == item.id
                           && e.schedule == ScheduleOf(s, sid) && Tracked(s, e.schedule, e.id) ==>
      Until(e) <= item.due
  }

  /** Each publish of a monitor consumes a due time at least one recorded interval after the `now` of every
      earlier publish. In particular the sweeps' `now` values are that far apart and no due time is used twice. */
  ghost predicate Spaced(s: State) {
    forall a, b :: 0 <= a < b < |s.log| && s.log[a].id == s.log[b].id && s.log[a].schedule == s.log[b].schedule
                   && Tracked(s, s.log[a].schedule, s.log[a].id) && Since(s, s.log[a].schedule, s.log[a].id) <= b ==>
      Until(s.log[a]) <= s.log[b].due <= s.log[b].sweepNow
  }

  ghost predicate DispatchOk(c: Config, s: State) {
    && SweepsOk(c, s) && WaitingOk(s) && LogOk(c, s)
    && Held(s) && Exclusive(s) && RowsAfterLog(s) && WaitingAfterLog(s) && Spaced(s)
  }

  // ----- Steps that neither claim, publish nor recover -----

  ghost predicate SameSchedule(s: State, t: State) {
    && t.log == s.log && s.nextId <= t.nextId && s.clock <= t.clock && s.rearmed <= t.rearmed && t.since == s.since
    && SameWaiting(s, t)
    && DueTimesKept(s, t)
  }

  ghost predicate SameWaiting(s: State, t: State) {
    forall sid, item :: Waits(t, sid, item) ==>
      Waits(s, sid, item) && NowOf(t, sid) == NowOf(s, sid) && ScheduleOf(t, sid) == ScheduleOf(s, sid)
  }

  /** A due time that is there stays. */
  ghost predicate DueTimesKept(s: State, t: State) {
    forall id: Id, k :: id < s.nextId && Tracked(t, k, id) && id in t.tables.monitors ==>
      id in s.tables.monitors && (NextOf(t, k, id) == NextOf(s, k, id) || NextOf(s, k, id).None?)
  }

  lemma SameScheduleKeeps(c: Config, s: State, t: State)
    requires DispatchOk(c, s) && SameSchedule(s, t) && SweepsOk(c, t)
    ensures DispatchOk(c, t)
  {
    hide IntervalInRange, Next, Waits, NowOf, ScheduleOf, SweepsOk;
  }

  // ----- Claiming -----

  /** What a claim by sweep `sid` changes. */
  ghost predicate ClaimStep(s: State, sid: nat, batch: seq<Claim>, t: State) {
    var k, now := ScheduleOf(s, sid), NowOf(s, sid);
    && t.log == s.log && t.nextId == s.nextId && t.rearmed == s.rearmed && t.since == s.since && t.clock == s.clock
    && now <= s.clock
    && t.tables.monitors.Keys == s.tables.monitors.Keys
    && BatchRows(s, k, now, batch, t)
    && OtherRows(s, k, ClaimIds(batch), t)
    && (forall sid', item :: Waits(t, sid', item) ==>
          && NowOf(t, sid') == NowOf(s, sid') && ScheduleOf(t, sid') == ScheduleOf(s, sid')
          && (if sid' == sid then item in batch else Waits(s, sid', item)))
  }

  ghost predicate BatchRows(s: State, k: Schedule, now: Time, batch: seq<Claim>, t: State) {
    forall item :: item in batch ==>
      && item.id < s.nextId && IntervalInRange(item.interval) && item.due <= now
      && NextOf(s, k, item.id) == Some(item.due)
      && NextOf(t, k, item.id) == Some(now + Seconds(item.interval))
  }

  ghost predicate OtherRows(s: State, k: Schedule, ids: set<Id>, t: State) {
    forall id: Id, k' :: k' != k || id !in ids ==> NextOf(t, k', id) == NextOf(s, k', id)
  }

  /** While a sweep still holds a monitor, its due time lies in the future of every sweep's `now`. */
  lemma HeldIsNotDue(c: Config, s: State, sid: nat, item: Claim, now: Time)
    requires c.slack < Seconds(MIN_INTERVAL)
    requires DispatchOk(c, s) && Waits(s, sid, item) && now <= s.clock
    requires item.id in s.tables.monitors && Tracked(s, ScheduleOf(s, sid), item.id)
    ensures NextOf(s, ScheduleOf(s, sid), item.id).Some? && now < NextOf(s, ScheduleOf(s, sid), item.id).value
  {
  }

  lemma ClaimStepKeeps(c: Config, s: State, sid: nat, batch: seq<Claim>, t: State)
    requires c.slack < Seconds(MIN_INTERVAL)
    requires DispatchOk(c, s) && ClaimStep(s, sid, batch, t) && SweepsOk(c, t)
    ensures DispatchOk(c, t)
  {
    hide Next, Waits, NowOf, ScheduleOf, SweepsOk;
    var k := ScheduleOf(s, sid);
    forall sid', item, other | sid' != sid && Waits(s, sid', item) && ScheduleOf(s, sid') == k
                               && Tracked(s, k, item.id) && other in batch
      ensures item.id != other.id
    {
      if item.id == other.id {
        HeldIsNotDue(c, s, sid', item, NowOf(s, sid));
      }
    }
  }

  lemma {:induction false} BatchOfValid(t: Table, k: Schedule, now: Time, ids: seq<Id>)
    requires TableOk(t) && SetOf(ids) <= DueIds(t, k, now)
    ensures |BatchOf(t, k, ids)| == |ids|
    ensures forall i :: 0 <= i < |ids| ==>
              var item := BatchOf(t, k, ids)[i];
              && item.id == ids[i] && ids[i] in t && Interval(k, t[ids[i]]) == Some(item.interval)
              && IntervalInRange(item.interval)
              && Next(k, t[ids[i]]) == Some(item.due) && item.due <= now
  {
    if ids != [] {
      var before, last := ids[..|ids| - 1], ids[|ids| - 1];
      assert forall i :: 0 <= i < |before| ==> ids[i] in SetOf(ids);
      assert last in SetOf(ids);
      BatchOfValid(t, k, now, before);
      DueRowsAreClaimable(t, k, now, last);
    }
  }

  /** In every reachable state each selected row is advanced and published: the keep-alive half never skips one. */
  lemma NothingSkipped(c: Config, s: State, sid: nat, locked: set<Id>, ids: seq<Id>)
    requires StoreOk(c, s) && Enabled(c, s, ClaimBatch(sid, locked, ids))
    ensures var sw := s.sweeps[sid];
            && SetOf(ids) <= DueIds(s.tables.monitors, sw.schedule, sw.now)
            && |BatchOf(s.tables.monitors, sw.schedule, ids)| == |ids|
            && ClaimIds(BatchOf(s.tables.monitors, sw.schedule, ids)) == SetOf(ids)
            && DistinctIds(BatchOf(s.tables.monitors, sw.schedule, ids))
  {
    var sw := s.sweeps[sid];
    BatchOfValid(s.tables.monitors, sw.schedule, sw.now, ids);
    var batch := BatchOf(s.tables.monitors, sw.schedule, ids);
    assert forall i :: 0 <= i < |ids| ==> batch[i] in batch;
  }

  lemma AdvancedNext(t: Table, k: Schedule, ids: set<Id>, now: Time, id: Id, k': Schedule)
    requires id in t
    ensures k' != k || id !in ids ==> Next(k', Advance(t, k, ids, now)[id]) == Next(k', t[id])
    ensures id in ids && Interval(k, t[id]).Some? ==>
              Next(k, Advance(t, k, ids, now)[id]) == Some(now + Seconds(Interval(k, t[id]).value))
    ensures k' != k || id !in ids ==> Next(k', Reset(t, k, ids, now)[id]) == Next(k', t[id])
    ensures id in ids ==> Next(k, Reset(t, k, ids, now)[id]) == Some(now)
  {
  }

  lemma AdvanceKeys(t: Table, k: Schedule, ids: set<Id>, now: Time)
    ensures Advance(t, k, ids, now).Keys == t.Keys && Reset(t, k, ids, now).Keys == t.Keys
  {
  }

  lemma ClaimedRows(s: State, k: Schedule, now: Time, ids: seq<Id>, batch: seq<Claim>, t: State)
    requires TableOk(s.tables.monitors) && (forall id :: id in s.tables.monitors ==> id < s.nextId)
    requires SetOf(ids) <= DueIds(s.tables.monitors, k, now) && batch == BatchOf(s.tables.monitors, k, ids)
    requires t.tables.monitors == Advance(s.tables.monitors, k, ClaimIds(batch), now)
    ensures BatchRows(s, k, now, batch, t) && OtherRows(s, k, ClaimIds(batch), t)
  {
    BatchOfValid(s.tables.monitors, k, now, ids);
    AdvanceKeys(s.tables.monitors, k, ClaimIds(batch), now);
    hide TableOk, DueIds, BatchOf, Next, Interval, Advance;
    forall item | item in batch
      ensures item.id < s.nextId && IntervalInRange(item.interval) && item.due <= now
      ensures NextOf(s, k, item.id) == Some(item.due) && NextOf(t, k, item.id) == Some(now + Seconds(item.interval))
    {
      var i :| 0 <= i < |batch| && batch[i] == item;
      AdvancedNext(s.tables.monitors, k, ClaimIds(batch), now, item.id, k);
    }
    forall id: Id, k' | k' != k || id !in ClaimIds(batch)
      ensures NextOf(t, k', id) == NextOf(s, k', id)
    {
      if id in s.tables.monitors {
        AdvancedNext(s.tables.monitors, k, ClaimIds(batch), now, id, k');
      }
    }
  }

  /** Replacing one sweep's record changes what that sweep holds and nothing else. */
  lemma ReplaceSweep(c: Config, s: State, sid: nat, run: SweepRun, t: State)
    requires SweepsOk(c, s) && sid in s.sweeps && t.clock == s.clock && t.sweeps == s.sweeps[sid := run]
    requires InHand(run) != [] ==> run.schedule == s.sweeps[sid].schedule
    requires run.now == s.sweeps[sid].now && DistinctIds(InHand(run))
    ensures SweepsOk(c, t)
    ensures forall sid', item :: Waits(t, sid', item) ==>
              && NowOf(t, sid') == NowOf(s, sid') && ScheduleOf(t, sid') == ScheduleOf(s, sid')
              && (if sid' == sid then item in InHand(run) else Waits(s, sid', item))
  {
    hide DistinctIds;
  }

  lemma ClaimKeeps(c: Config, s: State, sid: nat, locked: set<Id>, ids: seq<Id>)
    requires c.slack < Seconds(MIN_INTERVAL)
    requires StoreOk(c, s) && DispatchOk(c, s) && Enabled(c, s, ClaimBatch(sid, locked, ids)) && ids != []
    ensures DispatchOk(c, ApplyClaim(c, s, sid, ids))
  {
    hide StoreOk, DispatchOk, ClaimStep, SweepsOk, ApplyClaim, EarliestFirst;
    var t := ApplyClaim(c, s, sid, ids);
    var batch := ClaimIsStep(c, s, sid, locked, ids, t);
    ClaimStepKeeps(c, s, sid, batch, t);
  }

  lemma ClaimIsStep(c: Config, s: State, sid: nat, locked: set<Id>, ids: seq<Id>, t: State) returns (batch: seq<Claim>)
    requires StoreOk(c, s) && DispatchOk(c, s) && Enabled(c, s, ClaimBatch(sid, locked, ids)) && ids != []
    requires t == ApplyClaim(c, s, sid, ids)
    ensures ClaimStep(s, sid, batch, t) && SweepsOk(c, t)
  {
    hide TableOk, DueIds, BatchOf, Advance, ClaimIds, BatchRows, OtherRows, EarliestFirst, ReferencesHold,
      WaitingOk, LogOk, Held, Exclusive, RowsAfterLog, WaitingAfterLog, Spaced, DistinctIds;
    var sw := s.sweeps[sid];
    batch := BatchOf(s.tables.monitors, sw.schedule, ids);
    NothingSkipped(c, s, sid, locked, ids);
    ReplaceSweep(c, s, sid, t.sweeps[sid], t);
    ClaimedRows(s, sw.schedule, sw.now, ids, batch, t);
    AdvanceKeys(s.tables.monitors, sw.schedule, ClaimIds(batch), sw.now);
  }

  // ----- Publishing -----

  /** What a delivered publish of `item` by sweep `sid` changes. */
  ghost predicate PublishStep(c: Config, s: State, sid: nat, item: Claim, t: State) {
    var k, now := ScheduleOf(s, sid), NowOf(s, sid);
    && t.log == s.log + [Publish(k, item.id, now, item.interval, item.due, s.clock)]
    && t.nextId == s.nextId && t.rearmed == s.rearmed && t.since == s.since && t.clock == s.clock && t.tables == s.tables
    && Waits(s, sid, item) && now <= s.clock <= now + c.slack
    && (forall sid', other :: Waits(t, sid', other) ==>
          && Waits(s, sid', other) && (sid' == sid ==> other.id != item.id)
          && NowOf(t, sid') == NowOf(s, sid') && ScheduleOf(t, sid') == ScheduleOf(s, sid'))
  }

  lemma PublishStepKeeps(c: Config, s: State, sid: nat, item: Claim, t: State)
    requires DispatchOk(c, s) && PublishStep(c, s, sid, item, t) && SweepsOk(c, t)
    ensures DispatchOk(c, t)
  {
    hide Next, Waits, NowOf, ScheduleOf, SweepsOk, IntervalInRange;
    assert forall k, id :: NextOf(t, k, id) == NextOf(s, k, id);
    forall a, b | 0 <= a < b < |t.log| && t.log[a].id == t.log[b].id && t.log[a].schedule == t.log[b].schedule
                  && Tracked(t, t.log[a].schedule, t.log[a].id) && Since(t, t.log[a].schedule, t.log[a].id) <= b
      ensures Until(t.log[a]) <= t.log[b].due <= t.log[b].sweepNow
    {
      assert t.log[a] in s.log;
    }
  }

  lemma PublishKeeps(c: Config, s: State, sid: nat, delivered: bool)
    requires DispatchOk(c, s) && Enabled(c, s, PublishNext(sid, delivered))
    ensures DispatchOk(c, ApplyPublish(c, s, sid, delivered))
  {
    hide WaitingOk, LogOk, Held, Exclusive, RowsAfterLog, WaitingAfterLog, Spaced;
    var sw := s.sweeps[sid];
    var item, rest := sw.stage.queue[0], sw.stage.queue[1..];
    var t := ApplyPublish(c, s, sid, delivered);
    assert forall other :: other in rest ==> other in sw.stage.queue;
    if delivered {
      PublishedSweep(c, s, sid, item, rest, t);
      assert Waits(s, sid, item) && NowOf(s, sid) == sw.now && ScheduleOf(s, sid) == sw.schedule;
      hide Waits, SweepsOk;
      PublishStepKeeps(c, s, sid, item, t);
    } else {
      ReplaceSweep(c, s, sid, t.sweeps[sid], t);
      SameScheduleKeeps(c, s, t);
    }
  }

  lemma PublishedSweep(c: Config, s: State, sid: nat, item: Claim, rest: seq<Claim>, t: State)
    requires SweepsOk(c, s) && sid in s.sweeps && InHand(s.sweeps[sid]) == [item] + rest && t.clock == s.clock
    requires var sw := s.sweeps[sid];
             t.sweeps == Put(s.sweeps, sid, if rest == [] then EndRound(c, sw) else Some(sw.(stage := Publishing(rest))))
    ensures SweepsOk(c, t)
    ensures forall sid', other :: Waits(t, sid', other) ==>
              && Waits(s, sid', other) && (sid' == sid ==> other.id != item.id)
              && NowOf(t, sid') == NowOf(s, sid') && ScheduleOf(t, sid') == ScheduleOf(s, sid')
  {
    hide DistinctIds;
    TailIsDistinct(item, rest);
    if sid in t.sweeps {
      assert InHand(t.sweeps[sid]) == rest;
    }
  }

  lemma TailIsDistinct(item: Claim, rest: seq<Claim>)
    requires DistinctIds([item] + rest)
    ensures DistinctIds(rest)
    ensures forall other :: other in rest ==> other in [item] + rest && other.id != item.id
  {
    var queue := [item] + rest;
    assert forall i :: 0 <= i < |rest| ==> queue[i + 1] == rest[i];
    forall other | other in rest
      ensures other in queue && other.id != item.id
    {
      var i :| 0 <= i < |rest| && rest[i] == other;
      assert queue[0] == item && queue[i + 1] == other;
    }
  }

  // ----- Recovering -----

  /** What a committed recovery by sweep `sid` changes. */
  ghost predicate RecoverStep(s: State, sid: nat, t: State) {
    var k, now := ScheduleOf(s, sid), NowOf(s, sid);
    && t.log == s.log && t.nextId == s.nextId && t.rearmed == s.rearmed && t.since == s.since && t.clock == s.clock
    && t.tables.monitors.Keys == s.tables.monitors.Keys
    && (forall sid', item :: Waits(t, sid', item) ==>
          && Waits(s, sid', item) && sid' != sid
          && NowOf(t, sid') == NowOf(s, sid') && ScheduleOf(t, sid') == ScheduleOf(s, sid'))
    && (forall id: Id, k' ::
          || NextOf(t, k', id) == NextOf(s, k', id)
          || (k' == k && NextOf(t, k', id) == Some(now) && exists item :: Waits(s, sid, item) && item.id == id))
  }

  lemma RecoverStepKeeps(c: Config, s: State, sid: nat, t: State)
    requires DispatchOk(c, s) && RecoverStep(s, sid, t) && SweepsOk(c, t)
    ensures DispatchOk(c, t)
  {
    hide Next, Waits, NowOf, ScheduleOf, SweepsOk;
  }

  /** Removing a sweep, or replacing it by one that holds nothing, takes its claims out of hand. */
  lemma ReleaseSweep(c: Config, s: State, sid: nat, run: Option<SweepRun>, t: State)
    requires SweepsOk(c, s) && sid in s.sweeps && t.clock == s.clock && t.sweeps == Put(s.sweeps, sid, run)
    requires run.Some? ==> run.value.now == s.sweeps[sid].now && InHand(run.value) == []
    ensures SweepsOk(c, t)
    ensures forall sid', item :: Waits(t, sid', item) ==>
              && Waits(s, sid', item) && sid' != sid
              && NowOf(t, sid') == NowOf(s, sid') && ScheduleOf(t, sid') == ScheduleOf(s, sid')
  {
    hide DistinctIds;
    if run.Some? {
      assert DistinctIds([]) by {
        DistinctNone();
      }
    }
  }

  lemma DistinctNone()
    ensures DistinctIds([])
  {
  }

  lemma RecoverKeeps(c: Config, s: State, sid: nat, committed: bool)
    requires DispatchOk(c, s) && Enabled(c, s, RecoverBatch(sid, committed))
    ensures DispatchOk(c, ApplyRecover(c, s, sid, committed))
  {
    hide WaitingOk, LogOk, Held, Exclusive, RowsAfterLog, WaitingAfterLog, Spaced;
    var sw := s.sweeps[sid];
    var t := ApplyRecover(c, s, sid, committed);
    ReleaseSweep(c, s, sid, EndHalf(c, sw), t);
    if committed {
      RecoveredRows(s, sw.schedule, sw.now, sid, t);
      AdvanceKeys(s.tables.monitors, sw.schedule, ClaimIds(sw.stage.queue), sw.now);
      assert NowOf(s, sid) == sw.now && ScheduleOf(s, sid) == sw.schedule;
      hide Waits, SweepsOk, NowOf, ScheduleOf;
      RecoverStepKeeps(c, s, sid, t);
    } else {
      hide Waits, SweepsOk, NowOf, ScheduleOf;
      SameScheduleKeeps(c, s, t);
    }
  }

  lemma RecoveredRows(s: State, k: Schedule, now: Time, sid: nat, t: State)
    requires sid in s.sweeps && s.sweeps[sid].stage.Recovering?
    requires t.tables.monitors == Reset(s.tables.monitors, k, ClaimIds(s.sweeps[sid].stage.queue), now)
    ensures forall id: Id, k' ::
              || NextOf(t, k', id) == NextOf(s, k', id)
              || (k' == k && NextOf(t, k', id) == Some(now) && exists item :: Waits(s, sid, item) && item.id == id)
  {
    var ids := ClaimIds(s.sweeps[sid].stage.queue);
    AdvanceKeys(s.tables.monitors, k, ids, now);
    hide Reset, Next;
    forall id: Id, k'
      ensures || NextOf(t, k', id) == NextOf(s, k', id)
              || (k' == k && NextOf(t, k', id) == Some(now) && exists item :: Waits(s, sid, item) && item.id == id)
    {
      if id in s.tables.monitors {
        AdvancedNext(s.tables.monitors, k, ids, now, id, k');
        if id in ids {
          var item :| item in s.sweeps[sid].stage.queue && item.id == id;
          assert Waits(s, sid, item);
        }
      }
    }
  }

  // ----- The other steps -----

  /** Starting, ending and waiting: the tables are as they were. */
  lemma SweepSetIsQuiet(c: Config, s: State, e: Event)
    requires DispatchOk(c, s) && Enabled(c, s, e)
    requires e.Tick? || e.StartSweep? || e.Crash?
    requires c.slack >= 0
    ensures DispatchOk(c, Apply(c, s, e))
  {
    hide WaitingOk, LogOk, Held, Exclusive, RowsAfterLog, WaitingAfterLog, Spaced, DistinctIds;
    DistinctNone();
    var t := Apply(c, s, e);
    assert SweepsOk(c, t);
    SameScheduleKeeps(c, s, t);
  }

  /** Steps that leave the sweeps alone, keep every stored due time and add no log entry. */
  lemma StoreStepIsQuiet(c: Config, s: State, t: State)
    requires DispatchOk(c, s) && t.sweeps == s.sweeps && t.clock == s.clock && t.log == s.log
    requires s.nextId <= t.nextId && s.rearmed <= t.rearmed && t.since == s.since && DueTimesKept(s, t)
    ensures DispatchOk(c, t)
  {
    hide WaitingOk, LogOk, Held, Exclusive, RowsAfterLog, WaitingAfterLog, Spaced, DistinctIds, NextOf;
    assert SweepsOk(c, t);
    SameScheduleKeeps(c, s, t);
  }

  lemma QuietStepKeeps(c: Config, s: State, e: Event)
    requires ValidConfig(c) && StoreOk(c, s) && DispatchOk(c, s) && Enabled(c, s, e)
    requires !e.ClaimBatch? && !e.PublishNext? && !e.RecoverBatch?
    ensures DispatchOk(c, Apply(c, s, e))
  {
    hide StoreOk, DispatchOk, Worker.LateEffect, ApplyUpdate, ResultsOfOthers, Api.NewRow;
    var t := Apply(c, s, e);
    match e
    case Update(id, u) => UpdateIsQuiet(c, s, id, u);
    case Execute(message, maxRetries, read, a) =>
      var p := s.log[message];
      ExecutionIsQuiet(c, s, Worker.Task(p.id, CheckOf(p.schedule), s.broker[message], maxRetries), read, a, t);
    case ExecuteOnDemand(id, retries, maxRetries, read, a) =>
      ExecutionIsQuiet(c, s, Worker.Task(id, HealthCheck, retries, maxRetries), read, a, t);
    case CountCreate(rid, p) => StoreStepIsQuiet(c, s, t);
    case CommitCreate(rid) => StoreStepIsQuiet(c, s, t);
    case AbandonCreate(rid) => StoreStepIsQuiet(c, s, t);
    case Delete(id) => StoreStepIsQuiet(c, s, t);
    case Discard(message) => StoreStepIsQuiet(c, s, t);
    case _ => SweepSetIsQuiet(c, s, e);
  }

  lemma UpdateIsQuiet(c: Config, s: State, id: Id, u: MonitorUpdate)
    requires DispatchOk(c, s)
    ensures DispatchOk(c, ApplyUpdate(s, id, u))
  {
    hide DispatchOk, Api.Accepts, SafeToArm;
    if id in s.rearmed && Arms(s, id, u) && SafeToArm(s, id) {
      ArmedSafely(c, s, id, ApplyUpdate(s, id, u));
    } else {
      StoreStepIsQuiet(c, s, ApplyUpdate(s, id, u));
    }
  }

  /** A safe update hands the monitor back to the scheduler: from here on its publishes are spaced. */
  lemma ArmedSafely(c: Config, s: State, id: Id, t: State)
    requires DispatchOk(c, s) && SafeToArm(s, id)
    requires t.sweeps == s.sweeps && t.clock == s.clock && t.log == s.log && t.nextId == s.nextId
    requires t.rearmed == s.rearmed - {id} && t.since == s.since[id := |s.log|]
    requires t.tables.monitors.Keys == s.tables.monitors.Keys && NextOf(t, Activity, id) == Some(s.clock)
    requires forall other: Id, k: Schedule :: (k.Health? || other != id) ==> NextOf(t, k, other) == NextOf(s, k, other)
    ensures DispatchOk(c, t)
  {
    hide Next, NextOf, InHand, DistinctIds;
    assert SweepsOk(c, t);
    hide SweepsOk, IntervalInRange;
    assert forall sid, item :: Waits(t, sid, item) == Waits(s, sid, item);
    assert forall sid :: NowOf(t, sid) == NowOf(s, sid) && ScheduleOf(t, sid) == ScheduleOf(s, sid);
    hide Waits, NowOf, ScheduleOf;
  }

  lemma ExecutionIsQuiet(c: Config, s: State, task: Worker.Task, read: Tables, a: Worker.Attempt, t: State)
    requires DispatchOk(c, s)
    requires t.tables == Worker.LateEffect(read, s.tables, task, a).0
    requires t == s.(tables := t.tables, broker := t.broker)
    ensures DispatchOk(c, t)
  {
    Worker.EffectOnRows(read, s.tables, task, a);
    hide DispatchOk, Worker.LateEffect;
    StoreStepIsQuiet(c, s, t);
  }

  lemma StepKeepsDispatch(c: Config, s: State, e: Event)
    requires ValidConfig(c) && c.slack < Seconds(MIN_INTERVAL)
    requires StoreOk(c, s) && DispatchOk(c, s) && Enabled(c, s, e)
    ensures DispatchOk(c, Apply(c, s, e))
  {
    hide StoreOk, DispatchOk;
    match e
    case ClaimBatch(sid, locked, ids) =>
      if ids == [] {
        EmptyClaimKeeps(c, s, sid, locked);
      } else {
        ClaimKeeps(c, s, sid, locked, ids);
      }
    case PublishNext(sid, delivered) => PublishKeeps(c, s, sid, delivered);
    case RecoverBatch(sid, committed) => RecoverKeeps(c, s, sid, committed);
    case _ => QuietStepKeeps(c, s, e);
  }

  lemma EmptyClaimKeeps(c: Config, s: State, sid: nat, locked: set<Id>)
    requires DispatchOk(c, s) && Enabled(c, s, ClaimBatch(sid, locked, []))
    ensures DispatchOk(c, ApplyClaim(c, s, sid, []))
  {
    hide WaitingOk, LogOk, Held, Exclusive, RowsAfterLog, WaitingAfterLog, Spaced, DistinctIds;
    var t := ApplyClaim(c, s, sid, []);
    ReleaseSweep(c, s, sid, EndHalf(c, s.sweeps[sid]), t);
    SameScheduleKeeps(c, s, t);
  }

  // ----- Over whole runs -----

  lemma {:induction false} ReachableOk(c: Config, es: seq<Event>)
    requires ValidConfig(c) && Legal(c, es)
    ensures StoreOk(c, After(c, es))
    ensures c.slack < Seconds(MIN_INTERVAL) ==> DispatchOk(c, After(c, es))
    decreases |es|
  {
    if es != [] {
      hide StoreOk, DispatchOk;
      var before, last := es[..|es| - 1], es[|es| - 1];
      ReachableOk(c, before);
      StepKeepsStore(c, After(c, before), last);
      if c.slack < Seconds(MIN_INTERVAL) {
        StepKeepsDispatch(c, After(c, before), last);
      }
    }
  }
}
