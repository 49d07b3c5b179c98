/** Building runs of the step machine, event by event. */
module Runs {
  import opened Common
  import opened Monitors
  import opened Schemas
  import Api
  import opened Db
  import opened Claims
  import opened Scheduler

  // ----- One event -----

  lemma Do(c: Config, es: seq<Event>, e: Event) returns (more: seq<Event>)
    requires Legal(c, es) && Enabled(c, After(c, es), e)
    ensures more == es + [e] && Legal(c, more) && After(c, more) == Apply(c, After(c, es), e)
  {
    more := es + [e];
    assert more[..|more| - 1] == es;
  }

  lemma DoTick(c: Config, es: seq<Event>, clock: Time) returns (more: seq<Event>)
    requires Legal(c, es) && Enabled(c, After(c, es), Tick(clock))
    ensures more == es + [Tick(clock)] && Legal(c, more) && After(c, more) == After(c, es).(clock := clock)
  {
    more := Do(c, es, Tick(clock));
  }

  lemma DoStart(c: Config, es: seq<Event>, sid: nat) returns (more: seq<Event>)
    requires Legal(c, es) && sid !in After(c, es).sweeps
    ensures more == es + [StartSweep(sid)] && Legal(c, more)
    ensures var s := After(c, es);
            After(c, more) == s.(sweeps := s.sweeps[sid := SweepRun(s.clock, Health, c.maxBatches, Claiming)])
  {
    more := Do(c, es, StartSweep(sid));
  }

  lemma DoCrash(c: Config, es: seq<Event>, sid: nat) returns (more: seq<Event>)
    requires Legal(c, es) && sid in After(c, es).sweeps
    ensures more == es + [Crash(sid)] && Legal(c, more)
    ensures After(c, more) == After(c, es).(sweeps := After(c, es).sweeps - {sid})
  {
    more := Do(c, es, Crash(sid));
  }

  lemma DoPublish(c: Config, es: seq<Event>, sid: nat, delivered: bool) returns (more: seq<Event>)
    requires Legal(c, es) && Enabled(c, After(c, es), PublishNext(sid, delivered))
    ensures more == es + [PublishNext(sid, delivered)]
    ensures Legal(c, more) && After(c, more) == ApplyPublish(c, After(c, es), sid, delivered)
  {
    more := Do(c, es, PublishNext(sid, delivered));
  }

  lemma DoRecover(c: Config, es: seq<Event>, sid: nat, committed: bool) returns (more: seq<Event>)
    requires Legal(c, es) && Enabled(c, After(c, es), RecoverBatch(sid, committed))
    ensures more == es + [RecoverBatch(sid, committed)]
    ensures Legal(c, more) && After(c, more) == ApplyRecover(c, After(c, es), sid, committed)
  {
    more := Do(c, es, RecoverBatch(sid, committed));
  }

  lemma DoUpdate(c: Config, es: seq<Event>, id: Id, u: MonitorUpdate) returns (more: seq<Event>)
    requires Legal(c, es)
    ensures more == es + [Update(id, u)]
    ensures Legal(c, more) && After(c, more) == ApplyUpdate(After(c, es), id, u)
  {
    more := Do(c, es, Update(id, u));
  }

  // ----- Claims among rows that other transactions have locked -----

  /** All other due rows are locked, so a claim takes exactly one monitor. */
  lemma ClaimAlone(c: Config, es: seq<Event>, sid: nat, id: Id) returns (more: seq<Event>)
    requires ValidConfig(c) && Legal(c, es)
    requires var s := After(c, es);
             && sid in s.sweeps && s.sweeps[sid].stage.Claiming? && s.sweeps[sid].left > 0
             && id in s.tables.monitors && RowOk(s.tables.monitors[id])
             && IsDue(s.sweeps[sid].schedule, s.tables.monitors[id], s.sweeps[sid].now)
    ensures Legal(c, more) && |more| == |es| + 1 && es <= more && more[|es|].ClaimBatch?
    ensures var s, sw, row := After(c, es), After(c, es).sweeps[sid], After(c, es).tables.monitors[id];
            Interval(sw.schedule, row).Some? &&
            var item := Claim(id, Interval(sw.schedule, row).value, DueAt(sw.schedule, row));
            After(c, more) == s.(
              tables := s.tables.(monitors := s.tables.monitors[id := Advanced(sw.schedule, row, sw.now)]),
              sweeps := s.sweeps[sid := sw.(left := sw.left - 1, stage := Publishing([item]))])
  {
    hide Legal, After;
    var s := After(c, es);
    var sw, t := s.sweeps[sid], s.tables.monitors;
    var due := DueIds(t, sw.schedule, sw.now);
    assert due - (due - {id}) == {id};
    FirstOfOne(t, sw.schedule, c.batchSize, id);
    more := Do(c, es, ClaimBatch(sid, due - {id}, [id]));
    BatchOfOne(t, sw.schedule, id, sw.now);
  }

  lemma FirstOfOne(t: Table, k: Schedule, limit: nat, id: Id)
    requires limit > 0
    ensures EarliestFirst(t, k, {id}, limit, [id])
  {
    assert SetOf([id]) == {id};
  }

  lemma BatchOfOne(t: Table, k: Schedule, id: Id, now: Time)
    requires id in t && RowOk(t[id]) && IsDue(k, t[id], now)
    ensures Interval(k, t[id]).Some?
    ensures BatchOf(t, k, [id]) == [Claim(id, Interval(k, t[id]).value, DueAt(k, t[id]))]
    ensures Advance(t, k, ClaimIds(BatchOf(t, k, [id])), now) == t[id := Advanced(k, t[id], now)]
  {
    assert [id][..0] == [];
    assert BatchOf(t, k, []) == [];
    assert ClaimIds(BatchOf(t, k, [id])) == {id};
  }

  /** A half that finds every due row locked ends at once. */
  lemma ClaimNone(c: Config, es: seq<Event>, sid: nat) returns (more: seq<Event>)
    requires Legal(c, es)
    requires var s := After(c, es); sid in s.sweeps && s.sweeps[sid].stage.Claiming? && s.sweeps[sid].left > 0
    ensures Legal(c, more) && |more| == |es| + 1 && es <= more && more[|es|].ClaimBatch?
    ensures After(c, more) == After(c, es).(sweeps := Put(After(c, es).sweeps, sid, EndHalf(c, After(c, es).sweeps[sid])))
  {
    var s := After(c, es);
    var sw := s.sweeps[sid];
    var due := DueIds(s.tables.monitors, sw.schedule, sw.now);
    assert due - due == {};
    assert SetOf<Id>([]) == {};
    assert EarliestFirst(s.tables.monitors, sw.schedule, {}, c.batchSize, []);
    more := Do(c, es, ClaimBatch(sid, due, []));
  }

  // ----- A sweep that dispatches one monitor -----

  lemma {:induction false} HasUnused(s: set<nat>) returns (unused: nat)
    ensures forall x :: x in s ==> x < unused
  {
    unused := 0;
    if s != {} {
      var some :| some in s;
      unused := HasUnused(s - {some});
      assert forall x :: x in s ==> x == some || x in s - {some};
      if unused <= some {
        unused := some + 1;
      }
    }
  }

  /** `more` continues `es` without an update. */
  ghost predicate ContinuesQuietly(es: seq<Event>, more: seq<Event>) {
    es <= more && forall i :: |es| <= i < |more| ==> !more[i].Update?
  }

  lemma Quietly(es: seq<Event>, e: Event)
    requires !e.Update?
    ensures ContinuesQuietly(es, es + [e])
  {
  }

  lemma MoreQuietly(es: seq<Event>, mid: seq<Event>, e: Event)
    requires ContinuesQuietly(es, mid) && !e.Update?
    ensures ContinuesQuietly(es, mid + [e])
  {
  }

  /** What one more publish of a due monitor leaves, by a sweep that started just now. */
  function Dispatched(s: State, k: Schedule, id: Id): State
    requires id in s.tables.monitors && Interval(k, s.tables.monitors[id]).Some?
  {
    var row := s.tables.monitors[id];
    s.(log := s.log + [Publish(k, id, s.clock, Interval(k, row).value, DueAt(k, row), s.clock)],
       broker := s.broker[|s.log| := 0],
       tables := s.tables.(monitors := s.tables.monitors[id := Advanced(k, row, s.clock)]))
  }

  /** A monitor that is due can be dispatched here and now, by a sweep that then dies. */
  lemma DispatchNow(c: Config, es: seq<Event>, k: Schedule, id: Id) returns (more: seq<Event>)
    requires ValidConfig(c) && Legal(c, es)
    requires var s := After(c, es);
             id in s.tables.monitors && RowOk(s.tables.monitors[id]) && IsDue(k, s.tables.monitors[id], s.clock)
    ensures Legal(c, more) && ContinuesQuietly(es, more)
    ensures Interval(k, After(c, es).tables.monitors[id]).Some?
    ensures After(c, more) == Dispatched(After(c, es), k, id)
  {
    hide Legal, After, Apply, Enabled, RowOk, IsDue, Advanced;
    var s := After(c, es);
    var sid := HasUnused(s.sweeps.Keys);
    var started := ReachHalf(c, es, sid, k);
    var claimed := ClaimAlone(c, started, sid, id);
    hide DueAt;
    var run := After(c, claimed).sweeps[sid];
    assert run.stage.queue[1..] == [];
    more := PublishOnly(c, claimed, sid);
    assert s.sweeps == After(c, more).sweeps;
  }

  /** A sweep that starts now, in the half for `k`. */
  lemma ReachHalf(c: Config, es: seq<Event>, sid: nat, k: Schedule) returns (more: seq<Event>)
    requires ValidConfig(c) && Legal(c, es) && sid !in After(c, es).sweeps
    ensures Legal(c, more) && ContinuesQuietly(es, more)
    ensures var s := After(c, es); After(c, more) == s.(sweeps := s.sweeps[sid := SweepRun(s.clock, k, c.maxBatches, Claiming)])
  {
    hide Legal, After, Apply, Enabled;
    more := DoStart(c, es, sid);
    if k.Activity? {
      more := ClaimNone(c, more, sid);
    }
  }

  /** The sweep publishes the one claim it holds, and dies if it has not ended. */
  lemma PublishOnly(c: Config, es: seq<Event>, sid: nat) returns (more: seq<Event>)
    requires Legal(c, es) && sid in After(c, es).sweeps
    requires After(c, es).sweeps[sid].stage.Publishing? && |InHand(After(c, es).sweeps[sid])| == 1
    ensures Legal(c, more) && ContinuesQuietly(es, more)
    ensures var s, sw := After(c, es), After(c, es).sweeps[sid];
            var item := InHand(sw)[0];
            After(c, more) == s.(
              log := s.log + [Publish(sw.schedule, item.id, sw.now, item.interval, item.due, s.clock)],
              broker := s.broker[|s.log| := 0],
              sweeps := s.sweeps - {sid})
  {
    hide *;
    var s := After(c, es);
    PublishLastClaim(c, s, sid);
    more := DoPublish(c, es, sid, true);
    Quietly(es, PublishNext(sid, true));
    if sid in After(c, more).sweeps {
      var published := more;
      more := DoCrash(c, published, sid);
      MoreQuietly(es, published, Crash(sid));
    }
  }

  lemma PublishLastClaim(c: Config, s: State, sid: nat)
    requires sid in s.sweeps && s.sweeps[sid].stage.Publishing? && |InHand(s.sweeps[sid])| == 1
    ensures Enabled(c, s, PublishNext(sid, true))
    ensures var sw, t := s.sweeps[sid], ApplyPublish(c, s, sid, true);
            var item := InHand(sw)[0];
            && t.sweeps - {sid} == s.sweeps - {sid}
            && (sid !in t.sweeps ==> t.sweeps == s.sweeps - {sid})
            && t == s.(
              log := s.log + [Publish(sw.schedule, item.id, sw.now, item.interval, item.due, s.clock)],
              broker := s.broker[|s.log| := 0],
              sweeps := t.sweeps)
  {
  }

  // ----- A machine with one monitor -----

  const MINIMAL := MonitorCreate("m", "u", None, 15, Monitor, false, None, None)

  /** A run that stores one monitor at instant 0. */
  lemma OneMonitor(c: Config, p: MonitorCreate) returns (es: seq<Event>)
    requires ValidConfig(c) && ValidateCreate(p).None?
    ensures Legal(c, es)
    ensures After(c, es) == Start.(nextId := 1, tables := Tables(map[0 := Api.NewRow(p, 0)], []))
  {
    es := [];
    es := Do(c, es, CountCreate(0, p));
    assert After(c, es) == Start.(creating := map[0 := PendingCreate(p, 0)]);
    es := Do(c, es, CommitCreate(0));
  }
}
