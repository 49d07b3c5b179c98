/** The main results about the step machine: for every configuration and every run. */
module Theorems {
  import opened Common
  import opened Monitors
  import opened Schemas
  import Api
  import opened Db
  import opened Claims
  import Worker
  import opened Scheduler
  import opened Runs
  import opened Safety
  import opened Dispatch

  // ----- Spacing -----

  /** Sweep 0 claims the monitor at 0 and stalls; at 15 s, when it is due again, another sweep dispatches it. */
  lemma ClaimedTwice(c: Config) returns (es: seq<Event>)
    requires ValidConfig(c) && c.slack >= Seconds(MIN_INTERVAL)
    ensures Legal(c, es)
    ensures var s, at := After(c, es), Seconds(15);
            && s.clock == at && s.log == [Publish(Health, 0, at, 15, at, at)] && s.broker == map[0 := 0]
            && s.sweeps == map[0 := SweepRun(0, Health, c.maxBatches - 1, Publishing([Claim(0, 15, 0)]))]
            && s.tables.monitors == map[0 := Api.NewRow(MINIMAL, 0).(nextCheck := Some(at + at))]
  {
    hide Legal, After, Apply, RowOk, ValidateCreate;
    MinimalRow();
    es := OneMonitor(c, MINIMAL);
    es := DoStart(c, es, 0);
    es := ClaimAlone(c, es, 0, 0);
    es := DoTick(c, es, Seconds(15));
    es := DispatchNow(c, es, Health, 0);
  }

  /** Then the recovery of sweep 0 makes it due as of 0. */
  lemma StalledSweep(c: Config) returns (es: seq<Event>)
    requires ValidConfig(c) && c.slack >= Seconds(MIN_INTERVAL)
    ensures Legal(c, es)
    ensures var s, at := After(c, es), Seconds(15);
            && s.clock == at && s.log == [Publish(Health, 0, at, 15, at, at)] && s.broker == map[0 := 0] && s.sweeps == map[]
            && s.tables.monitors == map[0 := Api.NewRow(MINIMAL, 0)]
  {
    hide Legal, After, Apply, RowOk, ValidateCreate, Api.NewRow;
    es := ClaimedTwice(c);
    es := DoPublish(c, es, 0, false);
    es := DoRecover(c, es, 0, true);
    assert ClaimIds([Claim(0, 15, 0)]) == {0};
    assert After(c, es).tables.monitors[0] == Api.NewRow(MINIMAL, 0);
    es := DoCrash(c, es, 0);
  }

  lemma MinimalRow()
    ensures ValidateCreate(MINIMAL).None? && RowOk(Api.NewRow(MINIMAL, 0))
    ensures RowOk(Api.NewRow(MINIMAL, 0).(nextCheck := Some(Seconds(15))))
  {
  }

  /** A sweep allowed to recover 15 s after its own `now` resets a monitor that a second sweep has already
      dispatched, and a third sweep dispatches it again at the same instant. */
  lemma LateRecoveryDispatchesTwice(c: Config) returns (es: seq<Event>)
    requires ValidConfig(c) && c.slack >= Seconds(MIN_INTERVAL)
    ensures Legal(c, es) && !Spaced(After(c, es))
    ensures var s, at := After(c, es), Seconds(15);
            && s.log == [Publish(Health, 0, at, 15, at, at), Publish(Health, 0, at, 15, 0, at)] && s.clock == at
            && s.broker == map[0 := 0, 1 := 0] && s.sweeps == map[]
            && s.tables.monitors == map[0 := Api.NewRow(MINIMAL, 0).(nextCheck := Some(at + at))]
  {
    hide Legal, After, RowOk, ValidateCreate;
    MinimalRow();
    var before := StalledSweep(c);
    es := DispatchNow(c, before, Health, 0);
    assert Until(After(c, es).log[0]) > After(c, es).log[1].due;
  }

  /** Publishes of a monitor are spaced by the recorded intervals on every run exactly when every sweep is
      finished strictly within the minimum interval, 15 s, of its own `now`. */
  lemma SpacedExactlyWhenPrompt(c: Config)
    requires ValidConfig(c)
    ensures (forall es :: Legal(c, es) ==> Spaced(After(c, es))) <==> c.slack < Seconds(MIN_INTERVAL)
  {
    if c.slack < Seconds(MIN_INTERVAL) {
      forall es | Legal(c, es)
        ensures Spaced(After(c, es))
      {
        ReachableOk(c, es);
      }
    } else {
      var es := LateRecoveryDispatchesTwice(c);
    }
  }

  // ----- Live messages -----

  /** The undelivered messages of one monitor that have not expired, from where the scheduler has been in charge. */
  ghost function Live(s: State, k: Schedule, id: Id): set<nat> {
    set m | m in s.broker && Since(s, k, id) <= m < |s.log| && s.log[m].schedule == k && s.log[m].id == id
            && !Expired(s.log[m], s.clock)
  }

  /** Once a third message of a monitor has been published, the first has expired. */
  lemma ThirdExpiresFirst(c: Config, s: State, first: nat, second: nat, third: nat)
    requires c.slack < Seconds(MIN_INTERVAL) && DispatchOk(c, s) && first < second < third < |s.log|
    requires s.log[first].schedule == s.log[second].schedule == s.log[third].schedule
    requires s.log[first].id == s.log[second].id == s.log[third].id
    requires Tracked(s, s.log[first].schedule, s.log[first].id) && Since(s, s.log[first].schedule, s.log[first].id) <= second
    ensures Expired(s.log[first], s.clock)
  {
    hide Held, Exclusive, RowsAfterLog, WaitingAfterLog, WaitingOk, SweepsOk;
    var a, b, d := s.log[first], s.log[second], s.log[third];
    assert a in s.log && b in s.log && d in s.log;
    assert a.at < a.sweepNow + Seconds(MIN_INTERVAL);
    assert Until(a) <= b.sweepNow && Until(b) <= d.sweepNow;
  }

  lemma AtMostTwo(s: set<nat>)
    requires forall a, b, d :: a in s && b in s && d in s && a < b ==> !(b < d)
    ensures |s| <= 2
  {
    if s != {} {
      var a :| a in s;
      if s != {a} {
        var b :| b in s && b != a;
        assert forall d :: d in s ==> d == a || d == b;
        SubsetCardinality(s, {a, b});
      }
    }
  }

  /** With prompt sweeps no more than two unexpired scheduled messages of a monitor exist at any instant,
      although its interval may be patched between the claims. */
  lemma AtMostTwoLive(c: Config, es: seq<Event>, k: Schedule, id: Id)
    requires ValidConfig(c) && c.slack < Seconds(MIN_INTERVAL) && Legal(c, es)
    requires Tracked(After(c, es), k, id)
    ensures |Live(After(c, es), k, id)| <= 2
  {
    var s := After(c, es);
    ReachableOk(c, es);
    hide DispatchOk, StoreOk, Expired;
    forall a, b, d | a in Live(s, k, id) && b in Live(s, k, id) && d in Live(s, k, id) && a < b
      ensures !(b < d)
    {
      if b < d {
        ThirdExpiresFirst(c, s, a, b, d);
      }
    }
    AtMostTwo(Live(s, k, id));
  }

  /** Two messages of one monitor, the first in the last instant before it expires. */
  lemma TwoLive(c: Config) returns (es: seq<Event>)
    requires ValidConfig(c)
    ensures Legal(c, es) && Live(After(c, es), Health, 0) == {0, 1}
  {
    hide Legal, After, RowOk, ValidateCreate;
    MinimalRow();
    es := OneMonitor(c, MINIMAL);
    es := DispatchNow(c, es, Health, 0);
    es := DoTick(c, es, Seconds(15));
    es := DispatchNow(c, es, Health, 0);
    assert After(c, es).log == [Publish(Health, 0, 0, 15, 0, 0), Publish(Health, 0, Seconds(15), 15, Seconds(15), Seconds(15))];
  }

  /** The double dispatch of a late recovery adds a third. */
  lemma ThreeLive(c: Config) returns (es: seq<Event>)
    requires ValidConfig(c) && c.slack >= Seconds(MIN_INTERVAL)
    ensures Legal(c, es) && Live(After(c, es), Health, 0) == {0, 1, 2}
  {
    hide Legal, After, RowOk, ValidateCreate;
    var at := Seconds(15);
    es := LateRecoveryDispatchesTwice(c);
    es := DoTick(c, es, at + at);
    ThirtySeconds();
    es := DispatchNow(c, es, Health, 0);
    assert After(c, es).log == [Publish(Health, 0, at, 15, at, at), Publish(Health, 0, at, 15, 0, at),
                                Publish(Health, 0, at + at, 15, at + at, at + at)];
  }

  lemma ThirtySeconds()
    ensures RowOk(Api.NewRow(MINIMAL, 0).(nextCheck := Some(Seconds(15) + Seconds(15))))
  {
  }

  ghost predicate LiveBound(c: Config, bound: nat) {
    forall es, k, id :: Legal(c, es) && Tracked(After(c, es), k, id) ==> |Live(After(c, es), k, id)| <= bound
  }

  /** The bound of two is sharp, and it holds on all runs exactly when sweeps are prompt. */
  lemma TwoLiveExactlyWhenPrompt(c: Config)
    requires ValidConfig(c)
    ensures LiveBound(c, 2) <==> c.slack < Seconds(MIN_INTERVAL)
    ensures !LiveBound(c, 1)
  {
    hide Live;
    var two := TwoLive(c);
    assert |Live(After(c, two), Health, 0)| == |{0, 1}| == 2;
    if c.slack < Seconds(MIN_INTERVAL) {
      forall es, k, id | Legal(c, es) && Tracked(After(c, es), k, id)
        ensures |Live(After(c, es), k, id)| <= 2
      {
        AtMostTwoLive(c, es, k, id);
      }
    } else {
      var three := ThreeLive(c);
      assert |Live(After(c, three), Health, 0)| == |{0, 1, 2}| == 3;
    }
  }

  // ----- Rows -----

  /** Every stored row is consistent in every reachable state, and every result belongs to a stored monitor. */
  lemma RowsStayConsistent(c: Config, es: seq<Event>)
    requires ValidConfig(c) && Legal(c, es)
    ensures TableOk(After(c, es).tables.monitors) && ReferencesHold(After(c, es).tables)
  {
    ReachableOk(c, es);
  }

  /** A recovery commits after the keep-alive monitor it had claimed was disabled. */
  ghost predicate RearmsDisabled(s: State, e: Event, id: Id) {
    && e.RecoverBatch? && e.committed && e.sid in s.sweeps && s.sweeps[e.sid].schedule == Activity
    && id in ClaimIds(InHand(s.sweeps[e.sid]))
    && id in s.tables.monitors && !s.tables.monitors[id].keepAliveEnabled
  }

  /** A disabled row has no keep-alive due time, and exactly one kind of step gives it one. */
  lemma OnlyLateRecoveryRearmsDisabled(c: Config, es: seq<Event>, e: Event, id: Id)
    requires ValidConfig(c) && Legal(c, es) && Enabled(c, After(c, es), e)
    requires id in Apply(c, After(c, es), e).tables.monitors
    requires id in After(c, es).tables.monitors ==> QuietWhenDisabled(After(c, es).tables.monitors[id])
    ensures !QuietWhenDisabled(Apply(c, After(c, es), e).tables.monitors[id]) <==> RearmsDisabled(After(c, es), e, id)
  {
    ReachableOk(c, es);
    QuietStep(c, After(c, es), e, id);
  }

  ghost predicate NeverRearmed(c: Config, es: seq<Event>, id: Id)
    requires Legal(c, es)
    decreases |es|
  {
    es == [] || (NeverRearmed(c, es[..|es| - 1], id) && !RearmsDisabled(After(c, es[..|es| - 1]), es[|es| - 1], id))
  }

  ghost predicate AlwaysQuiet(c: Config, es: seq<Event>, id: Id)
    requires Legal(c, es)
    decreases |es|
  {
    && (id in After(c, es).tables.monitors ==> QuietWhenDisabled(After(c, es).tables.monitors[id]))
    && (es == [] || AlwaysQuiet(c, es[..|es| - 1], id))
  }

  /** A monitor is quiet all along a run exactly when no step of the run is such a recovery. */
  lemma {:induction false} QuietExactlyWithoutLateRecovery(c: Config, es: seq<Event>, id: Id)
    requires ValidConfig(c) && Legal(c, es)
    ensures AlwaysQuiet(c, es, id) <==> NeverRearmed(c, es, id)
    decreases |es|
  {
    if es != [] {
      hide QuietWhenDisabled, RearmsDisabled, Enabled, Apply;
      var before, last := es[..|es| - 1], es[|es| - 1];
      QuietExactlyWithoutLateRecovery(c, before, id);
      if AlwaysQuiet(c, before, id) {
        if id in After(c, es).tables.monitors {
          OnlyLateRecoveryRearmsDisabled(c, before, last, id);
        } else {
          if RearmsDisabled(After(c, before), last, id) {
            RearmedIsStored(c, After(c, before), last, id);
          }
        }
      }
    }
  }

  lemma RearmedIsStored(c: Config, s: State, e: Event, id: Id)
    requires Enabled(c, s, e) && RearmsDisabled(s, e, id)
    ensures id in Apply(c, s, e).tables.monitors
  {
  }

  lemma QuietStep(c: Config, s: State, e: Event, id: Id)
    requires StoreOk(c, s) && Enabled(c, s, e) && id in Apply(c, s, e).tables.monitors
    requires id in s.tables.monitors ==> QuietWhenDisabled(s.tables.monitors[id])
    ensures !QuietWhenDisabled(Apply(c, s, e).tables.monitors[id]) <==> RearmsDisabled(s, e, id)
  {
    hide QuietWhenDisabled, TableOk, ReferencesHold, StoreOk, Enabled, Apply;
    if e.ClaimBatch? || e.PublishNext? || e.RecoverBatch? {
      QuietSweepStep(c, s, e, id);
    } else if e.Execute? || e.ExecuteOnDemand? {
      QuietWorkerStep(c, s, e, id);
    } else if e.Update? || e.CommitCreate? {
      QuietApiStep(c, s, e, id);
    } else {
      QuietOtherStep(c, s, e, id);
    }
  }

  lemma QuietApiStep(c: Config, s: State, e: Event, id: Id)
    requires StoreOk(c, s) && Enabled(c, s, e) && (e.Update? || e.CommitCreate?)
    requires id in Apply(c, s, e).tables.monitors
    requires id in s.tables.monitors ==> QuietWhenDisabled(s.tables.monitors[id])
    ensures QuietWhenDisabled(Apply(c, s, e).tables.monitors[id])
  {
    hide QuietWhenDisabled, TableOk, ReferencesHold, ApplyUpdate, ApplyCommit;
    if e.Update? {
      QuietUpdate(s, e.id, e.update, id);
    } else {
      QuietCreate(s, e.rid, id);
    }
  }

  lemma QuietWorkerStep(c: Config, s: State, e: Event, id: Id)
    requires StoreOk(c, s) && Enabled(c, s, e) && (e.Execute? || e.ExecuteOnDemand?)
    requires id in Apply(c, s, e).tables.monitors
    requires id in s.tables.monitors ==> QuietWhenDisabled(s.tables.monitors[id])
    ensures QuietWhenDisabled(Apply(c, s, e).tables.monitors[id])
  {
    hide QuietWhenDisabled, TableOk, ReferencesHold;
    hide Worker.LateEffect;
    match e
    case Execute(message, maxRetries, read, a) =>
      var p := s.log[message];
      QuietExecution(s, Worker.Task(p.id, CheckOf(p.schedule), s.broker[message], maxRetries), read, a, id);
    case ExecuteOnDemand(tid, retries, maxRetries, read, a) =>
      QuietExecution(s, Worker.Task(tid, HealthCheck, retries, maxRetries), read, a, id);
  }

  lemma QuietOtherStep(c: Config, s: State, e: Event, id: Id)
    requires StoreOk(c, s) && Enabled(c, s, e) && (!e.ClaimBatch? && !e.PublishNext? && !e.RecoverBatch? && !e.Execute?
                                                 && !e.ExecuteOnDemand? && !e.Update? && !e.CommitCreate?)
    requires id in Apply(c, s, e).tables.monitors
    requires id in s.tables.monitors ==> QuietWhenDisabled(s.tables.monitors[id])
    ensures QuietWhenDisabled(Apply(c, s, e).tables.monitors[id])
  {
    hide QuietWhenDisabled, StoreOk;
  }

  lemma QuietSweepStep(c: Config, s: State, e: Event, id: Id)
    requires StoreOk(c, s) && Enabled(c, s, e) && (e.ClaimBatch? || e.PublishNext? || e.RecoverBatch?)
    requires id in Apply(c, s, e).tables.monitors
    requires id in s.tables.monitors ==> QuietWhenDisabled(s.tables.monitors[id])
    ensures !QuietWhenDisabled(Apply(c, s, e).tables.monitors[id]) <==> RearmsDisabled(s, e, id)
  {
    hide QuietWhenDisabled, TableOk, ReferencesHold, EarliestFirst, BatchOf, Advance, Reset, DueIds;
    match e
    case ClaimBatch(sid, locked, ids) =>
      NothingSkipped(c, s, sid, locked, ids);
      if ids != [] {
        QuietClaim(s, s.sweeps[sid].schedule, SetOf(ids), s.sweeps[sid].now, id);
      }
    case RecoverBatch(sid, committed) =>
      if committed {
        QuietRecovery(s, s.sweeps[sid].schedule, ClaimIds(s.sweeps[sid].stage.queue), s.sweeps[sid].now, id);
      }
    case _ =>
  }

  lemma QuietCreate(s: State, rid: nat, id: Id)
    requires rid in s.creating && id in ApplyCommit(s, rid).tables.monitors
    requires id in s.tables.monitors ==> QuietWhenDisabled(s.tables.monitors[id])
    ensures QuietWhenDisabled(ApplyCommit(s, rid).tables.monitors[id])
  {
  }

  lemma QuietClaim(s: State, k: Schedule, ids: set<Id>, now: Time, id: Id)
    requires TableOk(s.tables.monitors) && ids <= DueIds(s.tables.monitors, k, now)
    requires id in Advance(s.tables.monitors, k, ids, now)
    requires id in s.tables.monitors ==> QuietWhenDisabled(s.tables.monitors[id])
    ensures QuietWhenDisabled(Advance(s.tables.monitors, k, ids, now)[id])
  {
    if id in ids {
      DueRowsAreClaimable(s.tables.monitors, k, now, id);
    }
  }

  lemma QuietRecovery(s: State, k: Schedule, ids: set<Id>, now: Time, id: Id)
    requires id in Reset(s.tables.monitors, k, ids, now)
    requires id in s.tables.monitors ==> QuietWhenDisabled(s.tables.monitors[id])
    ensures !QuietWhenDisabled(Reset(s.tables.monitors, k, ids, now)[id]) <==>
              k == Activity && id in s.tables.monitors && id in ids && !s.tables.monitors[id].keepAliveEnabled
  {
  }

  lemma QuietUpdate(s: State, uid: Id, u: MonitorUpdate, id: Id)
    requires TableOk(s.tables.monitors) && id in ApplyUpdate(s, uid, u).tables.monitors
    requires id in s.tables.monitors ==> QuietWhenDisabled(s.tables.monitors[id])
    ensures QuietWhenDisabled(ApplyUpdate(s, uid, u).tables.monitors[id])
  {
    hide ApplyUpdate, Api.Accepts, Api.Merged, RowOk, QuietWhenDisabled;
    UpdatedParts(s, uid, u);
    if uid in s.tables.monitors && Api.Accepts(s.tables.monitors[uid], u) {
      Api.AcceptedIsConsistent(s.tables.monitors[uid], u, s.clock);
    }
  }

  lemma QuietExecution(s: State, task: Worker.Task, read: Tables, a: Worker.Attempt, id: Id)
    requires id in Worker.LateEffect(read, s.tables, task, a).0.monitors
    requires id in s.tables.monitors ==> QuietWhenDisabled(s.tables.monitors[id])
    ensures QuietWhenDisabled(Worker.LateEffect(read, s.tables, task, a).0.monitors[id])
  {
    Worker.EffectOnRows(read, s.tables, task, a);
  }

  const KEEP_ALIVE := MonitorCreate("m", "u", None, 15, KeepAlive, true, Some(15), None)
  const DISABLE := MonitorUpdate(Absent, Absent, Absent, Value(false), Absent, Absent)
  const ENABLE := MonitorUpdate(Absent, Absent, Value(KeepAlive), Value(true), Value(15), Absent)

  const KEEP_ALIVE_ROW :=
    Row("m", "u", 15, Pending, None, Some(0), KeepAlive, true, Some(15), None, Some(0))

  lemma KeepAliveRow()
    ensures ValidateCreate(KEEP_ALIVE).None? && Api.NewRow(KEEP_ALIVE, 0) == KEEP_ALIVE_ROW && RowOk(KEEP_ALIVE_ROW)
  {
  }

  /** Disabling and enabling the monitor again gives it a due time of now, whatever it had. */
  lemma KeepAliveUpdates(row: Row)
    requires row == KEEP_ALIVE_ROW.(nextKeepAlive := Some(Seconds(15)))
    ensures Api.Accepts(row, DISABLE) && !Api.Merged(row, DISABLE, 0).keepAliveEnabled
    ensures Api.Merged(row, DISABLE, 0).nextKeepAlive == None
    ensures Api.Accepts(Api.Merged(row, DISABLE, 0), ENABLE)
    ensures Api.Merged(Api.Merged(row, DISABLE, 0), ENABLE, 0) == KEEP_ALIVE_ROW
  {
  }

  /** One keep-alive monitor, claimed by the keep-alive half of sweep 0, and the publish raises. */
  lemma KeepAliveClaimed(c: Config) returns (es: seq<Event>)
    requires ValidConfig(c)
    ensures Legal(c, es)
    ensures var s := After(c, es);
            && s.clock == 0
            && s.tables.monitors == map[0 := KEEP_ALIVE_ROW.(nextKeepAlive := Some(Seconds(15)))]
            && s.sweeps == map[0 := SweepRun(0, Activity, c.maxBatches - 1, Recovering([Claim(0, 15, 0)]))]
  {
    hide Legal, After, Apply, RowOk, ValidateCreate;
    KeepAliveRow();
    es := OneMonitor(c, KEEP_ALIVE);
    es := ReachHalf(c, es, 0, Activity);
    es := ClaimAlone(c, es, 0, 0);
    es := DoPublish(c, es, 0, false);
  }

  /** That step does happen: the monitor is disabled between the claim and the recovery of a failed publish. */
  lemma LateRecoveryRearmsDisabled(c: Config) returns (es: seq<Event>)
    requires ValidConfig(c)
    ensures Legal(c, es) && 0 in After(c, es).tables.monitors
    ensures !QuietWhenDisabled(After(c, es).tables.monitors[0])
  {
    hide Legal, After, Apply, Api.Accepts, Api.Merged;
    KeepAliveUpdates(KEEP_ALIVE_ROW.(nextKeepAlive := Some(Seconds(15))));
    es := KeepAliveClaimed(c);
    es := DoUpdate(c, es, 0, DISABLE);
    es := DoRecover(c, es, 0, true);
    assert ClaimIds([Claim(0, 15, 0)]) == {0};
  }
}
