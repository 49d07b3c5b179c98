/** When an update that gives a monitor a keep-alive due time keeps its publishes spaced. */
module Arming {
  import opened Common
  import opened Monitors
  import opened Schemas
  import Api
  import opened Db
  import opened Claims
  import opened Scheduler
  import opened Runs
  import opened Safety
  import opened Dispatch
  import opened Theorems

  /** Every keep-alive publish of the monitor from position `from` on is spaced from all earlier ones. */
  ghost predicate SpacedFrom(s: State, id: Id, from: nat) {
    forall a, b :: 0 <= a < b < |s.log| && from <= b
                   && s.log[a].schedule == s.log[b].schedule == Activity && s.log[a].id == s.log[b].id == id ==>
      Until(s.log[a]) <= s.log[b].due <= s.log[b].sweepNow
  }

  /** A legal run that goes on from `es` without another update of the monitor. */
  ghost predicate Continues(c: Config, es: seq<Event>, id: Id, more: seq<Event>) {
    && Legal(c, more) && es <= more
    && forall i :: |es| <= i < |more| ==> !(more[i].Update? && more[i].id == id)
  }

  // ----- A safe update -----

  lemma HistoryKept(c: Config, s: State, e: Event, id: Id)
    requires Enabled(c, s, e) && !(e.Update? && e.id == id)
    ensures var t := Apply(c, s, e);
            && (id in t.rearmed <==> id in s.rearmed) && (id in t.since <==> id in s.since)
            && (id in s.since ==> t.since[id] == s.since[id])
  {
    hide ApplyUpdate, EarliestFirst;
    if e.Update? {
      UpdateKeepsHistory(s, e.id, e.update, id);
    }
  }

  lemma UpdateKeepsHistory(s: State, uid: Id, u: MonitorUpdate, id: Id)
    requires uid != id
    ensures var t := ApplyUpdate(s, uid, u);
            && (id in t.rearmed <==> id in s.rearmed) && (id in t.since <==> id in s.since)
            && (id in s.since ==> t.since[id] == s.since[id])
  {
    hide Api.Accepts, Api.Merged, SafeToArm, Arms;
  }

  lemma {:induction false} StaysTracked(c: Config, es: seq<Event>, id: Id, more: seq<Event>)
    requires Legal(c, es) && Continues(c, es, id, more)
    ensures var s, t := After(c, es), After(c, more);
            && (id in t.rearmed <==> id in s.rearmed) && (id in t.since <==> id in s.since)
            && (id in s.since ==> t.since[id] == s.since[id])
    decreases |more|
  {
    hide Apply, Enabled;
    if |more| > |es| {
      var before := more[..|more| - 1];
      StaysTracked(c, es, id, before);
      HistoryKept(c, After(c, before), more[|more| - 1], id);
    } else {
      assert more == es;
    }
  }

  lemma SafeUpdateTracks(c: Config, s: State, id: Id, u: MonitorUpdate)
    requires c.slack < Seconds(MIN_INTERVAL) && DispatchOk(c, s)
    requires Arms(s, id, u) && SafeToArm(s, id)
    ensures var t := ApplyUpdate(s, id, u); Tracked(t, Activity, id) && Since(t, Activity, id) <= |s.log|
  {
    hide Api.Accepts, Api.Merged, SafeToArm;
  }

  /** Enabling for the first time is always safe: the monitor has no publishes yet, and nobody holds it. */
  lemma FirstArmingIsSafe(c: Config, es: seq<Event>, id: Id, u: MonitorUpdate)
    requires ValidConfig(c) && c.slack < Seconds(MIN_INTERVAL) && Legal(c, es)
    requires Arms(After(c, es), id, u) && Tracked(After(c, es), Activity, id)
    ensures SafeToArm(After(c, es), id)
  {
    ReachableOk(c, es);
    var s := After(c, es);
    hide Legal, After, Api.Accepts, Api.Merged, SweepsOk, Exclusive, Spaced, WaitingAfterLog, StoreOk, Waits;
    assert NextOf(s, Activity, id) == None;
  }

  // ----- An unsafe update -----

  /** What the update leaves: an enabled row that is due at once. */
  lemma ArmedRow(s: State, id: Id, u: MonitorUpdate)
    requires TableOk(s.tables.monitors) && Arms(s, id, u)
    ensures var t := ApplyUpdate(s, id, u);
            && id in t.tables.monitors && RowOk(t.tables.monitors[id]) && IsDue(Activity, t.tables.monitors[id], t.clock)
            && t.tables.monitors[id].nextKeepAlive == Some(t.clock)
            && t.clock == s.clock && t.log == s.log && t.sweeps == s.sweeps
  {
    Api.AcceptedIsConsistent(s.tables.monitors[id], u, s.clock);
  }

  /** An earlier publish still covers this instant: dispatching the monitor now is too early. */
  lemma CoveredPublishFails(c: Config, es: seq<Event>, id: Id, a: nat) returns (more: seq<Event>)
    requires ValidConfig(c) && Legal(c, es)
    requires var s := After(c, es);
             && id in s.tables.monitors && RowOk(s.tables.monitors[id]) && IsDue(Activity, s.tables.monitors[id], s.clock)
             && a < |s.log| && s.log[a].schedule == Activity && s.log[a].id == id
             && Until(s.log[a]) > DueAt(Activity, s.tables.monitors[id])
    ensures Legal(c, more) && ContinuesQuietly(es, more) && !SpacedFrom(After(c, more), id, |After(c, es).log|)
  {
    hide Legal, After, RowOk;
    more := DispatchNow(c, es, Activity, id);
    var s, t := After(c, es), After(c, more);
    assert t.log[a] == s.log[a] && t.log[|s.log|].schedule == Activity;
  }

  /** The batch is, or now becomes, one to recover. */
  lemma FailPublish(c: Config, es: seq<Event>, sid: nat) returns (more: seq<Event>)
    requires Legal(c, es) && sid in After(c, es).sweeps && InHand(After(c, es).sweeps[sid]) != []
    ensures Legal(c, more) && ContinuesQuietly(es, more)
    ensures var s, sw := After(c, es), After(c, es).sweeps[sid];
            After(c, more) == s.(sweeps := s.sweeps[sid := sw.(stage := Recovering(InHand(sw)))])
  {
    hide Legal, After, Apply;
    var s := After(c, es);
    more := es;
    if s.sweeps[sid].stage.Publishing? {
      more := DoPublish(c, es, sid, false);
    } else {
      assert s.sweeps[sid := s.sweeps[sid]] == s.sweeps;
    }
  }

  /** The recovery makes the monitor due again as of the sweep's own `now`. */
  lemma RecoverHeld(c: Config, es: seq<Event>, id: Id, sid: nat) returns (more: seq<Event>)
    requires Legal(c, es) && sid in After(c, es).sweeps
    requires var sw := After(c, es).sweeps[sid]; sw.stage.Recovering? && sw.schedule == Activity && id in ClaimIds(sw.stage.queue)
    requires var s := After(c, es);
             id in s.tables.monitors && RowOk(s.tables.monitors[id]) && Eligible(Activity, s.tables.monitors[id])
    ensures Legal(c, more) && ContinuesQuietly(es, more)
    ensures var s, t := After(c, es), After(c, more);
            && t.log == s.log && t.clock == s.clock
            && id in t.tables.monitors && RowOk(t.tables.monitors[id]) && Eligible(Activity, t.tables.monitors[id])
            && Next(Activity, t.tables.monitors[id]) == Some(s.sweeps[sid].now)
  {
    hide Legal, After, Apply;
    more := DoRecover(c, es, sid, true);
  }

  lemma PositiveInterval(row: Row)
    requires RowOk(row) && Eligible(Activity, row)
    ensures Interval(Activity, row).Some? && Interval(Activity, row).value > 0
    ensures RowOk(Advanced(Activity, row, 0)) && forall now :: RowOk(Advanced(Activity, row, now))
    ensures forall now :: Eligible(Activity, Advanced(Activity, row, now))
  {
  }

  /** A claim is still in hand: after a dispatch its recovery makes the monitor due again, as of the claim. */
  lemma HeldClaimFails(c: Config, es: seq<Event>, id: Id, sid: nat, item: Claim) returns (more: seq<Event>)
    requires ValidConfig(c) && Legal(c, es)
    requires var s := After(c, es);
             && id in s.tables.monitors && RowOk(s.tables.monitors[id]) && IsDue(Activity, s.tables.monitors[id], s.clock)
             && Waits(s, sid, item) && ScheduleOf(s, sid) == Activity && item.id == id && NowOf(s, sid) <= s.clock
    ensures Legal(c, more) && ContinuesQuietly(es, more) && !SpacedFrom(After(c, more), id, |After(c, es).log|)
  {
    hide Legal, After, Apply, RowOk, Enabled, Advanced, Eligible;
    var s := After(c, es);
    PositiveInterval(s.tables.monitors[id]);
    assert id in ClaimIds(InHand(s.sweeps[sid]));
    var failed := FailPublish(c, es, sid);
    var first := DispatchNow(c, failed, Activity, id);
    var recovered := RecoverHeld(c, first, id, sid);
    var t := After(c, recovered);
    assert t.log[|s.log|] == Publish(Activity, id, s.clock, Interval(Activity, s.tables.monitors[id]).value,
                                     DueAt(Activity, s.tables.monitors[id]), s.clock);
    more := CoveredPublishFails(c, recovered, id, |s.log|);
    FailsEarlier(After(c, more), id, |t.log|, |s.log|);
    Transitively(es, failed, first, recovered, more);
  }

  lemma FailsEarlier(s: State, id: Id, from: nat, earlier: nat)
    requires !SpacedFrom(s, id, from) && earlier <= from
    ensures !SpacedFrom(s, id, earlier)
  {
  }

  lemma Transitively(a: seq<Event>, b: seq<Event>, d: seq<Event>, e: seq<Event>, f: seq<Event>)
    requires ContinuesQuietly(a, b) && ContinuesQuietly(b, d) && ContinuesQuietly(d, e) && ContinuesQuietly(e, f)
    ensures ContinuesQuietly(a, f)
  {
  }

  lemma DispatchedAndDisabled(c: Config) returns (es: seq<Event>)
    requires ValidConfig(c)
    ensures Legal(c, es)
    ensures var s, row := After(c, es), KEEP_ALIVE_ROW.(nextKeepAlive := Some(Seconds(15)));
            && s.log == [Publish(Activity, 0, 0, 15, 0, 0)] && s.clock == 0
            && s.tables.monitors == map[0 := Api.Merged(row, DISABLE, 0)]
  {
    hide Legal, After, Apply, RowOk, ValidateCreate, Api.Accepts, Api.Merged;
    KeepAliveRow();
    KeepAliveUpdates(KEEP_ALIVE_ROW.(nextKeepAlive := Some(Seconds(15))));
    es := OneMonitor(c, KEEP_ALIVE);
    es := DispatchNow(c, es, Activity, 0);
    es := DoUpdate(c, es, 0, DISABLE);
  }

  /** A run that shows it: dispatched, disabled, enabled and dispatched again, all at one instant. */
  lemma RearmedMonitorIsDispatchedEarly(c: Config) returns (es: seq<Event>)
    requires ValidConfig(c)
    ensures Legal(c, es)
    ensures var log := After(c, es).log;
            && |log| == 2 && log[0].id == log[1].id && log[0].schedule == log[1].schedule == Activity
            && log[1].sweepNow < Until(log[0])
  {
    hide Legal, After, Apply, RowOk, ValidateCreate, Api.Accepts, Api.Merged;
    KeepAliveRow();
    KeepAliveUpdates(KEEP_ALIVE_ROW.(nextKeepAlive := Some(Seconds(15))));
    es := DispatchedAndDisabled(c);
    es := DoUpdate(c, es, 0, ENABLE);
    es := DispatchNow(c, es, Activity, 0);
  }

  // ----- The exact guard -----

  ghost predicate StaysSpaced(c: Config, es: seq<Event>, id: Id, from: nat) {
    forall more :: Continues(c, es, id, more) ==> SpacedFrom(After(c, more), id, from)
  }

  /** With prompt sweeps: after an update that gives a monitor a keep-alive due time, its publishes are spaced on
      every continuation without a further update of it, exactly when no sweep still has the monitor in hand and
      the interval of each of its earlier publishes is over. */
  lemma SpacedExactlyWhenArmedSafely(c: Config, es: seq<Event>, id: Id, u: MonitorUpdate)
    requires ValidConfig(c) && c.slack < Seconds(MIN_INTERVAL) && Legal(c, es) && Arms(After(c, es), id, u)
    ensures Legal(c, es + [Update(id, u)])
    ensures StaysSpaced(c, es + [Update(id, u)], id, |After(c, es).log|) <==> SafeToArm(After(c, es), id)
  {
    var s := After(c, es);
    var armed := DoUpdate(c, es, id, u);
    ReachableOk(c, es);
    if SafeToArm(s, id) {
      SafeUpdateTracks(c, s, id, u);
      forall more | Continues(c, armed, id, more)
        ensures SpacedFrom(After(c, more), id, |s.log|)
      {
        StaysTracked(c, armed, id, more);
        ReachableOk(c, more);
      }
    } else {
      var more := UnsafeUpdateFails(c, es, id, u);
    }
  }

  lemma UnsafeUpdateFails(c: Config, es: seq<Event>, id: Id, u: MonitorUpdate) returns (more: seq<Event>)
    requires ValidConfig(c) && c.slack < Seconds(MIN_INTERVAL) && Legal(c, es) && Arms(After(c, es), id, u)
    requires !SafeToArm(After(c, es), id)
    ensures Legal(c, es + [Update(id, u)])
    ensures Continues(c, es + [Update(id, u)], id, more) && !SpacedFrom(After(c, more), id, |After(c, es).log|)
  {
    hide Legal, After, Apply, Api.Accepts, Api.Merged;
    var s := After(c, es);
    ReachableOk(c, es);
    ArmedRow(s, id, u);
    var armed := DoUpdate(c, es, id, u);
    if a :| 0 <= a < |s.log| && s.log[a].schedule == Activity && s.log[a].id == id && Until(s.log[a]) > s.clock {
      more := CoveredPublishFails(c, armed, id, a);
    } else {
      var sid, item :| Waits(s, sid, item) && ScheduleOf(s, sid) == Activity && item.id == id;
      more := HeldClaimFails(c, armed, id, sid, item);
    }
  }
}
