/** Running one round of the step machine with nothing in between, for every failure point. */
module Alone {
  import opened Common
  import opened Monitors
  import opened Db
  import opened Claims
  import Sweep
  import opened Scheduler
  import opened Safety
  import opened Dispatch
  import opened Runs

  /** The log entries of publishing these claims at one instant. */
  function Entries(k: Schedule, now: Time, at: Time, items: seq<Claim>): (entries: seq<Publish>)
    ensures |entries| == |items|
  {
    seq(|items|, i requires 0 <= i < |items| => Publish(k, items[i].id, now, items[i].interval, items[i].due, at))
  }

  function Take(items: seq<Claim>, n: nat): seq<Claim> {
    if n <= |items| then items[..n] else items
  }

  function Publishes(sid: nat, n: nat): (events: seq<Event>)
    ensures |events| == n && forall i :: 0 <= i < n ==> events[i] == PublishNext(sid, true)
  {
    seq(n, _ => PublishNext(sid, true))
  }

  /** The events of one round that claims `ids` and publishes the first `sent` of them. */
  function RoundEvents(sid: nat, ids: seq<Id>, sent: nat, recovers: bool): seq<Event> {
    [ClaimBatch(sid, {}, ids)] + Publishes(sid, sent)
    + if sent < |ids| then [PublishNext(sid, false), RecoverBatch(sid, recovers)] else []
  }

  /** The claim step, with the batch it puts in the sweep's hands. */
  lemma DoClaim(c: Config, es: seq<Event>, sid: nat, ids: seq<Id>) returns (more: seq<Event>)
    requires ValidConfig(c) && Legal(c, es) && Enabled(c, After(c, es), ClaimBatch(sid, {}, ids)) && ids != []
    ensures more == es + [ClaimBatch(sid, {}, ids)] && Legal(c, more) && NoDuplicates(ids)
    ensures var s, t, sw := After(c, es), After(c, more), After(c, es).sweeps[sid];
            var batch := BatchOf(s.tables.monitors, sw.schedule, ids);
            && |batch| == |ids| && (forall i :: 0 <= i < |ids| ==> batch[i].id == ids[i])
            && t.tables == s.tables.(monitors := Advance(s.tables.monitors, sw.schedule, SetOf(ids), sw.now))
            && t.clock == s.clock && t.log == s.log
            && t.sweeps == s.sweeps[sid := sw.(left := sw.left - 1, stage := Publishing(batch))]
  {
    var s := After(c, es);
    var sw := s.sweeps[sid];
    ReachableOk(c, es);
    NothingSkipped(c, s, sid, {}, ids);
    BatchOfValid(s.tables.monitors, sw.schedule, sw.now, ids);
    hide TableOk, ReferencesHold, BatchOf, DueIds, Legal, After, Advance;
    more := Do(c, es, ClaimBatch(sid, {}, ids));
  }

  /** Delivered publishes, one after the other, short of the whole batch. */
  lemma {:induction false} PublishMany(c: Config, es: seq<Event>, sid: nat, n: nat) returns (more: seq<Event>)
    requires Legal(c, es) && sid in After(c, es).sweeps && After(c, es).sweeps[sid].stage.Publishing?
    requires n < |InHand(After(c, es).sweeps[sid])|
    ensures more == es + Publishes(sid, n) && Legal(c, more)
    ensures var s, t, sw := After(c, es), After(c, more), After(c, es).sweeps[sid];
            && t.tables == s.tables && t.clock == s.clock
            && t.log == s.log + Entries(sw.schedule, sw.now, s.clock, InHand(sw)[..n])
            && t.sweeps == s.sweeps[sid := sw.(stage := Publishing(InHand(sw)[n..]))]
    decreases n
  {
    hide Apply, Legal, After;
    var s := After(c, es);
    var sw := s.sweeps[sid];
    var queue := InHand(sw);
    if n == 0 {
      more := es;
      assert queue[0..] == queue && s.sweeps[sid := sw] == s.sweeps;
    } else {
      var half := PublishMany(c, es, sid, n - 1);
      more := DoPublish(c, half, sid, true);
      assert Publishes(sid, n) == Publishes(sid, n - 1) + [PublishNext(sid, true)];
      assert queue[n - 1..][1..] == queue[n..] && queue[n - 1..][0] == queue[n - 1];
      OneMoreEntry(sw.schedule, sw.now, s.clock, queue, n);
    }
  }

  lemma OneMoreEntry(k: Schedule, now: Time, at: Time, items: seq<Claim>, n: nat)
    requires 0 < n <= |items|
    ensures Entries(k, now, at, items[..n])
            == Entries(k, now, at, items[..n - 1])
               + [Publish(k, items[n - 1].id, now, items[n - 1].interval, items[n - 1].due, at)]
  {
  }

  /** A claim of `ids`, `sent` delivered publishes, and then, if any are left, a failed publish and a recovery,
      with nothing in between: the tables change as in one round of the sweep's loop, the log grows by
      exactly the published monitors, in claim order, and the sweep is ready for its next round or its next half. */
  lemma UninterruptedRound(c: Config, es: seq<Event>, sid: nat, ids: seq<Id>, sent: nat, recovers: bool)
    returns (more: seq<Event>)
    requires ValidConfig(c) && Legal(c, es) && Enabled(c, After(c, es), ClaimBatch(sid, {}, ids))
    requires ids != [] && sent <= |ids|
    ensures more == es + RoundEvents(sid, ids, sent, recovers) && Legal(c, more)
    ensures var s, t, sw := After(c, es), After(c, more), After(c, es).sweeps[sid];
            && t.clock == s.clock
            && t.tables == s.tables.(monitors :=
                 Sweep.PhaseTable(s.tables.monitors, sw.schedule, SetOf(ids[..sent]), SetOf(ids[sent..]), sw.now, recovers))
            && t.log == s.log + Entries(sw.schedule, sw.now, s.clock, Take(BatchOf(s.tables.monitors, sw.schedule, ids), sent))
            && t.sweeps == Put(s.sweeps, sid, if sent < |ids| then EndHalf(c, sw) else EndRound(c, sw.(left := sw.left - 1)))
  {
    hide *;
    var s := After(c, es);
    MayClaim(c, s, sid, ids);
    var sw, t := s.sweeps[sid], s.tables.monitors;
    var claimed := DoClaim(c, es, sid, ids);
    var batch := BatchOf(t, sw.schedule, ids);
    SplitTable(t, sw.schedule, ids, sent, sw.now, recovers);
    TakeIsPrefix(batch, sent);
    var run := sw.(left := sw.left - 1, stage := Publishing(batch));
    SameRunAgain(c, s.sweeps, sid, sw, run);
    InHandOf(run, batch);
    if sent < |ids| {
      more := PublishSome(c, claimed, sid, sent, recovers);
      SameIds(batch[sent..], ids[sent..]);
      SomeEvents(es, sid, ids, sent, recovers);
    } else {
      more := PublishAll(c, claimed, sid);
      AllEvents(es, sid, ids, recovers);
      Whole(batch);
    }
  }

  lemma MayClaim(c: Config, s: State, sid: nat, ids: seq<Id>)
    requires Enabled(c, s, ClaimBatch(sid, {}, ids))
    ensures sid in s.sweeps && s.sweeps[sid].left > 0 && s.sweeps[sid].stage.Claiming?
  {
  }

  lemma TakeIsPrefix(items: seq<Claim>, n: nat)
    requires n <= |items|
    ensures Take(items, n) == items[..n]
  {
  }

  lemma Whole(items: seq<Claim>)
    ensures items[..|items|] == items
  {
  }

  lemma InHandOf(run: SweepRun, batch: seq<Claim>)
    requires run.stage == Publishing(batch)
    ensures InHand(run) == batch
  {
  }

  lemma SameRunAgain(c: Config, sweeps: map<nat, SweepRun>, sid: nat, sw: SweepRun, run: SweepRun)
    requires sid in sweeps && sweeps[sid] == sw && run.now == sw.now && run.schedule == sw.schedule && run.left == sw.left - 1
    ensures Put(sweeps[sid := run], sid, EndHalf(c, run)) == Put(sweeps, sid, EndHalf(c, sw))
    ensures sw.stage.Claiming? ==>
              Put(sweeps[sid := run], sid, EndRound(c, run)) == Put(sweeps, sid, EndRound(c, sw.(left := run.left)))
  {
  }

  lemma SomeEvents(es: seq<Event>, sid: nat, ids: seq<Id>, sent: nat, recovers: bool)
    requires sent < |ids|
    ensures es + [ClaimBatch(sid, {}, ids)] + Publishes(sid, sent) + [PublishNext(sid, false), RecoverBatch(sid, recovers)]
            == es + RoundEvents(sid, ids, sent, recovers)
  {
    assert RoundEvents(sid, ids, sent, recovers)
        == [ClaimBatch(sid, {}, ids)] + Publishes(sid, sent) + [PublishNext(sid, false), RecoverBatch(sid, recovers)];
  }

  lemma AllEvents(es: seq<Event>, sid: nat, ids: seq<Id>, recovers: bool)
    ensures es + [ClaimBatch(sid, {}, ids)] + Publishes(sid, |ids|) == es + RoundEvents(sid, ids, |ids|, recovers)
  {
    assert RoundEvents(sid, ids, |ids|, recovers) == [ClaimBatch(sid, {}, ids)] + Publishes(sid, |ids|);
  }

  /** The whole batch is delivered. */
  lemma PublishAll(c: Config, es: seq<Event>, sid: nat) returns (more: seq<Event>)
    requires Legal(c, es) && sid in After(c, es).sweeps && After(c, es).sweeps[sid].stage.Publishing?
    requires InHand(After(c, es).sweeps[sid]) != []
    ensures more == es + Publishes(sid, |InHand(After(c, es).sweeps[sid])|) && Legal(c, more)
    ensures var s, t, sw := After(c, es), After(c, more), After(c, es).sweeps[sid];
            && t.tables == s.tables && t.clock == s.clock
            && t.log == s.log + Entries(sw.schedule, sw.now, s.clock, InHand(sw))
            && t.sweeps == Put(s.sweeps, sid, EndRound(c, sw))
  {
    hide Legal, After, Apply, Enabled;
    var s := After(c, es);
    var sw := s.sweeps[sid];
    var queue := InHand(sw);
    var n := |queue|;
    var almost := PublishMany(c, es, sid, n - 1);
    assert queue[n - 1..] == [queue[n - 1]];
    more := PublishLast(c, almost, sid);
    assert Publishes(sid, n) == Publishes(sid, n - 1) + [PublishNext(sid, true)];
    assert queue[..n] == queue;
    OneMoreEntry(sw.schedule, sw.now, s.clock, queue, n);
  }

  /** The first `n` claims are delivered; the next publish raises and the recovery follows. */
  lemma PublishSome(c: Config, es: seq<Event>, sid: nat, n: nat, recovers: bool) returns (more: seq<Event>)
    requires Legal(c, es) && sid in After(c, es).sweeps && After(c, es).sweeps[sid].stage.Publishing?
    requires n < |InHand(After(c, es).sweeps[sid])|
    ensures more == es + Publishes(sid, n) + [PublishNext(sid, false), RecoverBatch(sid, recovers)] && Legal(c, more)
    ensures var s, t, sw := After(c, es), After(c, more), After(c, es).sweeps[sid];
            && t.clock == s.clock
            && t.tables == (if recovers then
                 s.tables.(monitors := Reset(s.tables.monitors, sw.schedule, ClaimIds(InHand(sw)[n..]), sw.now)) else s.tables)
            && t.log == s.log + Entries(sw.schedule, sw.now, s.clock, InHand(sw)[..n])
            && t.sweeps == Put(s.sweeps, sid, EndHalf(c, sw))
  {
    hide Legal, After, Apply, Enabled, Reset;
    var published := PublishMany(c, es, sid, n);
    more := FailAndRecover(c, published, sid, recovers);
  }

  lemma PublishLast(c: Config, es: seq<Event>, sid: nat) returns (more: seq<Event>)
    requires Legal(c, es) && sid in After(c, es).sweeps && After(c, es).sweeps[sid].stage.Publishing?
    requires |InHand(After(c, es).sweeps[sid])| == 1
    ensures more == es + [PublishNext(sid, true)] && Legal(c, more)
    ensures After(c, more).tables == After(c, es).tables && After(c, more).clock == After(c, es).clock
    ensures var s, sw := After(c, es), After(c, es).sweeps[sid];
            var item := InHand(sw)[0];
            && After(c, more).log == s.log + [Publish(sw.schedule, item.id, sw.now, item.interval, item.due, s.clock)]
            && After(c, more).sweeps == Put(s.sweeps, sid, EndRound(c, sw))
  {
    more := DoPublish(c, es, sid, true);
  }

  lemma SameIds(items: seq<Claim>, ids: seq<Id>)
    requires |items| == |ids| && forall i :: 0 <= i < |ids| ==> items[i].id == ids[i]
    ensures ClaimIds(items) == SetOf(ids)
  {
    assert forall i :: 0 <= i < |ids| ==> items[i] in items;
  }

  lemma FailAndRecover(c: Config, es: seq<Event>, sid: nat, recovers: bool) returns (more: seq<Event>)
    requires Legal(c, es) && sid in After(c, es).sweeps && After(c, es).sweeps[sid].stage.Publishing?
    requires InHand(After(c, es).sweeps[sid]) != []
    ensures more == es + [PublishNext(sid, false), RecoverBatch(sid, recovers)] && Legal(c, more)
    ensures After(c, more).log == After(c, es).log && After(c, more).clock == After(c, es).clock
    ensures var s, sw := After(c, es), After(c, es).sweeps[sid];
            && After(c, more).tables == (if recovers then
                s.tables.(monitors := Reset(s.tables.monitors, sw.schedule, ClaimIds(InHand(sw)), sw.now)) else s.tables)
            && After(c, more).sweeps == Put(s.sweeps, sid, EndHalf(c, sw))
  {
    hide Legal, After, Apply, Reset;
    var failed := DoPublish(c, es, sid, false);
    more := DoRecover(c, failed, sid, recovers);
  }

  lemma SplitTable(t: Table, k: Schedule, ids: seq<Id>, sent: nat, now: Time, recovers: bool)
    requires sent <= |ids| && NoDuplicates(ids)
    ensures var advanced := Advance(t, k, SetOf(ids), now);
            Sweep.PhaseTable(t, k, SetOf(ids[..sent]), SetOf(ids[sent..]), now, recovers)
            == if recovers && sent < |ids| then Reset(advanced, k, SetOf(ids[sent..]), now) else advanced
  {
    assert ids == ids[..sent] + ids[sent..];
    Sweep.SplitDisjoint(ids[..sent], ids[sent..]);
    assert SetOf(ids) == SetOf(ids[..sent]) + SetOf(ids[sent..]);
    assert sent < |ids| ==> ids[sent] in SetOf(ids[sent..]);
    hide Advance, Reset, Sweep.PhaseTable;
    Sweep.PhaseOfSets(t, k, SetOf(ids[..sent]), SetOf(ids[sent..]), now, recovers);
  }
}
