/** A sweep of the step machine that nothing interrupts, step by step, is a sweep of the loops in `Sweep`. */
module WholeSweep {
  import opened Common
  import opened Monitors
  import opened Db
  import opened Claims
  import Sweep
  import opened Scheduler
  import opened Safety
  import opened Dispatch

  /** A step that sweep `sid` takes, with no row locked by anyone else. */
  predicate Own(sid: nat, e: Event) {
    || (e.ClaimBatch? && e.sid == sid && e.locked == {})
    || (e.PublishNext? && e.sid == sid)
    || (e.RecoverBatch? && e.sid == sid)
  }

  /** The sweep starts right after `es`, and all later events are its own. */
  ghost predicate RunsAlone(c: Config, es: seq<Event>, sid: nat, more: seq<Event>) {
    && Legal(c, more) && es < more && more[|es|] == StartSweep(sid)
    && forall i :: |es| < i < |more| ==> Own(sid, more[i])
  }

  /** The messages published from position `from` on. */
  function Sent(log: seq<Publish>, from: nat): (ms: seq<Sweep.Message>)
    requires from <= |log|
    ensures |ms| == |log| - from
  {
    seq(|log| - from, i requires 0 <= i < |log| - from =>
      Sweep.Message(log[from + i].schedule, log[from + i].id, log[from + i].interval))
  }

  function ItemsOf(queue: seq<Claim>): (items: seq<Sweep.Item>)
    ensures |items| == |queue|
    ensures forall i :: 0 <= i < |queue| ==> items[i] == Sweep.Item(queue[i].id, queue[i].interval)
  {
    seq(|queue|, i requires 0 <= i < |queue| => Sweep.Item(queue[i].id, queue[i].interval))
  }

  /** The first `n` publish attempts are delivered, and no others. */
  function FirstSent(n: nat): nat -> bool {
    (a: nat) => a < n
  }

  ghost predicate HalfDone(c: Config, k: Schedule, before: Table, now: Time, recovers: bool, log: Sweep.PhaseLog, after: Table) {
    Sweep.PhaseDone(k, before, now, c.batchSize, c.maxBatches, FirstSent(|log.published|), recovers, log, after)
  }

  // ----- Within one half -----

  /** What the sweep's record says about the loop: before a claim, or in the middle of a batch. */
  ghost predicate StageAgrees(c: Config, k: Schedule, now: Time, sw: SweepRun, current: Table, end: Sweep.LoopEnd) {
    match sw.stage
    case Claiming =>
      end.rounds + sw.left == c.maxBatches && sw.left > 0 && end.batch == [] && end.sent == 0 && current == end.current
    case _ =>
      && end.rounds + sw.left + 1 == c.maxBatches
      && Sweep.Claimed(k, end.current, now, c.batchSize, end.batch)
      && end.sent < |end.batch| && ItemsOf(InHand(sw)) == end.batch[end.sent..]
      && current == Advance(end.current, k, SetOf(Sweep.Ids(end.batch)), now)
  }

  ghost predicate InHalf(c: Config, k: Schedule, before: Table, sent: seq<Sweep.Message>, from: nat, now: Time,
                         s: State, sid: nat, end: Sweep.LoopEnd)
  {
    && sid in s.sweeps && s.sweeps[sid].schedule == k && s.sweeps[sid].now == now
    && Sweep.Progress(before, k, now, Sweep.Capacity(c.batchSize, end.rounds), end.published, end.current)
    && StageAgrees(c, k, now, s.sweeps[sid], s.tables.monitors, end)
    && from <= |s.log| && end.sent <= |end.batch|
    && Sent(s.log, from) == sent + Sweep.Messages(k, end.published + end.batch[..end.sent])
  }

  /** The half has ended. */
  ghost predicate HalfEnded(c: Config, k: Schedule, before: Table, sent: seq<Sweep.Message>, from: nat, now: Time,
                            s: State, sid: nat, t: State, recovers: bool, log: Sweep.PhaseLog)
  {
    && HalfDone(c, k, before, now, recovers, log, t.tables.monitors)
    && from <= |t.log| && Sent(t.log, from) == sent + Sweep.Messages(k, log.published)
    && sid in s.sweeps && t.sweeps == Put(s.sweeps, sid, EndHalf(c, s.sweeps[sid]))
  }

  datatype HalfStep = Goes(end: Sweep.LoopEnd) | Ends(recovers: bool, log: Sweep.PhaseLog)

  ghost predicate HalfStepped(c: Config, k: Schedule, before: Table, sent: seq<Sweep.Message>, from: nat, now: Time,
                              s: State, sid: nat, t: State, h: HalfStep)
  {
    match h
    case Goes(end) => InHalf(c, k, before, sent, from, now, t, sid, end)
    case Ends(recovers, log) => HalfEnded(c, k, before, sent, from, now, s, sid, t, recovers, log)
  }

  lemma OneMoreSent(log: seq<Publish>, from: nat, e: Publish)
    requires from <= |log|
    ensures Sent(log + [e], from) == Sent(log, from) + [Sweep.Message(e.schedule, e.id, e.interval)]
  {
  }

  /** Nothing is due: the half ends with what it has published. */
  lemma EmptyClaim(c: Config, k: Schedule, before: Table, sent: seq<Sweep.Message>, from: nat, now: Time,
                   s: State, sid: nat, end: Sweep.LoopEnd) returns (h: HalfStep)
    requires InHalf(c, k, before, sent, from, now, s, sid, end) && Enabled(c, s, ClaimBatch(sid, {}, []))
    ensures HalfStepped(c, k, before, sent, from, now, s, sid, ApplyClaim(c, s, sid, []), h)
  {
    hide Sweep.Progress, Sweep.PhaseTable, Sweep.PhaseDone, EarliestFirst, Advance;
    assert Sweep.Claimed(k, end.current, now, c.batchSize, []) by {
      NothingClaimed(end.current, k, now, c.batchSize);
    }
    h := Finished(c, k, before, now, end, true, s.tables.monitors);
  }

  lemma NothingClaimed(t: Table, k: Schedule, now: Time, limit: nat)
    requires EarliestFirst(t, k, DueIds(t, k, now) - {}, limit, [])
    ensures Sweep.Claimed(k, t, now, limit, [])
  {
    assert DueIds(t, k, now) - {} == DueIds(t, k, now);
    assert Sweep.Ids([]) == [];
  }

  /** The rounds stop between two batches. */
  lemma Finished(c: Config, k: Schedule, before: Table, now: Time, end: Sweep.LoopEnd, recovers: bool, after: Table)
    returns (h: HalfStep)
    requires end.rounds <= c.maxBatches && end.batch == [] && end.sent == 0 && after == end.current
    requires Sweep.Progress(before, k, now, Sweep.Capacity(c.batchSize, end.rounds), end.published, end.current)
    requires end.rounds < c.maxBatches ==> Sweep.Claimed(k, end.current, now, c.batchSize, [])
    ensures h.Ends? && h.recovers == recovers && h.log.published == end.published
    ensures HalfDone(c, k, before, now, recovers, h.log, after)
  {
    hide Sweep.Progress, Sweep.PhaseTable, Sweep.PhaseDone, Sweep.Claimed;
    Sweep.NothingLeftToDo(end.current, k, now, recovers);
    Sweep.StoppedIsDone(k, before, now, c.batchSize, c.maxBatches, FirstSent(|end.published|), recovers, end, after);
    h := Ends(recovers, Sweep.LogOf(end));
    assert h.log.published == end.published + [] == end.published;
  }

  /** A claim puts a whole batch into the sweep's hands. */
  lemma FullClaim(c: Config, k: Schedule, before: Table, sent: seq<Sweep.Message>, from: nat, now: Time,
                  s: State, sid: nat, end: Sweep.LoopEnd, ids: seq<Id>) returns (h: HalfStep)
    requires InHalf(c, k, before, sent, from, now, s, sid, end) && StoreOk(c, s)
    requires Enabled(c, s, ClaimBatch(sid, {}, ids)) && ids != []
    ensures HalfStepped(c, k, before, sent, from, now, s, sid, ApplyClaim(c, s, sid, ids), h)
  {
    hide Sweep.Progress, StoreOk, Sweep.Claimed, Advance;
    var batch := ItemsOf(BatchOf(end.current, k, ids));
    ClaimIsClaimed(c, s, sid, ids);
    h := Goes(end.(batch := batch));
    assert batch[0..] == batch;
    assert end.published + [] == end.published + batch[..0];
  }

  lemma ClaimIsClaimed(c: Config, s: State, sid: nat, ids: seq<Id>)
    requires StoreOk(c, s) && Enabled(c, s, ClaimBatch(sid, {}, ids))
    ensures var sw, t := s.sweeps[sid], s.tables.monitors;
            var batch := BatchOf(t, sw.schedule, ids);
            && |batch| == |ids|
            && Sweep.Claimed(sw.schedule, t, sw.now, c.batchSize, ItemsOf(batch))
            && ClaimIds(batch) == SetOf(Sweep.Ids(ItemsOf(batch)))
  {
    var sw, t := s.sweeps[sid], s.tables.monitors;
    NothingSkipped(c, s, sid, {}, ids);
    BatchOfValid(t, sw.schedule, sw.now, ids);
    assert Sweep.Ids(ItemsOf(BatchOf(t, sw.schedule, ids))) == ids;
    assert DueIds(t, sw.schedule, sw.now) - {} == DueIds(t, sw.schedule, sw.now);
  }

  /** A delivered publish, in the middle or at the end of the batch. */
  lemma Delivered(c: Config, k: Schedule, before: Table, sent: seq<Sweep.Message>, from: nat, now: Time,
                  s: State, sid: nat, end: Sweep.LoopEnd) returns (h: HalfStep)
    requires InHalf(c, k, before, sent, from, now, s, sid, end) && Enabled(c, s, PublishNext(sid, true))
    ensures HalfStepped(c, k, before, sent, from, now, s, sid, ApplyPublish(c, s, sid, true), h)
  {
    hide Sweep.Progress, Sweep.Claimed, Advance, Sweep.PhaseDone;
    var t := ApplyPublish(c, s, sid, true);
    var queue := s.sweeps[sid].stage.queue;
    var next := end.(sent := end.sent + 1);
    assert ItemsOf(queue)[0] == end.batch[end.sent];
    OneMoreSent(s.log, from, t.log[|s.log|]);
    OneMoreMessage(k, sent, end);
    if |queue| > 1 {
      h := Goes(next);
      assert ItemsOf(queue[1..]) == ItemsOf(queue)[1..] == end.batch[next.sent..];
    } else {
      assert next.sent == |end.batch|;
      h := BatchPublished(c, k, before, sent, from, now, s, sid, end, t);
    }
  }

  lemma OneMoreMessage(k: Schedule, sent: seq<Sweep.Message>, end: Sweep.LoopEnd)
    requires end.sent < |end.batch|
    ensures var item := end.batch[end.sent];
            sent + Sweep.Messages(k, end.published + end.batch[..end.sent + 1])
            == sent + Sweep.Messages(k, end.published + end.batch[..end.sent]) + [Sweep.Message(k, item.id, item.interval)]
  {
    assert end.batch[..end.sent + 1] == end.batch[..end.sent] + [end.batch[end.sent]];
  }

  /** The last publish of a batch: the next round begins, or the round limit ends the half. */
  lemma BatchPublished(c: Config, k: Schedule, before: Table, sent: seq<Sweep.Message>, from: nat, now: Time,
                       s: State, sid: nat, end: Sweep.LoopEnd, t: State) returns (h: HalfStep)
    requires InHalf(c, k, before, sent, from, now, s, sid, end) && s.sweeps[sid].stage.Publishing?
    requires t.tables == s.tables && from <= |t.log|
    requires Sent(t.log, from) == sent + Sweep.Messages(k, end.published + end.batch[..|end.batch|])
    requires t.sweeps == Put(s.sweeps, sid, EndRound(c, s.sweeps[sid]))
    ensures HalfStepped(c, k, before, sent, from, now, s, sid, t, h)
  {
    hide Sweep.Progress, Sweep.Claimed, Advance, Sweep.PhaseDone, Sweep.PhaseTable;
    var current := s.tables.monitors;
    assert end.batch[..|end.batch|] == end.batch;
    RoundOver(before, k, now, c.batchSize, end, current);
    var next := Sweep.LoopEnd(end.rounds + 1, end.published + end.batch, current, [], 0);
    assert next.published + next.batch[..0] == next.published;
    if s.sweeps[sid].left > 0 {
      h := Goes(next);
    } else {
      h := Finished(c, k, before, now, next, true, current);
    }
  }

  lemma RoundOver(before: Table, k: Schedule, now: Time, batchSize: nat, end: Sweep.LoopEnd, current: Table)
    requires Sweep.Progress(before, k, now, Sweep.Capacity(batchSize, end.rounds), end.published, end.current)
    requires Sweep.Claimed(k, end.current, now, batchSize, end.batch)
    requires current == Advance(end.current, k, SetOf(Sweep.Ids(end.batch)), now)
    ensures Sweep.Progress(before, k, now, Sweep.Capacity(batchSize, end.rounds + 1), end.published + end.batch, current)
  {
    hide Sweep.Progress;
    Sweep.RoundExtends(before, k, now, batchSize, Sweep.Capacity(batchSize, end.rounds), end.published, end.current, end.batch);
  }

  /** The recovery ends the half, whether it commits or not. */
  lemma Recovered(c: Config, k: Schedule, before: Table, sent: seq<Sweep.Message>, from: nat, now: Time,
                  s: State, sid: nat, end: Sweep.LoopEnd, committed: bool) returns (h: HalfStep)
    requires InHalf(c, k, before, sent, from, now, s, sid, end) && Enabled(c, s, RecoverBatch(sid, committed))
    ensures HalfStepped(c, k, before, sent, from, now, s, sid, ApplyRecover(c, s, sid, committed), h)
  {
    hide Sweep.Progress, Advance, Reset, Sweep.PhaseDone, Sweep.PhaseTable, EarliestFirst, Sweep.Recorded;
    var t := ApplyRecover(c, s, sid, committed);
    var sends := FirstSent(|end.published| + end.sent);
    RecoveredTable(c, k, now, s, sid, end, committed);
    Sweep.StoppedIsDone(k, before, now, c.batchSize, c.maxBatches, sends, committed, end, t.tables.monitors);
    h := Ends(committed, Sweep.LogOf(end));
  }

  lemma RecoveredTable(c: Config, k: Schedule, now: Time, s: State, sid: nat, end: Sweep.LoopEnd, committed: bool)
    requires Enabled(c, s, RecoverBatch(sid, committed)) && s.sweeps[sid].schedule == k && s.sweeps[sid].now == now
    requires StageAgrees(c, k, now, s.sweeps[sid], s.tables.monitors, end)
    ensures ApplyRecover(c, s, sid, committed).tables.monitors
            == Sweep.PhaseTable(end.current, k, SetOf(Sweep.Ids(end.batch[..end.sent])), SetOf(Sweep.Ids(end.batch[end.sent..])),
                                now, committed)
  {
    hide Advance, Reset, Sweep.PhaseTable, DueIds, NoneEarlier, Sweep.Recorded;
    var rest := end.batch[end.sent..];
    assert ClaimIds(s.sweeps[sid].stage.queue) == SetOf(Sweep.Ids(rest)) by {
      SameIds(s.sweeps[sid].stage.queue);
    }
    Sweep.PhaseOfBatch(end.current, k, end.batch, end.sent, now, committed);
  }

  lemma SameIds(queue: seq<Claim>)
    ensures ClaimIds(queue) == SetOf(Sweep.Ids(ItemsOf(queue)))
  {
    assert forall i :: 0 <= i < |queue| ==> Sweep.Ids(ItemsOf(queue))[i] == queue[i].id && queue[i] in queue;
  }

  /** A publish that raises leaves the rest of the batch to the recovery. */
  lemma Undelivered(c: Config, k: Schedule, before: Table, sent: seq<Sweep.Message>, from: nat, now: Time,
                    s: State, sid: nat, end: Sweep.LoopEnd) returns (h: HalfStep)
    requires InHalf(c, k, before, sent, from, now, s, sid, end) && Enabled(c, s, PublishNext(sid, false))
    ensures HalfStepped(c, k, before, sent, from, now, s, sid, ApplyPublish(c, s, sid, false), h)
  {
    hide Sweep.Progress, Sweep.Claimed, Advance;
    h := Goes(end);
  }

  /** One step of the sweep, whichever it is. */
  lemma StepInHalf(c: Config, k: Schedule, before: Table, sent: seq<Sweep.Message>, from: nat, now: Time,
                   s: State, sid: nat, end: Sweep.LoopEnd, e: Event) returns (h: HalfStep)
    requires InHalf(c, k, before, sent, from, now, s, sid, end) && StoreOk(c, s)
    requires Own(sid, e) && Enabled(c, s, e)
    ensures HalfStepped(c, k, before, sent, from, now, s, sid, Apply(c, s, e), h)
  {
    hide InHalf, HalfStepped, StoreOk, ApplyClaim, ApplyPublish, ApplyRecover;
    match e
    case ClaimBatch(_, _, ids) =>
      if ids == [] {
        h := EmptyClaim(c, k, before, sent, from, now, s, sid, end);
      } else {
        h := FullClaim(c, k, before, sent, from, now, s, sid, end, ids);
      }
    case PublishNext(_, delivered) =>
      if delivered {
        h := Delivered(c, k, before, sent, from, now, s, sid, end);
      } else {
        h := Undelivered(c, k, before, sent, from, now, s, sid, end);
      }
    case RecoverBatch(_, committed) =>
      h := Recovered(c, k, before, sent, from, now, s, sid, end, committed);
  }

  // ----- Both halves -----

  /** Where the sweep stands: in its first half, in its second, or at its end. */
  datatype Stand =
    | First(end: Sweep.LoopEnd)
    | Second(recovered: bool, health: Sweep.PhaseLog, between: Table, end: Sweep.LoopEnd)
    | Over(recovered: bool, health: Sweep.PhaseLog, between: Table, recoveredToo: bool, activity: Sweep.PhaseLog)

  /** `start` is the state the sweep found. */
  ghost predicate StandsAt(c: Config, start: State, sid: nat, s: State, w: Stand) {
    var before, now, from := start.tables.monitors, start.clock, |start.log|;
    match w
    case First(end) => InHalf(c, Health, before, [], from, now, s, sid, end)
    case Second(recovered, health, between, end) =>
      && HalfDone(c, Health, before, now, recovered, health, between)
      && InHalf(c, Activity, between, Sweep.Messages(Health, health.published), from, now, s, sid, end)
    case Over(recovered, health, between, recoveredToo, activity) =>
      && HalfDone(c, Health, before, now, recovered, health, between)
      && HalfDone(c, Activity, between, now, recoveredToo, activity, s.tables.monitors)
      && from <= |s.log|
      && Sent(s.log, from) == Sweep.Messages(Health, health.published) + Sweep.Messages(Activity, activity.published)
      && sid !in s.sweeps
  }

  /** What the sweep's own steps leave alone. */
  ghost predicate Elsewhere(s: State, sid: nat, t: State) {
    && t.clock == s.clock && t.tables.results == s.tables.results && t.nextId == s.nextId
    && t.creating == s.creating && t.sweeps - {sid} == s.sweeps - {sid}
  }

  lemma OwnStepElsewhere(c: Config, s: State, sid: nat, e: Event)
    requires Own(sid, e) && Enabled(c, s, e)
    ensures Elsewhere(s, sid, Apply(c, s, e))
  {
    hide EarliestFirst, BatchOf, Advance, Reset;
  }

  lemma HalfBegins(c: Config, k: Schedule, sent: seq<Sweep.Message>, from: nat, s: State, sid: nat)
    requires ValidConfig(c) && TableOk(s.tables.monitors) && sid in s.sweeps
    requires s.sweeps[sid].schedule == k && s.sweeps[sid].stage.Claiming? && s.sweeps[sid].left == c.maxBatches
    requires from <= |s.log| && Sent(s.log, from) == sent
    ensures InHalf(c, k, s.tables.monitors, sent, from, s.sweeps[sid].now, s, sid, Sweep.LoopEnd(0, [], s.tables.monitors, [], 0))
  {
    hide TableOk, Sweep.Progress;
    Sweep.NothingClaimedYet(s.tables.monitors, k, s.sweeps[sid].now);
    assert sent + Sweep.Messages(k, []) == sent;
  }

  /** One more step of the sweep's own. */
  lemma StepOfSweep(c: Config, start: State, sid: nat, s: State, w: Stand, e: Event) returns (v: Stand)
    requires ValidConfig(c) && Own(sid, e) && Enabled(c, s, e)
    requires StandsAt(c, start, sid, s, w) && StoreOk(c, s) && StoreOk(c, Apply(c, s, e))
    ensures StandsAt(c, start, sid, Apply(c, s, e), v)
  {
    hide InHalf, HalfDone, Enabled, Apply, StoreOk;
    var t := Apply(c, s, e);
    match w
    case First(end) =>
      var h := StepInHalf(c, Health, start.tables.monitors, [], |start.log|, start.clock, s, sid, end, e);
      if h.Goes? {
        v := First(h.end);
      } else {
        v := SecondHalf(c, start, sid, s, end, t, h);
      }
    case Second(recovered, health, between, end) =>
      var sent := Sweep.Messages(Health, health.published);
      var h := StepInHalf(c, Activity, between, sent, |start.log|, start.clock, s, sid, end, e);
      if h.Goes? {
        v := Second(recovered, health, between, h.end);
      } else {
        v := Over(recovered, health, between, h.recovers, h.log);
        IsOver(c, between, sent, |start.log|, start.clock, s, sid, end, t, h);
      }
    case Over(_, _, _, _, _) =>
      OverIsOver(c, s, sid, e);
  }

  lemma OverIsOver(c: Config, s: State, sid: nat, e: Event)
    requires Own(sid, e) && Enabled(c, s, e)
    ensures sid in s.sweeps
  {
  }

  lemma IsOver(c: Config, between: Table, sent: seq<Sweep.Message>, from: nat, now: Time, s: State, sid: nat,
               end: Sweep.LoopEnd, t: State, h: HalfStep)
    requires InHalf(c, Activity, between, sent, from, now, s, sid, end)
    requires h.Ends? && HalfStepped(c, Activity, between, sent, from, now, s, sid, t, h)
    ensures sid !in t.sweeps && HalfDone(c, Activity, between, now, h.recovers, h.log, t.tables.monitors)
    ensures from <= |t.log| && Sent(t.log, from) == sent + Sweep.Messages(Activity, h.log.published)
  {
    hide HalfDone, Sweep.Progress, StageAgrees;
  }

  lemma SecondHalf(c: Config, start: State, sid: nat, s: State, end: Sweep.LoopEnd, t: State, h: HalfStep) returns (v: Stand)
    requires ValidConfig(c) && StoreOk(c, t)
    requires InHalf(c, Health, start.tables.monitors, [], |start.log|, start.clock, s, sid, end)
    requires h.Ends? && HalfStepped(c, Health, start.tables.monitors, [], |start.log|, start.clock, s, sid, t, h)
    ensures StandsAt(c, start, sid, t, v)
  {
    hide HalfDone, Sweep.Progress, StageAgrees, TableOk;
    var sent := Sweep.Messages(Health, h.log.published);
    assert [] + sent == sent;
    HalfBegins(c, Activity, sent, |start.log|, t, sid);
    v := Second(h.recovers, h.log, t.tables.monitors, Sweep.LoopEnd(0, [], t.tables.monitors, [], 0));
  }

  lemma {:induction false} StepsOfSweep(c: Config, es: seq<Event>, sid: nat, more: seq<Event>) returns (w: Stand)
    requires ValidConfig(c) && Legal(c, es) && RunsAlone(c, es, sid, more)
    ensures StandsAt(c, After(c, es), sid, After(c, more), w) && Elsewhere(After(c, es), sid, After(c, more))
    decreases |more|
  {
    hide StandsAt, Apply, StoreOk;
    var before, last := more[..|more| - 1], more[|more| - 1];
    ReachableOk(c, before);
    ReachableOk(c, more);
    if |more| == |es| + 1 {
      assert before == es;
      w := SweepStarts(c, After(c, es), sid);
    } else {
      var v := StepsOfSweep(c, es, sid, before);
      w := StepOfSweep(c, After(c, es), sid, After(c, before), v, last);
      OwnStepElsewhere(c, After(c, before), sid, last);
    }
  }

  lemma SweepStarts(c: Config, s: State, sid: nat) returns (w: Stand)
    requires ValidConfig(c) && Enabled(c, s, StartSweep(sid)) && StoreOk(c, Apply(c, s, StartSweep(sid)))
    ensures StandsAt(c, s, sid, Apply(c, s, StartSweep(sid)), w)
    ensures Elsewhere(s, sid, Apply(c, s, StartSweep(sid)))
  {
    hide InHalf, TableOk;
    var t := Apply(c, s, StartSweep(sid));
    HalfBegins(c, Health, [], |s.log|, t, sid);
    w := First(Sweep.LoopEnd(0, [], t.tables.monitors, [], 0));
  }

  /** For each schedule, how many publishes of its half were delivered. */
  function Delivering(health: nat, activity: nat): Schedule -> nat -> bool {
    (k: Schedule) => FirstSent(if k.Health? then health else activity)
  }

  function Recovering(health: bool, activity: bool): Schedule -> bool {
    (k: Schedule) => if k.Health? then health else activity
  }

  /** A sweep whose steps nothing interrupts changes the table, and publishes, as the loops of the sweep do for some
      pattern of publish and recovery failures, and it changes nothing else. */
  lemma UninterruptedSweep(c: Config, es: seq<Event>, sid: nat, more: seq<Event>)
    returns (sends: Schedule -> nat -> bool, recovers: Schedule -> bool, health: Sweep.PhaseLog, activity: Sweep.PhaseLog)
    requires ValidConfig(c) && Legal(c, es) && RunsAlone(c, es, sid, more) && sid !in After(c, more).sweeps
    ensures var s, t := After(c, es), After(c, more);
            && Sweep.SweepDone(s.tables.monitors, s.clock, c.batchSize, c.maxBatches, sends, recovers, health, activity,
                               t.tables.monitors)
            && |s.log| <= |t.log|
            && Sent(t.log, |s.log|) == Sweep.Messages(Health, health.published) + Sweep.Messages(Activity, activity.published)
            && Elsewhere(s, sid, t)
  {
    hide Apply, Enabled, Sweep.PhaseDone, StageAgrees, Sweep.Progress;
    var w := StepsOfSweep(c, es, sid, more);
    assert w.Over?;
    health, activity := w.health, w.activity;
    sends := Delivering(|health.published|, |activity.published|);
    recovers := Recovering(w.recovered, w.recoveredToo);
    HalvesMakeSweep(c, After(c, es).tables.monitors, After(c, es).clock, w, After(c, more).tables.monitors);
  }

  lemma HalvesMakeSweep(c: Config, before: Table, now: Time, w: Stand, after: Table)
    requires w.Over? && HalfDone(c, Health, before, now, w.recovered, w.health, w.between)
    requires HalfDone(c, Activity, w.between, now, w.recoveredToo, w.activity, after)
    ensures Sweep.SweepDone(before, now, c.batchSize, c.maxBatches, Delivering(|w.health.published|, |w.activity.published|),
                            Recovering(w.recovered, w.recoveredToo), w.health, w.activity, after)
  {
    hide Sweep.PhaseDone;
    var sends := Delivering(|w.health.published|, |w.activity.published|);
    var recovers := Recovering(w.recovered, w.recoveredToo);
    assert sends(Health) == FirstSent(|w.health.published|) && sends(Activity) == FirstSent(|w.activity.published|);
    assert Sweep.PhaseDone(Health, before, now, c.batchSize, c.maxBatches, sends(Health), recovers(Health), w.health, w.between);
  }
}
