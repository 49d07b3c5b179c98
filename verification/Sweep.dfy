/** The due sweep run on its own: claim, commit, publish, and recover from a broker failure (app/tasks.py). */
module Sweep {
  import opened Common
  import opened Monitors
  import opened Db
  import opened Claims

  /** What a claim records about a monitor: the interval it was advanced by is also the expiry of its message. */
  datatype Item = Item(id: Id, interval: int)

  datatype Message = Message(schedule: Schedule, id: Id, expires: int)

  class Broker {
    var messages: seq<Message>

    constructor ()
      ensures messages == []
    {
      messages := [];
    }

    /** `apply_async`: it delivers or it raises. */
    method ApplyAsync(m: Message, up: bool) returns (ok: bool)
      modifies this
      ensures ok == up
      ensures messages == if up then old(messages) + [m] else old(messages)
    {
      if up {
        messages := messages + [m];
      }
      ok := up;
    }
  }

  function Ids(items: seq<Item>): (ids: seq<Id>)
    ensures |ids| == |items|
    ensures forall i :: 0 <= i < |items| ==> ids[i] == items[i].id
  {
    seq(|items|, i requires 0 <= i < |items| => items[i].id)
  }

  function Messages(k: Schedule, items: seq<Item>): (ms: seq<Message>)
    ensures |ms| == |items|
  {
    seq(|items|, i requires 0 <= i < |items| => Message(k, items[i].id, items[i].interval))
  }

  /** The recorded intervals are the ones stored when the rows were claimed. */
  ghost predicate Recorded(t: Table, k: Schedule, items: seq<Item>) {
    forall i :: 0 <= i < |items| ==> items[i].id in t && Interval(k, t[items[i].id]) == Some(items[i].interval)
  }

  /** The first `n` publish attempts are all delivered. */
  ghost predicate AllSent(sends: nat -> bool, n: nat) {
    forall a :: 0 <= a < n ==> sends(a)
  }

  /** What one schedule's half of a sweep did. */
  datatype PhaseLog = PhaseLog(published: seq<Item>, failed: seq<Item>, rounds: nat)

  function Published(log: PhaseLog): set<Id> { SetOf(Ids(log.published)) }
  function Failed(log: PhaseLog): set<Id> { SetOf(Ids(log.failed)) }

  /** Row by row: published rows are one interval away, failed ones are reset (or not), the rest is untouched. */
  function PhaseTable(t: Table, k: Schedule, published: set<Id>, failed: set<Id>, now: Time, recovers: bool): Table {
    map id | id in t ::
      if id in published then Advanced(k, t[id], now)
      else if id in failed then if recovers then SetNext(k, t[id], now) else Advanced(k, t[id], now)
      else t[id]
  }

  /** The whole contract of one schedule's half of a sweep.
      `sends(a)` says whether publish attempt number `a` of this half is delivered. */
  ghost predicate PhaseDone(k: Schedule, before: Table, now: Time, batchSize: nat, maxBatches: nat,
                            sends: nat -> bool, recovers: bool, log: PhaseLog, after: Table)
  {
    var claimed := log.published + log.failed;
    var limit := if log.failed == [] then batchSize * maxBatches else batchSize * log.rounds;
    && log.rounds <= maxBatches
    && EarliestFirst(before, k, DueIds(before, k, now), limit, Ids(claimed))
    && Recorded(before, k, claimed)
    && Published(log) !! Failed(log)
    && |log.failed| <= batchSize
    && AllSent(sends, |log.published|)
    && (log.failed != [] ==> !sends(|log.published|))
    && after == PhaseTable(before, k, Published(log), Failed(log), now, recovers)
  }

  /** One transaction: select the due rows, advance each, commit. Rows that other transactions have `locked`
      are passed over. */
  method ClaimBatch(db: Database, k: Schedule, now: Time, limit: nat, locked: set<Id>)
    returns (found: bool, batch: seq<Item>, skipped: int)
    requires db.Valid()
    modifies db`tables
    ensures db.Valid()
    ensures db.tables.results == old(db.tables.results)
    ensures EarliestFirst(old(db.tables.monitors), k, DueIds(old(db.tables.monitors), k, now) - locked, limit, Ids(batch))
    ensures Recorded(old(db.tables.monitors), k, batch)
    ensures db.tables.monitors == Advance(old(db.tables.monitors), k, SetOf(Ids(batch)), now)
    ensures found <==> batch != []
    // The "invalid configuration" branch is never taken.
    ensures skipped == 0
  {
    hide EarliestFirst, DueIds, RowOk;
    var session := new Session(db);
    var due := SelectDue(session.work.monitors, k, now, limit, locked);
    found := due != [];
    if !found {
      batch, skipped := [], 0;
      assert Ids(batch) == due == [];
      AdvanceNone(db.tables.monitors, k, now);
      return;
    }
    EarliestAreDue(session.work.monitors, k, now, locked, limit, due);
    batch, skipped := AdvanceRows(session, k, now, due);
    AdvanceKeepsTable(db.tables.monitors, k, SetOf(due), now);
    var _ := session.Commit();
  }

  lemma EarliestAreDue(t: Table, k: Schedule, now: Time, locked: set<Id>, limit: nat, ids: seq<Id>)
    requires EarliestFirst(t, k, DueIds(t, k, now) - locked, limit, ids)
    ensures NoDuplicates(ids) && SetOf(ids) <= DueIds(t, k, now)
  {
  }

  lemma AdvanceNone(t: Table, k: Schedule, now: Time)
    ensures Advance(t, k, SetOf([]), now) == t
  {
  }

  /** The loop over the selected rows, inside the transaction. */
  method AdvanceRows(session: Session, k: Schedule, now: Time, due: seq<Id>) returns (batch: seq<Item>, skipped: int)
    requires TableOk(session.work.monitors)
    requires NoDuplicates(due) && SetOf(due) <= DueIds(session.work.monitors, k, now)
    modifies session`work
    ensures Ids(batch) == due && skipped == 0
    ensures Recorded(old(session.work.monitors), k, batch)
    ensures session.work == old(session.work).(monitors := Advance(old(session.work.monitors), k, SetOf(due), now))
  {
    hide TableOk, RowOk, Interval;
    ghost var t := session.work.monitors;
    batch, skipped := [], 0;
    for i := 0 to |due|
      invariant skipped == 0
      invariant Ids(batch) == due[..i]
      invariant Recorded(t, k, batch)
      invariant session.work == old(session.work).(monitors := Advance(t, k, SetOf(due[..i]), now))
    {
      var id := due[i];
      assert id in SetOf(due);
      DueRowsAreClaimable(t, k, now, id);
      var row := session.work.monitors[id];
      if !Claimable(k, row) {
        skipped := skipped + 1;
      } else {
        var interval := Interval(k, row).value;
        session.work := session.work.(monitors := session.work.monitors[id := SetNext(k, row, now + Seconds(interval))]);
        batch := batch + [Item(id, interval)];
      }
      assert SetOf(due[..i + 1]) == SetOf(due[..i]) + {id};
    }
    assert due[..|due|] == due;
  }

  /** Publish in claim order; the first failure leaves the rest of the batch unpublished. */
  method PublishBatch(broker: Broker, k: Schedule, batch: seq<Item>, sends: nat -> bool, attempts: nat)
    returns (sent: nat, failed: seq<Item>)
    requires AllSent(sends, attempts)
    modifies broker
    ensures sent <= |batch| && failed == batch[sent..]
    ensures broker.messages == old(broker.messages) + Messages(k, batch[..sent])
    ensures AllSent(sends, attempts + sent)
    ensures failed != [] ==> !sends(attempts + sent)
  {
    hide Messages;
    sent, failed := 0, [];
    assert Messages(k, batch[..0]) == [];
    while sent < |batch|
      invariant sent <= |batch|
      invariant broker.messages == old(broker.messages) + Messages(k, batch[..sent])
      invariant AllSent(sends, attempts + sent)
    {
      var ok := broker.ApplyAsync(Message(k, batch[sent].id, batch[sent].interval), sends(attempts + sent));
      if !ok {
        return sent, batch[sent..];
      }
      OneMoreMessage(k, batch, sent);
      sent := sent + 1;
    }
  }

  lemma OneMoreMessage(k: Schedule, batch: seq<Item>, sent: nat)
    requires sent < |batch|
    ensures Messages(k, batch[..sent + 1]) == Messages(k, batch[..sent]) + [Message(k, batch[sent].id, batch[sent].interval)]
  {
  }

  /** The recovery transaction; when it fails the critical log entry is all that happens. */
  method Recover(db: Database, k: Schedule, failed: seq<Item>, now: Time, recovers: bool)
    requires db.Valid()
    modifies db`tables
    ensures db.Valid()
    ensures db.tables.results == old(db.tables.results)
    ensures db.tables.monitors ==
            if recovers then Reset(old(db.tables.monitors), k, SetOf(Ids(failed)), now) else old(db.tables.monitors)
  {
    if recovers {
      var session := new Session(db);
      AdvanceKeepsTable(db.tables.monitors, k, SetOf(Ids(failed)), now);
      session.work := session.work.(monitors := Reset(session.work.monitors, k, SetOf(Ids(failed)), now));
      var _ := session.Commit();
    }
  }

  /** One round of one half: claim and commit, publish, and recover what could not be published. */
  method SweepRound(db: Database, broker: Broker, k: Schedule, batchSize: nat, now: Time, sends: nat -> bool,
                    attempts: nat, recovers: bool)
    returns (found: bool, sent: nat, failing: bool, ghost batch: seq<Item>)
    requires db.Valid() && AllSent(sends, attempts)
    modifies db`tables, broker
    ensures db.Valid()
    ensures db.tables.results == old(db.tables.results)
    ensures Claimed(k, old(db.tables.monitors), now, batchSize, batch)
    ensures found <==> batch != []
    ensures sent <= |batch| && (failing <==> sent < |batch|)
    ensures AllSent(sends, attempts + sent)
    ensures failing ==> !sends(attempts + sent)
    ensures db.tables.monitors ==
            PhaseTable(old(db.tables.monitors), k, SetOf(Ids(batch[..sent])), SetOf(Ids(batch[sent..])), now, recovers)
    ensures broker.messages == old(broker.messages) + Messages(k, batch[..sent])
  {
    ghost var t := db.tables.monitors;
    var items, skipped, failed;
    found, items, skipped := ClaimBatch(db, k, now, batchSize, {});
    assert DueIds(t, k, now) - {} == DueIds(t, k, now);
    batch := items;
    sent, failed := PublishBatch(broker, k, items, sends, attempts);
    PhaseOfBatch(t, k, items, sent, now, recovers);
    failing := failed != [];
    if failing {
      Recover(db, k, failed, now, recovers);
    }
  }

  /** The rounds of one half, up to the round that stopped them (or the round limit). */
  method SweepRounds(db: Database, broker: Broker, k: Schedule, batchSize: nat, maxBatches: nat, now: Time,
                     sends: nat -> bool, recovers: bool)
    returns (enqueued: nat, ghost end: LoopEnd)
    requires db.Valid()
    modifies db`tables, broker
    ensures db.Valid()
    ensures db.tables.results == old(db.tables.results)
    ensures Stopped(k, old(db.tables.monitors), now, batchSize, maxBatches, sends, recovers, end, db.tables.monitors)
    ensures broker.messages == old(broker.messages) + Messages(k, end.published + end.batch[..end.sent])
    ensures enqueued == |end.published| + end.sent
  {
    hide Progress, Claimed, PhaseTable;
    enqueued := 0;
    ghost var t := db.tables.monitors;
    ghost var published: seq<Item> := [];
    ghost var limit := 0;
    var round := 0;
    NothingClaimedYet(t, k, now);
    while round < maxBatches
      invariant round <= maxBatches && limit == Capacity(batchSize, round)
      invariant db.Valid() && db.tables.results == old(db.tables.results)
      invariant Progress(t, k, now, limit, published, db.tables.monitors)
      invariant broker.messages == old(broker.messages) + Messages(k, published)
      invariant enqueued == |published|
      invariant AllSent(sends, enqueued)
    {
      ghost var current := db.tables.monitors;
      var found, sent, failing, batch := SweepRound(db, broker, k, batchSize, now, sends, enqueued, recovers);
      MessagesAppend(old(broker.messages), k, published, batch[..sent]);
      enqueued := enqueued + sent;
      if !found || failing {
        end := LoopEnd(round, published, current, batch, sent);
        return;
      }
      assert batch[..sent] == batch;
      RoundPublished(t, k, now, batchSize, limit, published, current, batch, sent, recovers, db.tables.monitors);
      published := published + batch;
      round, limit := round + 1, limit + batchSize;
    }
    NothingLeftToDo(db.tables.monitors, k, now, recovers);
    assert published + [] == published;
    end := LoopEnd(round, published, db.tables.monitors, [], 0);
  }

  method SweepPhase(db: Database, broker: Broker, k: Schedule, batchSize: nat, maxBatches: nat, now: Time,
                    sends: nat -> bool, recovers: bool)
    returns (enqueued: nat, ghost log: PhaseLog)
    requires db.Valid()
    modifies db`tables, broker
    ensures db.Valid()
    ensures db.tables.results == old(db.tables.results)
    ensures PhaseDone(k, old(db.tables.monitors), now, batchSize, maxBatches, sends, recovers, log, db.tables.monitors)
    ensures broker.messages == old(broker.messages) + Messages(k, log.published)
    ensures enqueued == |log.published| == |broker.messages| - |old(broker.messages)|
  {
    ghost var end;
    enqueued, end := SweepRounds(db, broker, k, batchSize, maxBatches, now, sends, recovers);
    log := LogOf(end);
    StoppedIsDone(k, old(db.tables.monitors), now, batchSize, maxBatches, sends, recovers, end, db.tables.monitors);
  }

  /** The periodic task: the health half, then the keep-alive half, at one instant. */
  method SweepDueMonitors(db: Database, broker: Broker, batchSize: nat, maxBatches: nat, now: Time,
                          sends: Schedule -> nat -> bool, recovers: Schedule -> bool)
    returns (monitorsEnqueued: nat, keepAlivesEnqueued: nat, ghost health: PhaseLog, ghost activity: PhaseLog)
    requires db.Valid()
    modifies db`tables, broker
    ensures db.Valid()
    ensures db.tables.results == old(db.tables.results)
    ensures SweepDone(old(db.tables.monitors), now, batchSize, maxBatches, sends, recovers, health, activity, db.tables.monitors)
    ensures broker.messages == old(broker.messages) + Messages(Health, health.published) + Messages(Activity, activity.published)
    ensures monitorsEnqueued == |health.published| && keepAlivesEnqueued == |activity.published|
    // When every publish is delivered and the capacity suffices, all that is due is dispatched, and nothing else.
    ensures (forall k, a :: sends(k)(a)) && |old(db.tables.monitors)| <= batchSize * maxBatches ==>
              && HealthMessages(old(db.tables.monitors), now, Messages(Health, health.published))
              && ActivityMessages(old(db.tables.monitors), now, Messages(Activity, activity.published))
              && AllMovedOn(old(db.tables.monitors), now, db.tables.monitors)
  {
    hide AllMovedOn, HealthMessages, ActivityMessages, PhaseDone, TableOk;
    ghost var before := db.tables.monitors;
    monitorsEnqueued, health := SweepPhase(db, broker, Health, batchSize, maxBatches, now, sends(Health), recovers(Health));
    keepAlivesEnqueued, activity :=
      SweepPhase(db, broker, Activity, batchSize, maxBatches, now, sends(Activity), recovers(Activity));
    if (forall k, a :: sends(k)(a)) && |before| <= batchSize * maxBatches {
      SweepDispatchesAllDue(before, now, batchSize, maxBatches, sends, recovers, health, activity, db.tables.monitors);
    }
  }

  ghost predicate SweepDone(before: Table, now: Time, batchSize: nat, maxBatches: nat, sends: Schedule -> nat -> bool,
                            recovers: Schedule -> bool, health: PhaseLog, activity: PhaseLog, after: Table)
  {
    exists between ::
      && PhaseDone(Health, before, now, batchSize, maxBatches, sends(Health), recovers(Health), health, between)
      && PhaseDone(Activity, between, now, batchSize, maxBatches, sends(Activity), recovers(Activity), activity, after)
  }

  // ----- What a finished half means -----

  /** Row by row: a published monitor is exactly one recorded interval away, and a monitor that is neither
      published nor failed keeps its whole row. */
  lemma PhaseRows(k: Schedule, before: Table, now: Time, batchSize: nat, maxBatches: nat, sends: nat -> bool,
                  recovers: bool, log: PhaseLog, after: Table)
    requires TableOk(before) && PhaseDone(k, before, now, batchSize, maxBatches, sends, recovers, log, after)
    ensures TableOk(after) && after.Keys == before.Keys
    ensures forall i :: 0 <= i < |log.published| ==>
              var Item(id, interval) := log.published[i];
              id in before && Interval(k, before[id]) == Some(interval) && Next(k, after[id]) == Some(now + Seconds(interval))
    ensures forall id :: id in before && id !in Published(log) && id !in Failed(log) ==> after[id] == before[id]
  {
    hide RowOk, EarliestFirst;
    PhaseKeepsTable(before, k, Published(log), Failed(log), now, recovers);
    forall i | 0 <= i < |log.published|
      ensures var Item(id, interval) := log.published[i];
              id in before && Interval(k, before[id]) == Some(interval) && Next(k, after[id]) == Some(now + Seconds(interval))
    {
      assert (log.published + log.failed)[i] == log.published[i];
      assert Ids(log.published)[i] in Published(log);
    }
  }

  /** Claim by claim: published and failed monitors are distinct and were due; publish order follows the due times;
      no due monitor that was left was due earlier than one that was taken; and without a failure the half
      publishes min(due, batchSize * maxBatches) monitors. */
  lemma PhaseClaims(k: Schedule, before: Table, now: Time, batchSize: nat, maxBatches: nat, sends: nat -> bool,
                    recovers: bool, log: PhaseLog, after: Table)
    requires PhaseDone(k, before, now, batchSize, maxBatches, sends, recovers, log, after)
    ensures Published(log) !! Failed(log) && Published(log) + Failed(log) <= DueIds(before, k, now)
    ensures |Published(log)| == |log.published| && |Failed(log)| == |log.failed|
    ensures Ordered(before, k, Ids(log.published))
    ensures NoneEarlier(before, k, Published(log) + Failed(log), DueIds(before, k, now) - (Published(log) + Failed(log)))
    ensures log.failed == [] ==> |log.published| == Min(batchSize * maxBatches, |DueIds(before, k, now)|)
  {
    hide Ordered, NoneEarlier, PhaseTable, Recorded;
    ClaimSplits(before, k, log);
  }

  /** Everything that is due is published: no publish raises, and the capacity covers the due monitors. */
  ghost predicate Undisturbed(k: Schedule, before: Table, now: Time, batchSize: nat, maxBatches: nat, sends: nat -> bool) {
    (forall a :: sends(a)) && |DueIds(before, k, now)| <= batchSize * maxBatches
  }

  /** Then a half publishes exactly the due monitors, each once and with its stored interval. */
  lemma DueIsPublished(k: Schedule, before: Table, now: Time, batchSize: nat, maxBatches: nat, sends: nat -> bool,
                       recovers: bool, log: PhaseLog, after: Table)
    requires PhaseDone(k, before, now, batchSize, maxBatches, sends, recovers, log, after)
    requires Undisturbed(k, before, now, batchSize, maxBatches, sends)
    ensures log.failed == [] && Published(log) == DueIds(before, k, now)
    ensures |log.published| == |DueIds(before, k, now)|
    ensures after == Advance(before, k, DueIds(before, k, now), now)
    ensures forall item :: item in log.published <==>
              item.id in DueIds(before, k, now) && Interval(k, before[item.id]) == Some(item.interval)
  {
    PhaseClaims(k, before, now, batchSize, maxBatches, sends, recovers, log, after);
    hide EarliestFirst, DueIds;
    assert log.failed == [];
    assert log.published + log.failed == log.published;
    SubsetCardinality(Published(log), DueIds(before, k, now));
    PublishedItems(k, before, log);
    assert after == Advance(before, k, Published(log), now);
  }

  lemma PublishedItems(k: Schedule, before: Table, log: PhaseLog)
    requires Recorded(before, k, log.published)
    ensures forall item :: item in log.published <==>
              item.id in Published(log) && item.id in before && Interval(k, before[item.id]) == Some(item.interval)
  {
    forall item
      ensures item in log.published <==>
                item.id in Published(log) && item.id in before && Interval(k, before[item.id]) == Some(item.interval)
    {
      if item in log.published {
        var i :| 0 <= i < |log.published| && log.published[i] == item;
        assert Ids(log.published)[i] in Published(log);
      } else if item.id in Published(log) {
        var i :| 0 <= i < |Ids(log.published)| && Ids(log.published)[i] == item.id;
        assert log.published[i] in log.published;
      }
    }
  }

  lemma MessagesExactly(k: Schedule, items: seq<Item>, m: Message)
    ensures m in Messages(k, items) <==> m.schedule == k && Item(m.id, m.expires) in items
  {
    if m in Messages(k, items) {
      var i :| 0 <= i < |items| && Messages(k, items)[i] == m;
      assert items[i] == Item(m.id, m.expires);
    }
    if m.schedule == k && Item(m.id, m.expires) in items {
      var i :| 0 <= i < |items| && items[i] == Item(m.id, m.expires);
      assert Messages(k, items)[i] == m;
    }
  }

  predicate Reached(at: Option<Time>, now: Time) {
    at.Some? && at.value <= now
  }

  /** The monitors to be health checked at `now`: all but the keep-alive only ones, once `nextCheck` is reached. */
  function HealthDue(t: Table, now: Time): set<Id> {
    set id | id in t && t[id].mode != KeepAlive && Reached(t[id].nextCheck, now)
  }

  /** The monitors to be kept alive at `now`: all but the monitoring only ones, once `nextKeepAlive` is reached. */
  function ActivityDue(t: Table, now: Time): set<Id> {
    set id | id in t && t[id].mode != Monitor && Reached(t[id].nextKeepAlive, now)
  }

  ghost predicate HealthMoved(before: Table, now: Time, after: Table) {
    && after.Keys == before.Keys
    && forall id :: id in before ==>
         after[id] == if id in HealthDue(before, now)
                      then before[id].(nextCheck := Some(now + 1_000_000 * before[id].checkInterval)) else before[id]
  }

  ghost predicate ActivityMoved(before: Table, now: Time, after: Table) {
    && after.Keys == before.Keys
    && forall id :: id in before ==>
         after[id] == if id in ActivityDue(before, now) && before[id].keepAliveInterval.Some?
                      then before[id].(nextKeepAlive := Some(now + 1_000_000 * before[id].keepAliveInterval.value))
                      else before[id]
  }

  /** Both due times of a row move on where they are due; nothing else changes. */
  ghost predicate AllMovedOn(before: Table, now: Time, after: Table) {
    && after.Keys == before.Keys
    && forall id :: id in before ==>
         var row := before[id];
         after[id] == row.(
           nextCheck := if id in HealthDue(before, now) then Some(now + 1_000_000 * row.checkInterval) else row.nextCheck,
           nextKeepAlive := if id in ActivityDue(before, now) && row.keepAliveInterval.Some?
                            then Some(now + 1_000_000 * row.keepAliveInterval.value) else row.nextKeepAlive)
  }

  /** One health message for each of these monitors, expiring with its stored interval, and no other message. */
  ghost predicate HealthMessages(before: Table, now: Time, ms: seq<Message>) {
    && |ms| == |HealthDue(before, now)|
    && forall m :: m in ms <==> m.schedule == Health && m.id in HealthDue(before, now) && m.expires == before[m.id].checkInterval
  }

  ghost predicate ActivityMessages(before: Table, now: Time, ms: seq<Message>) {
    && |ms| == |ActivityDue(before, now)|
    && forall m :: m in ms <==>
         m.schedule == Activity && m.id in ActivityDue(before, now) && Some(m.expires) == before[m.id].keepAliveInterval
  }

  /** A whole undisturbed sweep, in stored columns: exactly the due monitors of either kind get their message, once and
      with their stored interval, and exactly their due times move on, each by that interval. */
  lemma SweepDispatchesAllDue(before: Table, now: Time, batchSize: nat, maxBatches: nat, sends: Schedule -> nat -> bool,
                              recovers: Schedule -> bool, health: PhaseLog, activity: PhaseLog, after: Table)
    requires TableOk(before) && SweepDone(before, now, batchSize, maxBatches, sends, recovers, health, activity, after)
    requires (forall k, a :: sends(k)(a)) && |before| <= batchSize * maxBatches
    ensures HealthMessages(before, now, Messages(Health, health.published))
    ensures ActivityMessages(before, now, Messages(Activity, activity.published))
    ensures AllMovedOn(before, now, after)
  {
    hide AllMovedOn, PhaseDone, TableOk, HealthMoved, ActivityMoved, HealthMessages, ActivityMessages, Messages;
    var between :|
      && PhaseDone(Health, before, now, batchSize, maxBatches, sends(Health), recovers(Health), health, between)
      && PhaseDone(Activity, between, now, batchSize, maxBatches, sends(Activity), recovers(Activity), activity, after);
    DueFits(before, Health, now);
    HealthHalf(before, now, batchSize, maxBatches, sends(Health), recovers(Health), health, between);
    DueFits(between, Activity, now);
    SameSize(before, now, between);
    ActivityHalf(between, now, batchSize, maxBatches, sends(Activity), recovers(Activity), activity, after);
    ActivityUnmoved(before, now, between, Messages(Activity, activity.published));
    BothMoved(before, now, between, after);
  }

  lemma BothMoved(before: Table, now: Time, between: Table, after: Table)
    requires HealthMoved(before, now, between) && ActivityMoved(between, now, after)
    ensures AllMovedOn(before, now, after)
  {
    forall id | id in before
      ensures id in ActivityDue(between, now) <==> id in ActivityDue(before, now)
    {
    }
    hide HealthDue, ActivityDue;
  }

  lemma SameSize(before: Table, now: Time, after: Table)
    requires HealthMoved(before, now, after)
    ensures |after| == |before|
  {
    assert |after.Keys| == |before.Keys|;
  }

  /** The health half moves nothing the keep-alive half looks at. */
  lemma ActivityUnmoved(before: Table, now: Time, between: Table, ms: seq<Message>)
    requires HealthMoved(before, now, between) && ActivityMessages(between, now, ms)
    ensures ActivityDue(between, now) == ActivityDue(before, now)
    ensures ActivityMessages(before, now, ms)
  {
    assert ActivityDue(between, now) == ActivityDue(before, now);
  }

  lemma DueFits(t: Table, k: Schedule, now: Time)
    ensures |DueIds(t, k, now)| <= |t|
  {
    SubsetCardinality(DueIds(t, k, now), t.Keys);
    assert |t.Keys| == |t|;
  }

  lemma HealthHalf(before: Table, now: Time, batchSize: nat, maxBatches: nat, sends: nat -> bool, recovers: bool,
                   log: PhaseLog, after: Table)
    requires TableOk(before) && PhaseDone(Health, before, now, batchSize, maxBatches, sends, recovers, log, after)
    requires Undisturbed(Health, before, now, batchSize, maxBatches, sends)
    ensures TableOk(after) && HealthMoved(before, now, after) && HealthMessages(before, now, Messages(Health, log.published))
  {
    hide PhaseDone, TableOk;
    var due := DueIds(before, Health, now);
    DueIsPublished(Health, before, now, batchSize, maxBatches, sends, recovers, log, after);
    AdvanceKeepsTable(before, Health, due, now);
    forall id | id in before
      ensures id in due <==> id in HealthDue(before, now)
    {
      DueExactly(before, now, id);
    }
    assert due == HealthDue(before, now);
    hide HealthDue, DueIds;
    forall id | id in before
      ensures after[id] == if id in due then before[id].(nextCheck := Some(now + 1_000_000 * before[id].checkInterval))
                           else before[id]
    {
      ColumnsMoved(before, due, now, id);
    }
    forall m
      ensures m in Messages(Health, log.published) <==>
                m.schedule == Health && m.id in due && Interval(Health, before[m.id]) == Some(m.expires)
    {
      MessagesExactly(Health, log.published, m);
    }
  }

  lemma ActivityHalf(before: Table, now: Time, batchSize: nat, maxBatches: nat, sends: nat -> bool, recovers: bool,
                   log: PhaseLog, after: Table)
    requires TableOk(before) && PhaseDone(Activity, before, now, batchSize, maxBatches, sends, recovers, log, after)
    requires Undisturbed(Activity, before, now, batchSize, maxBatches, sends)
    ensures ActivityMoved(before, now, after) && ActivityMessages(before, now, Messages(Activity, log.published))
  {
    hide PhaseDone, TableOk;
    var due := DueIds(before, Activity, now);
    DueIsPublished(Activity, before, now, batchSize, maxBatches, sends, recovers, log, after);
    AdvanceKeepsTable(before, Activity, due, now);
    forall id | id in before
      ensures id in due <==> id in ActivityDue(before, now)
    {
      DueExactly(before, now, id);
    }
    assert due == ActivityDue(before, now);
    hide ActivityDue, DueIds;
    forall id | id in before
      ensures after[id] == if id in due && before[id].keepAliveInterval.Some?
                           then before[id].(nextKeepAlive := Some(now + 1_000_000 * before[id].keepAliveInterval.value))
                           else before[id]
    {
      ColumnsMoved(before, due, now, id);
    }
    forall m
      ensures m in Messages(Activity, log.published) <==>
                m.schedule == Activity && m.id in due && Interval(Activity, before[m.id]) == Some(m.expires)
    {
      MessagesExactly(Activity, log.published, m);
    }
  }

  lemma ClaimSplits(t: Table, k: Schedule, log: PhaseLog)
    requires Ordered(t, k, Ids(log.published + log.failed))
    ensures Ordered(t, k, Ids(log.published)) && Ordered(t, k, Ids(log.failed))
    ensures SetOf(Ids(log.published + log.failed)) == Published(log) + Failed(log)
    ensures |Published(log)| == |log.published| && |Failed(log)| == |log.failed|
  {
    hide Ordered, SetOf;
    IdsAppend(log.published, log.failed);
    OrderedParts(t, k, Ids(log.published), Ids(log.failed));
    OrderedCount(t, k, Ids(log.published));
    OrderedCount(t, k, Ids(log.failed));
  }

  lemma OrderedParts(t: Table, k: Schedule, a: seq<Id>, b: seq<Id>)
    requires Ordered(t, k, a + b)
    ensures Ordered(t, k, a) && Ordered(t, k, b)
  {
    hide DueTime;
    forall i, j | 0 <= i < j < |b|
      ensures b[i] != b[j] && DueTime(t, k, b[i]) <= DueTime(t, k, b[j])
    {
      assert (a + b)[|a| + i] == b[i] && (a + b)[|a| + j] == b[j];
    }
    forall i, j | 0 <= i < j < |a|
      ensures a[i] != a[j] && DueTime(t, k, a[i]) <= DueTime(t, k, a[j])
    {
      assert (a + b)[i] == a[i] && (a + b)[j] == a[j];
    }
  }

  lemma PhaseKeepsTable(t: Table, k: Schedule, published: set<Id>, failed: set<Id>, now: Time, recovers: bool)
    requires TableOk(t)
    ensures TableOk(PhaseTable(t, k, published, failed, now, recovers))
  {
    forall id | id in t
      ensures RowOk(PhaseTable(t, k, published, failed, now, recovers)[id])
    {
      assert RowOk(t[id]);
    }
  }

  /** A monitor whose publish failed is due for every later sweep; if the recovery failed too, one interval later. */
  lemma FailedIsDueAgain(k: Schedule, before: Table, now: Time, batchSize: nat, maxBatches: nat, sends: nat -> bool,
                         recovers: bool, log: PhaseLog, after: Table, i: nat, later: Time)
    requires TableOk(before) && PhaseDone(k, before, now, batchSize, maxBatches, sends, recovers, log, after)
    requires i < |log.failed| && now <= later
    ensures log.failed[i].id in DueIds(after, k, later)
            <==> recovers || now + Seconds(log.failed[i].interval) <= later
  {
    hide RowOk;
    var id := log.failed[i].id;
    assert (log.published + log.failed)[|log.published| + i] == log.failed[i];
    assert Ids(log.failed)[i] in Failed(log);
    assert Ids(log.published + log.failed)[|log.published| + i] in SetOf(Ids(log.published + log.failed));
  }

  // ----- Steps of the loop proof -----

  /** `batch` is what one round claims from `t`. */
  ghost predicate Claimed(k: Schedule, t: Table, now: Time, limit: nat, batch: seq<Item>) {
    EarliestFirst(t, k, DueIds(t, k, now), limit, Ids(batch)) && Recorded(t, k, batch)
  }

  /** Everything claimed so far was published, and amounts to one claim of the larger limit. */
  ghost predicate Progress(t: Table, k: Schedule, now: Time, limit: nat, published: seq<Item>, current: Table) {
    && TableOk(t)
    && Claimed(k, t, now, limit, published)
    && current == Advance(t, k, SetOf(Ids(published)), now)
  }

  lemma IdsAppend(a: seq<Item>, b: seq<Item>)
    ensures Ids(a + b) == Ids(a) + Ids(b)
    ensures SetOf(Ids(a + b)) == SetOf(Ids(a)) + SetOf(Ids(b))
  {
    assert Ids(a + b) == Ids(a) + Ids(b);
  }

  lemma MessagesAppend(before: seq<Message>, k: Schedule, a: seq<Item>, b: seq<Item>)
    ensures before + Messages(k, a) + Messages(k, b) == before + Messages(k, a + b)
  {
  }

  lemma SplitDisjoint(a: seq<Id>, b: seq<Id>)
    requires NoDuplicates(a + b)
    ensures SetOf(a) !! SetOf(b)
  {
    forall i, j | 0 <= i < |a| && 0 <= j < |b|
      ensures a[i] != b[j]
    {
      assert (a + b)[i] == a[i] && (a + b)[|a| + j] == b[j];
    }
  }

  lemma NothingClaimedYet(t: Table, k: Schedule, now: Time)
    requires TableOk(t)
    ensures Progress(t, k, now, 0, [], t)
  {
  }

  lemma PhaseOfBatch(t: Table, k: Schedule, batch: seq<Item>, sent: nat, now: Time, recovers: bool)
    requires Ordered(t, k, Ids(batch)) && sent <= |batch|
    ensures var advanced := Advance(t, k, SetOf(Ids(batch)), now);
            PhaseTable(t, k, SetOf(Ids(batch[..sent])), SetOf(Ids(batch[sent..])), now, recovers)
            == if recovers then Reset(advanced, k, SetOf(Ids(batch[sent..])), now) else advanced
    ensures sent == |batch| ==>
            PhaseTable(t, k, SetOf(Ids(batch[..sent])), SetOf(Ids(batch[sent..])), now, recovers)
            == Advance(t, k, SetOf(Ids(batch)), now)
    ensures SetOf(Ids(batch[..sent])) !! SetOf(Ids(batch[sent..]))
  {
    hide DueTime, Advance, Reset, PhaseTable, SetOf, Ids;
    assert batch == batch[..sent] + batch[sent..];
    IdsAppend(batch[..sent], batch[sent..]);
    SplitDisjoint(Ids(batch[..sent]), Ids(batch[sent..]));
    PhaseOfSets(t, k, SetOf(Ids(batch[..sent])), SetOf(Ids(batch[sent..])), now, recovers);
    assert sent == |batch| ==> SetOf(Ids(batch[sent..])) == {} by {
      if sent == |batch| {
        NoIds(batch[sent..]);
      }
    }
  }

  lemma NoIds(items: seq<Item>)
    requires items == []
    ensures SetOf(Ids(items)) == {}
  {
  }

  /** The rows of a claim, split into published and failed ones. */
  lemma PhaseOfSets(t: Table, k: Schedule, published: set<Id>, failed: set<Id>, now: Time, recovers: bool)
    requires published !! failed
    ensures var advanced := Advance(t, k, published + failed, now);
            PhaseTable(t, k, published, failed, now, recovers)
            == if recovers then Reset(advanced, k, failed, now) else advanced
    ensures failed == {} ==> PhaseTable(t, k, published, failed, now, recovers) == Advance(t, k, published + failed, now)
  {
  }

  /** The rows that so many rounds can claim. */
  ghost function Capacity(batchSize: nat, rounds: nat): nat {
    if rounds == 0 then 0 else Capacity(batchSize, rounds - 1) + batchSize
  }

  lemma {:induction false} CapacityIsProduct(batchSize: nat, rounds: nat)
    ensures Capacity(batchSize, rounds) == batchSize * rounds
  {
    if rounds > 0 {
      CapacityIsProduct(batchSize, rounds - 1);
    }
  }

  /** A further round claims after, and apart from, the earlier ones. */
  lemma RoundExtends(t: Table, k: Schedule, now: Time, batchSize: nat, limit: nat, published: seq<Item>, current: Table,
                     batch: seq<Item>)
    requires Progress(t, k, now, limit, published, current)
    requires Claimed(k, current, now, batchSize, batch)
    ensures SetOf(Ids(published)) !! SetOf(Ids(batch))
    ensures Progress(t, k, now, limit + batchSize, published + batch, Advance(current, k, SetOf(Ids(batch)), now))
  {
    RoundsCompose(t, k, now, limit, Ids(published), batchSize, Ids(batch));
    IdsAppend(published, batch);
    forall i | 0 <= i < |batch|
      ensures batch[i].id in t && Interval(k, t[batch[i].id]) == Some(batch[i].interval)
    {
      assert Ids(batch)[i] in SetOf(Ids(batch));
    }
    assert Recorded(t, k, published + batch);
  }

  lemma RoundPublished(t: Table, k: Schedule, now: Time, batchSize: nat, limit: nat, published: seq<Item>, current: Table,
                       batch: seq<Item>, sent: nat, recovers: bool, after: Table)
    requires Progress(t, k, now, limit, published, current)
    requires Claimed(k, current, now, batchSize, batch)
    requires sent == |batch|
    requires after == PhaseTable(current, k, SetOf(Ids(batch[..sent])), SetOf(Ids(batch[sent..])), now, recovers)
    ensures Progress(t, k, now, limit + batchSize, published + batch, after)
  {
    RoundExtends(t, k, now, batchSize, limit, published, current, batch);
    PhaseOfBatch(current, k, batch, sent, now, recovers);
  }

  lemma PhaseComplete(t: Table, k: Schedule, now: Time, batchSize: nat, maxBatches: nat, rounds: nat, sends: nat -> bool,
                      recovers: bool, published: seq<Item>, current: Table)
    requires rounds <= maxBatches
    requires Progress(t, k, now, batchSize * maxBatches, published, current)
    requires AllSent(sends, |published|)
    ensures PhaseDone(k, t, now, batchSize, maxBatches, sends, recovers, PhaseLog(published, [], rounds), current)
  {
    assert published + [] == published;
    assert SetOf(Ids([])) == {};
  }

  lemma LimitsGrow(batchSize: nat, round: nat, maxBatches: nat)
    requires round <= maxBatches
    ensures batchSize * round <= batchSize * maxBatches
    ensures batchSize == 0 ==> batchSize * round == 0 == batchSize * maxBatches
  {
  }

  lemma AllClaimed(t: Table, k: Schedule, now: Time, batchSize: nat, limit: nat, published: seq<Item>, current: Table)
    requires batchSize != 0
    requires Progress(t, k, now, limit, published, current)
    requires Claimed(k, current, now, batchSize, [])
    ensures DueIds(t, k, now) <= SetOf(Ids(published))
  {
    DueAfterAdvance(t, k, SetOf(Ids(published)), now);
    assert |DueIds(current, k, now)| == 0;
  }

  /** Where the rounds ended: everything published before, and the last batch with how much of it was sent. */
  datatype LoopEnd = LoopEnd(rounds: nat, published: seq<Item>, current: Table, batch: seq<Item>, sent: nat)

  ghost predicate Stopped(k: Schedule, t: Table, now: Time, batchSize: nat, maxBatches: nat, sends: nat -> bool,
                          recovers: bool, end: LoopEnd, after: Table)
  {
    && end.rounds <= maxBatches
    && Progress(t, k, now, Capacity(batchSize, end.rounds), end.published, end.current)
    && end.sent <= |end.batch|
    && (end.rounds < maxBatches ==> Claimed(k, end.current, now, batchSize, end.batch))
    && (end.rounds == maxBatches ==> end.batch == [])
    && (end.batch != [] ==> end.sent < |end.batch| && !sends(|end.published| + end.sent))
    && AllSent(sends, |end.published| + end.sent)
    && after == PhaseTable(end.current, k, SetOf(Ids(end.batch[..end.sent])), SetOf(Ids(end.batch[end.sent..])), now, recovers)
  }

  ghost function LogOf(end: LoopEnd): PhaseLog
    requires end.sent <= |end.batch|
  {
    PhaseLog(end.published + end.batch[..end.sent], end.batch[end.sent..],
             if end.batch == [] then end.rounds else end.rounds + 1)
  }

  lemma NothingLeftToDo(t: Table, k: Schedule, now: Time, recovers: bool)
    ensures PhaseTable(t, k, SetOf(Ids([])), SetOf(Ids([])), now, recovers) == t
  {
  }

  lemma StoppedIsDone(k: Schedule, t: Table, now: Time, batchSize: nat, maxBatches: nat, sends: nat -> bool,
                      recovers: bool, end: LoopEnd, after: Table)
    requires Stopped(k, t, now, batchSize, maxBatches, sends, recovers, end, after)
    ensures PhaseDone(k, t, now, batchSize, maxBatches, sends, recovers, LogOf(end), after)
  {
    if end.batch != [] {
      PhaseFailed(t, k, now, batchSize, end.rounds, maxBatches, sends, recovers, end, after);
    } else {
      NothingLeftToDo(end.current, k, now, recovers);
      assert end.published + [] == end.published;
      CapacityIsProduct(batchSize, end.rounds);
      if end.rounds < maxBatches {
        PhaseExhausted(t, k, now, batchSize, end.rounds, maxBatches, sends, recovers, end.published, end.current);
      } else {
        PhaseComplete(t, k, now, batchSize, maxBatches, end.rounds, sends, recovers, end.published, end.current);
      }
    }
  }

  lemma PhaseExhausted(t: Table, k: Schedule, now: Time, batchSize: nat, round: nat, maxBatches: nat, sends: nat -> bool,
                       recovers: bool, published: seq<Item>, current: Table)
    requires round < maxBatches
    requires Progress(t, k, now, batchSize * round, published, current)
    requires Claimed(k, current, now, batchSize, [])
    requires AllSent(sends, |published|)
    ensures Advance(current, k, SetOf(Ids([])), now) == current
    ensures PhaseTable(current, k, SetOf(Ids([])), SetOf(Ids([])), now, recovers) == current
    ensures PhaseDone(k, t, now, batchSize, maxBatches, sends, recovers, PhaseLog(published, [], round), current)
  {
    LimitsGrow(batchSize, round, maxBatches);
    if batchSize != 0 {
      AllClaimed(t, k, now, batchSize, batchSize * round, published, current);
      ExhaustedClaim(t, k, DueIds(t, k, now), batchSize * round, Ids(published), batchSize * maxBatches);
    }
    PhaseComplete(t, k, now, batchSize, maxBatches, round, sends, recovers, published, current);
  }

  lemma LogParts(end: LoopEnd)
    requires end.sent <= |end.batch|
    ensures var log, claimed := LogOf(end), end.published + end.batch;
            && log.published + log.failed == claimed
            && claimed[..|log.published|] == log.published
            && claimed[|log.published|..] == log.failed
  {
  }

  lemma PhaseFailed(t: Table, k: Schedule, now: Time, batchSize: nat, round: nat, maxBatches: nat, sends: nat -> bool,
                    recovers: bool, end: LoopEnd, after: Table)
    requires end.batch != [] && round == end.rounds
    requires Stopped(k, t, now, batchSize, maxBatches, sends, recovers, end, after)
    ensures PhaseDone(k, t, now, batchSize, maxBatches, sends, recovers, LogOf(end), after)
  {
    hide Recorded, NoneEarlier, Ordered, PhaseTable, Advance, Reset, SetOf;
    var log := LogOf(end);
    var claimed := end.published + end.batch;
    LogParts(end);
    CapacityIsProduct(batchSize, round + 1);
    RoundExtends(t, k, now, batchSize, Capacity(batchSize, round), end.published, end.current, end.batch);
    PhaseOfBatch(end.current, k, end.batch, end.sent, now, recovers);
    PhaseOfBatch(t, k, claimed, |log.published|, now, recovers);
  }
}
