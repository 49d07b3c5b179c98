/** The whole system as one step machine: sweeps, API requests and workers interleave freely over the same
    tables, broker and clock. Each step is one transaction, one publish or one broker delivery. */
module Scheduler {
  import opened Common
  import opened Monitors
  import opened Schemas
  import Api
  import opened Db
  import opened Claims
  import Worker

  /** The sweep limits, the monitor cap, how many create requests may be between their count and their
      commit at once, and how long after its own `now` a sweep may still take steps. */
  datatype Config = Config(batchSize: nat, maxBatches: nat, maxMonitors: nat, maxCreates: nat, slack: Time)

  predicate ValidConfig(c: Config) {
    c.batchSize > 0 && c.maxBatches > 0 && c.maxMonitors > 0 && c.maxCreates > 0 && c.slack >= 0
  }

  /** A claimed monitor, with the interval recorded for it and the due time the claim consumed. */
  datatype Claim = Claim(id: Id, interval: int, due: Time)

  datatype Stage = Claiming | Publishing(queue: seq<Claim>) | Recovering(queue: seq<Claim>)

  /** A running sweep: its `now`, the half it is in, the rounds left in that half. */
  datatype SweepRun = SweepRun(now: Time, schedule: Schedule, left: nat, stage: Stage)

  /** One delivered publish, as history. */
  datatype Publish = Publish(schedule: Schedule, id: Id, sweepNow: Time, interval: int, due: Time, at: Time)

  datatype PendingCreate = PendingCreate(payload: MonitorCreate, now: Time)

  datatype State = State(
    clock: Time,
    tables: Tables,
    nextId: Id,
    creating: map<nat, PendingCreate>,
    sweeps: map<nat, SweepRun>,
    log: seq<Publish>,
    broker: map<nat, nat>,   // undelivered messages, as positions in `log`, with their retry counts
    rearmed: set<Id>,        // history: monitors whose keep-alive due time an update took away, until a safe one gives it back
    since: map<Id, nat>)     // history: the length of `log` when that happened

  datatype Event =
    | Tick(clock: Time)
    | StartSweep(sid: nat)
    | ClaimBatch(sid: nat, locked: set<Id>, ids: seq<Id>)
    | PublishNext(sid: nat, delivered: bool)
    | RecoverBatch(sid: nat, committed: bool)
    | Crash(sid: nat)
    | CountCreate(rid: nat, payload: MonitorCreate)
    | CommitCreate(rid: nat)
    | AbandonCreate(rid: nat)
    | Update(id: Id, update: MonitorUpdate)
    | Delete(id: Id)
    | Execute(message: nat, maxRetries: nat, read: Tables, attempt: Worker.Attempt)   // `read`: what the attempt began with
    | Discard(message: nat)
    | ExecuteOnDemand(id: Id, retries: nat, maxRetries: nat, read: Tables, attempt: Worker.Attempt)

  const Start := State(0, Tables(map[], []), 0, map[], map[], [], map[], {}, map[])

  // ----- Sweep control -----

  function InHand(sw: SweepRun): seq<Claim> {
    if sw.stage.Claiming? then [] else sw.stage.queue
  }

  /** A half ends: the health half is followed by the keep-alive half, which ends the sweep. */
  function EndHalf(c: Config, sw: SweepRun): Option<SweepRun> {
    match sw.schedule
    case Health => Some(SweepRun(sw.now, Activity, c.maxBatches, Claiming))
    case Activity => None
  }

  function EndRound(c: Config, sw: SweepRun): Option<SweepRun> {
    if sw.left > 0 then Some(sw.(stage := Claiming)) else EndHalf(c, sw)
  }

  function Put(sweeps: map<nat, SweepRun>, sid: nat, sw: Option<SweepRun>): map<nat, SweepRun> {
    match sw
    case Some(run) => sweeps[sid := run]
    case None => sweeps - {sid}
  }

  /** The batch of a claim; a row with an invalid keep-alive configuration is skipped. */
  function BatchOf(t: Table, k: Schedule, ids: seq<Id>): seq<Claim> {
    if ids == [] then []
    else
      var id := ids[|ids| - 1];
      var before := BatchOf(t, k, ids[..|ids| - 1]);
      if id in t && Claimable(k, t[id]) && Interval(k, t[id]).Some?
      then before + [Claim(id, Interval(k, t[id]).value, DueTime(t, k, id))]
      else before
  }

  function ClaimIds(queue: seq<Claim>): set<Id> {
    set item | item in queue :: item.id
  }

  function CheckOf(k: Schedule): CheckType {
    match k
    case Health => HealthCheck
    case Activity => KeepAliveCheck
  }

  predicate Expired(e: Publish, clock: Time) {
    e.at + Seconds(e.interval) < clock
  }

  // ----- Observations -----

  /** The claim is in the sweep's hands: claimed and committed, but not yet published or recovered. */
  predicate Waits(s: State, sid: nat, item: Claim) {
    sid in s.sweeps && item in InHand(s.sweeps[sid])
  }

  function NowOf(s: State, sid: nat): Time {
    if sid in s.sweeps then s.sweeps[sid].now else 0
  }

  function ScheduleOf(s: State, sid: nat): Schedule {
    if sid in s.sweeps then s.sweeps[sid].schedule else Health
  }

  /** The instant before which the published monitor must not be dispatched again. */
  function Until(e: Publish): Time {
    e.sweepNow + Seconds(e.interval)
  }

  /** An accepted update that gives the monitor a keep-alive due time, which it did not have. */
  predicate Arms(s: State, id: Id, u: MonitorUpdate) {
    && id in s.tables.monitors && Api.Accepts(s.tables.monitors[id], u)
    && s.tables.monitors[id].nextKeepAlive.None?
    && Api.Merged(s.tables.monitors[id], u, s.clock).nextKeepAlive.Some?
  }

  /** No sweep has the monitor's keep-alive claim in hand, and the interval of each of its keep-alive publishes is over. */
  ghost predicate SafeToArm(s: State, id: Id) {
    && (forall sid, item :: Waits(s, sid, item) && ScheduleOf(s, sid) == Activity ==> item.id != id)
    && (forall e :: e in s.log && e.schedule == Activity && e.id == id ==> Until(e) <= s.clock)
  }

  // ----- Steps -----

  ghost predicate Enabled(c: Config, s: State, e: Event) {
    match e
    case Tick(clock) => s.clock <= clock && forall sid :: sid in s.sweeps ==> clock <= s.sweeps[sid].now + c.slack
    case StartSweep(sid) => sid !in s.sweeps
    case ClaimBatch(sid, locked, ids) =>
      && sid in s.sweeps && s.sweeps[sid].stage.Claiming? && s.sweeps[sid].left > 0
      && var sw := s.sweeps[sid];
         EarliestFirst(s.tables.monitors, sw.schedule, DueIds(s.tables.monitors, sw.schedule, sw.now) - locked, c.batchSize, ids)
    case PublishNext(sid, _) => sid in s.sweeps && s.sweeps[sid].stage.Publishing? && s.sweeps[sid].stage.queue != []
    case RecoverBatch(sid, _) => sid in s.sweeps && s.sweeps[sid].stage.Recovering?
    case Crash(sid) => sid in s.sweeps
    case CountCreate(rid, payload) => rid !in s.creating && |s.creating| < c.maxCreates
    case CommitCreate(rid) => rid in s.creating
    case AbandonCreate(rid) => rid in s.creating
    case Update(_, _) => true
    case Delete(_) => true
    case Execute(message, _, _, _) => message in s.broker && message < |s.log| && !Expired(s.log[message], s.clock)
    case Discard(message) => message in s.broker
    case ExecuteOnDemand(_, _, _, _, _) => true
  }

  function ApplyClaim(c: Config, s: State, sid: nat, ids: seq<Id>): State
    requires sid in s.sweeps && s.sweeps[sid].left > 0
  {
    var sw := s.sweeps[sid];
    var batch := BatchOf(s.tables.monitors, sw.schedule, ids);
    if ids == [] then s.(sweeps := Put(s.sweeps, sid, EndHalf(c, sw)))
    else
      var claimed := sw.(left := sw.left - 1, stage := Publishing(batch));
      s.(tables := s.tables.(monitors := Advance(s.tables.monitors, sw.schedule, ClaimIds(batch), sw.now)),
         sweeps := Put(s.sweeps, sid, if batch == [] then EndRound(c, claimed) else Some(claimed)))
  }

  function ApplyPublish(c: Config, s: State, sid: nat, delivered: bool): State
    requires sid in s.sweeps && s.sweeps[sid].stage.Publishing? && s.sweeps[sid].stage.queue != []
  {
    var sw := s.sweeps[sid];
    var item, rest := sw.stage.queue[0], sw.stage.queue[1..];
    if delivered then
      s.(log := s.log + [Publish(sw.schedule, item.id, sw.now, item.interval, item.due, s.clock)],
         broker := s.broker[|s.log| := 0],
         sweeps := Put(s.sweeps, sid, if rest == [] then EndRound(c, sw) else Some(sw.(stage := Publishing(rest)))))
    else
      s.(sweeps := s.sweeps[sid := sw.(stage := Recovering(sw.stage.queue))])
  }

  function ApplyRecover(c: Config, s: State, sid: nat, committed: bool): State
    requires sid in s.sweeps && s.sweeps[sid].stage.Recovering?
  {
    var sw := s.sweeps[sid];
    var s1 := s.(sweeps := Put(s.sweeps, sid, EndHalf(c, sw)));
    if committed then
      s1.(tables := s.tables.(monitors := Reset(s.tables.monitors, sw.schedule, ClaimIds(sw.stage.queue), sw.now)))
    else s1
  }

  ghost function ApplyUpdate(s: State, id: Id, u: MonitorUpdate): State {
    if id in s.tables.monitors && Api.Accepts(s.tables.monitors[id], u) then
      var row := s.tables.monitors[id];
      var merged := Api.Merged(row, u, s.clock);
      var t := s.(tables := s.tables.(monitors := s.tables.monitors[id := merged]));
      if row.nextKeepAlive.Some? && merged.nextKeepAlive != row.nextKeepAlive then t.(rearmed := s.rearmed + {id})
      else if id in s.rearmed && Arms(s, id, u) && SafeToArm(s, id) then
        t.(rearmed := s.rearmed - {id}, since := s.since[id := |s.log|])
      else t
    else s
  }

  function ApplyCount(c: Config, s: State, rid: nat, p: MonitorCreate): State {
    if ValidateCreate(p).None? && |s.tables.monitors| < c.maxMonitors
    then s.(creating := s.creating[rid := PendingCreate(p, s.clock)])
    else s
  }

  function ApplyCommit(s: State, rid: nat): State
    requires rid in s.creating
  {
    var p := s.creating[rid];
    s.(creating := s.creating - {rid},
       nextId := s.nextId + 1,
       tables := s.tables.(monitors := s.tables.monitors[s.nextId := Api.NewRow(p.payload, p.now)]))
  }

  function ApplyExecute(s: State, message: nat, maxRetries: nat, read: Tables, a: Worker.Attempt): State
    requires message in s.broker && message < |s.log|
  {
    var e := s.log[message];
    var task := Worker.Task(e.id, CheckOf(e.schedule), s.broker[message], maxRetries);
    var (tables, outcome) := Worker.LateEffect(read, s.tables, task, a);
    s.(tables := tables,
       broker := if outcome.Retry? then s.broker[message := s.broker[message] + 1] else s.broker - {message})
  }

  ghost function Apply(c: Config, s: State, e: Event): State
    requires Enabled(c, s, e)
  {
    match e
    case Tick(clock) => s.(clock := clock)
    case StartSweep(sid) => s.(sweeps := s.sweeps[sid := SweepRun(s.clock, Health, c.maxBatches, Claiming)])
    case ClaimBatch(sid, _, ids) => ApplyClaim(c, s, sid, ids)
    case PublishNext(sid, delivered) => ApplyPublish(c, s, sid, delivered)
    case RecoverBatch(sid, committed) => ApplyRecover(c, s, sid, committed)
    case Crash(sid) => s.(sweeps := s.sweeps - {sid})
    case CountCreate(rid, payload) => ApplyCount(c, s, rid, payload)
    case CommitCreate(rid) => ApplyCommit(s, rid)
    case AbandonCreate(rid) => s.(creating := s.creating - {rid})
    case Update(id, u) => ApplyUpdate(s, id, u)
    case Delete(id) => s.(tables := WithoutMonitor(s.tables, id))
    case Execute(message, maxRetries, read, a) => ApplyExecute(s, message, maxRetries, read, a)
    case Discard(message) => s.(broker := s.broker - {message})
    case ExecuteOnDemand(id, retries, maxRetries, read, a) =>
      s.(tables := Worker.LateEffect(read, s.tables, Worker.Task(id, HealthCheck, retries, maxRetries), a).0)
  }

  // ----- Runs -----

  /** A run is a sequence of events, each enabled where it happens. */
  ghost predicate Legal(c: Config, es: seq<Event>)
    decreases |es|, 0
  {
    es == [] || (Legal(c, es[..|es| - 1]) && Enabled(c, After(c, es[..|es| - 1]), es[|es| - 1]))
  }

  ghost function After(c: Config, es: seq<Event>): State
    requires Legal(c, es)
    decreases |es|, 1
  {
    if es == [] then Start else Apply(c, After(c, es[..|es| - 1]), es[|es| - 1])
  }
}
