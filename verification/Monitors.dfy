/** The stored entities (app/models.py, app/enums.py) and the two schedules kept on each monitor row. */
module Monitors {
  import opened Common

  /** Instants and durations are whole microseconds, the resolution of a Python datetime. */
  type Time = int
  type Id = nat
  type Table = map<Id, Row>

  const SECOND: Time := 1_000_000
  const MIN_INTERVAL := 15
  const MAX_INTERVAL := 86400

  function Seconds(n: int): Time { n * SECOND }

  datatype Mode = Monitor | KeepAlive | MonitorAndKeepAlive
  datatype Status = Up | Degraded | Down | Pending
  datatype Outcome = OutcomeUp | OutcomeDegraded | OutcomeDown | OutcomeUnreachable

  function OutcomeToStatus(o: Outcome): Status {
    match o
    case OutcomeUp => Up
    case OutcomeDegraded => Degraded
    case OutcomeDown => Down
    case OutcomeUnreachable => Down
  }

  /** One row of the `monitors` table. */
  datatype Row = Row(
    name: string,
    url: string,
    checkInterval: int,
    status: Status,
    lastChecked: Option<Time>,
    nextCheck: Option<Time>,
    mode: Mode,
    keepAliveEnabled: bool,
    keepAliveInterval: Option<int>,
    keepAlivePath: Option<string>,
    nextKeepAlive: Option<Time>)

  predicate IntervalInRange(seconds: int) {
    MIN_INTERVAL <= seconds <= MAX_INTERVAL
  }

  /** Mode, flag, interval and path agree with one another. */
  predicate Consistent(mode: Mode, enabled: bool, interval: Option<int>, path: Option<string>) {
    && (enabled <==> mode != Monitor)
    && (enabled <==> interval.Some?)
    && (!enabled ==> path.None?)
  }

  /** What every stored row satisfies, on every run. */
  predicate RowOk(r: Row) {
    && r.url != ""
    && IntervalInRange(r.checkInterval)
    && r.nextCheck.Some?
    && Consistent(r.mode, r.keepAliveEnabled, r.keepAliveInterval, r.keepAlivePath)
    && (r.keepAliveInterval.Some? ==> IntervalInRange(r.keepAliveInterval.value))
    && (r.keepAliveEnabled ==> r.nextKeepAlive.Some?)
  }

  /** A disabled row carries no keep-alive due time. Kept by every step but a late recovery. */
  predicate QuietWhenDisabled(r: Row) {
    !r.keepAliveEnabled ==> r.nextKeepAlive.None?
  }

  predicate TableOk(t: Table) {
    forall id :: id in t ==> RowOk(t[id])
  }

  // The scheduler treats the two schedules alike; a schedule picks the columns it reads and writes.
  datatype Schedule = Health | Activity

  predicate Eligible(k: Schedule, r: Row) {
    match k
    case Health => r.mode in {Monitor, MonitorAndKeepAlive}
    case Activity => r.keepAliveEnabled && r.mode in {KeepAlive, MonitorAndKeepAlive}
  }

  function Next(k: Schedule, r: Row): Option<Time> {
    match k
    case Health => r.nextCheck
    case Activity => r.nextKeepAlive
  }

  function Interval(k: Schedule, r: Row): Option<int> {
    match k
    case Health => Some(r.checkInterval)
    case Activity => r.keepAliveInterval
  }

  function SetNext(k: Schedule, r: Row, at: Time): Row {
    match k
    case Health => r.(nextCheck := Some(at))
    case Activity => r.(nextKeepAlive := Some(at))
  }

  predicate IsDue(k: Schedule, r: Row, now: Time) {
    Eligible(k, r) && Next(k, r).Some? && Next(k, r).value <= now
  }

  /** The due time as a plain number, for ordering (only due rows are ever ordered). */
  function DueAt(k: Schedule, r: Row): Time {
    match Next(k, r)
    case Some(at) => at
    case None => 0
  }

  function DueIds(t: Table, k: Schedule, now: Time): set<Id> {
    set id | id in t && IsDue(k, t[id], now)
  }
}
