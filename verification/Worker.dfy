/** The worker harness (`_run_probe_task` in app/tasks.py) and chains of retried attempts. */
module Worker {
  import opened Common
  import opened Monitors
  import opened Db
  import opened Net

  const TRANSIENT_ERRORS: set<ErrorDetail> :=
    {ConnectTimeout, ReadTimeout, WriteTimeout, PoolTimeout, TotalTimeout, ConnectError}

  predicate Transient(d: Dto) {
    d.error.Some? && d.error.value in TRANSIENT_ERRORS
  }

  /** Where, if anywhere, the soft time limit interrupts an attempt. */
  datatype SoftLimit = Never | BeforeRead | DuringProbe | BeforeCommit | AfterCommit

  datatype Task = Task(id: Id, check: CheckType, retries: nat, maxRetries: nat)

  /** What the outside world does to one attempt. */
  datatype Attempt = Attempt(dto: Dto, limit: SoftLimit, now: Time, recoveryNow: Time)

  datatype TaskOutcome =
    | NotFound
    | Skipped
    | MissingUrl
    | Completed(outcome: Outcome, error: Option<ErrorDetail>)
    | Retry(countdown: nat)
    | IntegrityError

  function Pow2(n: nat): nat {
    if n == 0 then 1 else 2 * Pow2(n - 1)
  }

  function WithStatus(t: Tables, id: Id, status: Status, at: Time): Tables
    requires id in t.monitors
  {
    t.(monitors := t.monitors[id := t.monitors[id].(status := status, lastChecked := Some(at))])
  }

  function WithResult(t: Tables, r: PingResult): Tables {
    t.(results := t.results + [r])
  }

  // ----- The net effect of one attempt -----

  /** The attempt gets as far as probing. */
  predicate Probes(t: Tables, task: Task) {
    && task.id in t.monitors
    && (task.check.KeepAliveCheck? ==> t.monitors[task.id].keepAliveEnabled)
    && t.monitors[task.id].url != ""
  }

  predicate Retries(t: Tables, task: Task, a: Attempt) {
    Probes(t, task) && a.limit in {Never, AfterCommit} && Transient(a.dto) && task.retries < task.maxRetries
  }

  /** What a probe that is kept stores: one result, and for a health check the status. */
  function Recorded(t: Tables, task: Task, a: Attempt): Tables
    requires task.id in t.monitors
  {
    var result := PingResult(task.id, task.check, a.dto.statusCode, a.dto.error, a.now);
    if task.check.HealthCheck? then WithResult(WithStatus(t, task.id, OutcomeToStatus(a.dto.outcome), a.now), result)
    else WithResult(t, result)
  }

  /** What the soft-limit recovery stores: one result and DOWN, for keep-alive tasks too. An unknown
      monitor makes its commit fail. */
  function Recovery(t: Tables, task: Task, a: Attempt): (Tables, TaskOutcome) {
    if task.id in t.monitors then
      (WithResult(WithStatus(t, task.id, Down, a.recoveryNow),
                  PingResult(task.id, task.check, None, Some(TaskSoftTimeLimit), a.recoveryNow)),
       Completed(OutcomeDown, Some(TaskSoftTimeLimit)))
    else (t, IntegrityError)
  }

  /** The limit strikes at a point this attempt reaches. */
  predicate Interrupted(t: Tables, task: Task, a: Attempt) {
    match a.limit
    case Never => false
    case BeforeRead => true
    case DuringProbe => Probes(t, task)
    case BeforeCommit => Probes(t, task)
    case AfterCommit => !Retries(t, task, a)
  }

  function Effect(t: Tables, task: Task, a: Attempt): (Tables, TaskOutcome) {
    if Retries(t, task, a) then (t, Retry(Pow2(task.retries)))
    else if Interrupted(t, task, a) then
      Recovery(if a.limit.AfterCommit? && Probes(t, task) then Recorded(t, task, a) else t, task, a)
    else if task.id !in t.monitors then (t, NotFound)
    else if task.check.KeepAliveCheck? && !t.monitors[task.id].keepAliveEnabled then (t, Skipped)
    else if t.monitors[task.id].url == "" then (t, MissingUrl)
    else (Recorded(t, task, a), Completed(a.dto.outcome, a.dto.error))
  }

  /** The same attempt when others write between its read and its commit: it decides on what it `read` and writes
      to what is stored when it commits. If the monitor is gone by then the commit fails as a whole. */
  function LateEffect(read: Tables, t: Tables, task: Task, a: Attempt): (Tables, TaskOutcome) {
    if Retries(read, task, a) then (t, Retry(Pow2(task.retries)))
    else if Probes(read, task) && a.limit in {Never, AfterCommit} && task.id !in t.monitors then (t, IntegrityError)
    else if Interrupted(read, task, a) then
      Recovery(if a.limit.AfterCommit? && Probes(read, task) then Recorded(t, task, a) else t, task, a)
    else if task.id !in read.monitors then (t, NotFound)
    else if task.check.KeepAliveCheck? && !read.monitors[task.id].keepAliveEnabled then (t, Skipped)
    else if read.monitors[task.id].url == "" then (t, MissingUrl)
    else (Recorded(t, task, a), Completed(a.dto.outcome, a.dto.error))
  }

  /** The two agree whenever the monitor is still there and would still be probed; whatever happened to other rows,
      and to the rest of its own, makes no difference. If it was deleted, nothing is stored. */
  lemma LateEffectIsEffect(read: Tables, t: Tables, task: Task, a: Attempt)
    requires Probes(read, task)
    ensures Probes(t, task) ==> LateEffect(read, t, task, a) == Effect(t, task, a)
    ensures task.id !in t.monitors ==> LateEffect(read, t, task, a).0 == t
  {
  }

  /** A monitor that was disabled while it was being probed still gets its result; a task that does not probe, or
      that retries, stores nothing. */
  lemma LateResultIsStored(read: Tables, t: Tables, task: Task, a: Attempt)
    requires a.limit.Never?
    ensures LateEffect(read, t, task, a).1.Completed? && task.id in t.monitors ==>
              LateEffect(read, t, task, a).0.results
              == t.results + [PingResult(task.id, task.check, a.dto.statusCode, a.dto.error, a.now)]
    ensures !LateEffect(read, t, task, a).1.Completed? || task.id !in t.monitors ==> LateEffect(read, t, task, a).0 == t
    ensures LateEffect(read, t, task, a).1 ==
              if Probes(read, task) && !Retries(read, task, a) && task.id !in t.monitors then IntegrityError
              else Effect(read, task, a).1
  {
  }

  // ----- The harness -----

  /** How the body of the `with` block ends: by returning or by raising. */
  datatype BlockEnd = Returns(outcome: TaskOutcome) | RaisesRetry(countdown: nat) | RaisesSoftLimit

  /** The body of the transaction. Everything it writes is still in the session. */
  method ProbeBlock(session: Session, task: Task, a: Attempt) returns (end: BlockEnd)
    requires ReferencesHold(session.work)
    modifies session`work
    ensures ReferencesHold(session.work)
    ensures end == BlockResult(old(session.work), task, a)
    ensures end.Returns? ==> session.work == if Probes(old(session.work), task) then Recorded(old(session.work), task, a)
                                             else old(session.work)
  {
    if a.limit.BeforeRead? {
      return RaisesSoftLimit;
    }
    if task.id !in session.work.monitors {
      return Returns(NotFound);
    }
    var monitor := session.work.monitors[task.id];
    if task.check.KeepAliveCheck? && !monitor.keepAliveEnabled {
      return Returns(Skipped);
    }
    if monitor.url == "" {
      return Returns(MissingUrl);
    }
    if a.limit.DuringProbe? {
      return RaisesSoftLimit;
    }
    if task.check.HealthCheck? {
      session.work := WithStatus(session.work, task.id, OutcomeToStatus(a.dto.outcome), a.now);
    }
    session.work := WithResult(session.work, PingResult(task.id, task.check, a.dto.statusCode, a.dto.error, a.now));
    if a.limit.BeforeCommit? {
      return RaisesSoftLimit;
    }
    if Transient(a.dto) && task.retries < task.maxRetries {
      return RaisesRetry(Pow2(task.retries));
    }
    return Returns(Completed(a.dto.outcome, a.dto.error));
  }

  function BlockResult(t: Tables, task: Task, a: Attempt): BlockEnd {
    if a.limit.BeforeRead? then RaisesSoftLimit
    else if Probes(t, task) then
      if a.limit.DuringProbe? || a.limit.BeforeCommit? then RaisesSoftLimit
      else if Retries(t, task, a) then RaisesRetry(Pow2(task.retries))
      else Returns(Completed(a.dto.outcome, a.dto.error))
    else Returns(if task.id !in t.monitors then NotFound
                 else if task.check.KeepAliveCheck? && !t.monitors[task.id].keepAliveEnabled then Skipped
                 else MissingUrl)
  }

  /** One attempt: the block commits on return and rolls back when it raises; the soft limit is then
      recorded in a transaction of its own. */
  method RunProbeTask(db: Database, task: Task, a: Attempt) returns (outcome: TaskOutcome)
    requires db.Valid()
    modifies db`tables
    ensures db.Valid()
    ensures (db.tables, outcome) == Effect(old(db.tables), task, a)
  {
    EffectKeepsValid(db.tables, db.tables, task, a);
    AtOnce(db.tables, task, a);
    var session := new Session(db);
    var end := ProbeBlock(session, task, a);
    if end.Returns? {
      var _ := session.Commit();
      if a.limit.AfterCommit? {
        end := RaisesSoftLimit;
      }
    } else {
      session.Rollback();
    }
    match end {
      case Returns(o) => outcome := o;
      case RaisesRetry(countdown) => outcome := Retry(countdown);
      case RaisesSoftLimit => outcome := RecoverFromSoftLimit(db, task, a);
    }
  }

  method RecoverFromSoftLimit(db: Database, task: Task, a: Attempt) returns (outcome: TaskOutcome)
    requires ReferencesHold(db.tables)
    modifies db`tables
    ensures (db.tables, outcome) == Recovery(old(db.tables), task, a)
  {
    var session := new Session(db);
    if task.id in session.work.monitors {
      session.work := WithStatus(session.work, task.id, Down, a.recoveryNow);
    }
    session.work := WithResult(session.work, PingResult(task.id, task.check, None, Some(TaskSoftTimeLimit), a.recoveryNow));
    assert session.work.results[|session.work.results| - 1].monitorId == task.id;
    var ok := session.Commit();
    outcome := if ok then Completed(OutcomeDown, Some(TaskSoftTimeLimit)) else IntegrityError;
  }

  lemma AtOnce(t: Tables, task: Task, a: Attempt)
    ensures LateEffect(t, t, task, a) == Effect(t, task, a)
  {
  }

  lemma EffectKeepsValid(read: Tables, t: Tables, task: Task, a: Attempt)
    ensures var after := LateEffect(read, t, task, a).0;
            && (TableOk(t.monitors) ==> TableOk(after.monitors))
            && (ReferencesHold(t) ==> ReferencesHold(after))
            && after.monitors.Keys == t.monitors.Keys
  {
    EffectOnRows(read, t, task, a);
    hide LateEffect;
    var after := LateEffect(read, t, task, a).0;
    if TableOk(t.monitors) {
      forall id | id in after.monitors
        ensures RowOk(after.monitors[id])
      {
        assert RowOk(t.monitors[id]);
      }
    }
  }

  /** Only the status columns of monitor `id` differ, and results were appended for it alone. */
  ghost predicate TouchesOnly(t: Tables, id: Id, after: Tables) {
    && after.monitors.Keys == t.monitors.Keys
    && (forall other :: other in t.monitors ==>
          after.monitors[other] == t.monitors[other].(status := after.monitors[other].status,
                                                      lastChecked := after.monitors[other].lastChecked))
    && (forall other :: other in t.monitors && other != id ==> after.monitors[other] == t.monitors[other])
    && t.results <= after.results
    && (forall i :: |t.results| <= i < |after.results| ==> after.results[i].monitorId == id)
    && (|after.results| > |t.results| ==> id in t.monitors)
  }

  lemma TouchesNothing(t: Tables, id: Id)
    ensures TouchesOnly(t, id, t)
  {
  }

  lemma RecordedTouchesOnly(t: Tables, task: Task, a: Attempt)
    requires task.id in t.monitors
    ensures TouchesOnly(t, task.id, Recorded(t, task, a))
  {
  }

  lemma RecoveryTouchesOnly(t: Tables, task: Task, a: Attempt)
    ensures TouchesOnly(t, task.id, Recovery(t, task, a).0)
  {
  }

  lemma TouchesTwice(t: Tables, id: Id, u: Tables, after: Tables)
    requires TouchesOnly(t, id, u) && TouchesOnly(u, id, after)
    ensures TouchesOnly(t, id, after)
  {
  }

  /** An attempt writes only the status columns of its own monitor, and appends results for it. */
  lemma EffectOnRows(read: Tables, t: Tables, task: Task, a: Attempt)
    ensures TouchesOnly(t, task.id, LateEffect(read, t, task, a).0)
  {
    hide TouchesOnly, Recorded, Recovery;
    TouchesNothing(t, task.id);
    if task.id in t.monitors {
      RecordedTouchesOnly(t, task, a);
      RecoveryTouchesOnly(Recorded(t, task, a), task, a);
      TouchesTwice(t, task.id, Recorded(t, task, a), Recovery(Recorded(t, task, a), task, a).0);
    }
    RecoveryTouchesOnly(t, task, a);
  }

  /** A retried attempt leaves the database as it was. */
  lemma RetryChangesNothing(t: Tables, task: Task, a: Attempt)
    requires Effect(t, task, a).1.Retry?
    ensures Effect(t, task, a).0 == t && task.retries < task.maxRetries
    ensures Effect(t, task, a).1.countdown == Pow2(task.retries)
  {
  }

  /** A soft limit before the commit leaves exactly the recovery row and DOWN, none of the attempt's writes. */
  lemma SoftLimitBeforeCommit(t: Tables, task: Task, a: Attempt)
    requires Probes(t, task) && a.limit in {BeforeRead, DuringProbe, BeforeCommit}
    ensures var after := Effect(t, task, a).0;
            && after.results == t.results + [PingResult(task.id, task.check, None, Some(TaskSoftTimeLimit), a.recoveryNow)]
            && after.monitors == t.monitors[task.id := t.monitors[task.id].(status := Down, lastChecked := Some(a.recoveryNow))]
    ensures Effect(t, task, a).1 == Completed(OutcomeDown, Some(TaskSoftTimeLimit))
  {
  }

  /** A keep-alive task leaves the status columns alone unless the soft limit interrupts it; then its monitor is
      DOWN as of the recovery, so they stay as they were only if they already said so. */
  lemma KeepAliveStatus(t: Tables, task: Task, a: Attempt)
    requires task.check.KeepAliveCheck? && task.id in t.monitors
    ensures var row, after := t.monitors[task.id], Effect(t, task, a).0.monitors;
            && after == (if Interrupted(t, task, a)
                         then t.monitors[task.id := row.(status := Down, lastChecked := Some(a.recoveryNow))] else t.monitors)
            && (after == t.monitors <==>
                  !Interrupted(t, task, a) || (row.status == Down && row.lastChecked == Some(a.recoveryNow)))
  {
    var row := t.monitors[task.id];
    var down := row.(status := Down, lastChecked := Some(a.recoveryNow));
    assert t.monitors[task.id := down] == t.monitors <==> down == row;
  }

  /** A completed health check stores the status its code stands for, and exactly its own result. */
  lemma CompletedHealthCheck(t: Tables, task: Task, a: Attempt)
    requires task.check.HealthCheck? && a.limit.Never? && TwoShapes(a.dto)
    requires Effect(t, task, a).1.Completed?
    ensures task.id in t.monitors
    ensures var after, row := Effect(t, task, a).0, t.monitors[task.id];
            && after.results == t.results + [PingResult(task.id, HealthCheck, a.dto.statusCode, a.dto.error, a.now)]
            && task.id in after.monitors
            && after.monitors == t.monitors[task.id := row.(status := after.monitors[task.id].status, lastChecked := Some(a.now))]
            && after.monitors[task.id].status ==
                 (if a.dto.statusCode.None? then Down
                  else if 100 <= a.dto.statusCode.value <= 399 then Up
                  else if 400 <= a.dto.statusCode.value <= 499 then Degraded
                  else Down)
  {
  }

  /** A completed keep-alive task stores its own result and nothing else. */
  lemma CompletedKeepAlive(t: Tables, task: Task, a: Attempt)
    requires task.check.KeepAliveCheck? && a.limit.Never? && Effect(t, task, a).1.Completed?
    ensures Effect(t, task, a).0 ==
            t.(results := t.results + [PingResult(task.id, KeepAliveCheck, a.dto.statusCode, a.dto.error, a.now)])
  {
  }

  /** A soft limit after the commit adds the recovery's row to the attempt's own, and the recovery's DOWN stays. */
  lemma SoftLimitAfterCommit(t: Tables, task: Task, a: Attempt)
    requires Probes(t, task) && a.limit.AfterCommit? && !Effect(t, task, a).1.Retry?
    ensures var after := Effect(t, task, a).0;
            && after.results == t.results + [PingResult(task.id, task.check, a.dto.statusCode, a.dto.error, a.now),
                                             PingResult(task.id, task.check, None, Some(TaskSoftTimeLimit), a.recoveryNow)]
            && after.monitors == t.monitors[task.id := t.monitors[task.id].(status := Down, lastChecked := Some(a.recoveryNow))]
    ensures Effect(t, task, a).1 == Completed(OutcomeDown, Some(TaskSoftTimeLimit))
  {
    assert Recorded(t, task, a).monitors[task.id].(status := Down, lastChecked := Some(a.recoveryNow))
        == t.monitors[task.id].(status := Down, lastChecked := Some(a.recoveryNow));
  }

  /** The soft limit of a task whose monitor is gone stores nothing: its result would refer to no monitor. */
  lemma SoftLimitWithoutMonitor(t: Tables, task: Task, a: Attempt)
    requires task.id !in t.monitors && !a.limit.Never?
    ensures a.limit in {BeforeRead, AfterCommit} ==> Effect(t, task, a) == (t, IntegrityError)
    ensures a.limit in {DuringProbe, BeforeCommit} ==> Effect(t, task, a) == (t, NotFound)
  {
  }

  /** A task retries exactly when it probed, got a transient error, has retries left, and no soft limit came first. */
  lemma RetriesExactly(t: Tables, task: Task, a: Attempt)
    ensures Effect(t, task, a).1.Retry? <==>
            && task.id in t.monitors && t.monitors[task.id].url != ""
            && (task.check.HealthCheck? || t.monitors[task.id].keepAliveEnabled)
            && (a.limit.Never? || a.limit.AfterCommit?)
            && (|| a.dto.error == Some(ConnectTimeout) || a.dto.error == Some(ReadTimeout) || a.dto.error == Some(WriteTimeout)
                || a.dto.error == Some(PoolTimeout) || a.dto.error == Some(TotalTimeout) || a.dto.error == Some(ConnectError))
            && task.retries < task.maxRetries
  {
  }

  /** Without a soft limit: when a task is not probed, which reason it gives, and that it then stores nothing. */
  lemma NotProbedExactly(t: Tables, task: Task, a: Attempt)
    requires a.limit.Never?
    ensures Effect(t, task, a).1.NotFound? <==> task.id !in t.monitors
    ensures Effect(t, task, a).1.Skipped? <==>
            task.id in t.monitors && task.check.KeepAliveCheck? && !t.monitors[task.id].keepAliveEnabled
    ensures Effect(t, task, a).1.MissingUrl? <==>
            && task.id in t.monitors && t.monitors[task.id].url == ""
            && (task.check.HealthCheck? || t.monitors[task.id].keepAliveEnabled)
    ensures Effect(t, task, a).1.Completed? ==> Effect(t, task, a).1 == Completed(a.dto.outcome, a.dto.error)
    ensures !Effect(t, task, a).1.Completed? ==> Effect(t, task, a).0 == t && !Effect(t, task, a).1.IntegrityError?
  {
  }

  /** A probe that got a status code is never retried. */
  lemma StatusCodeNeverRetries(t: Tables, task: Task, a: Attempt)
    requires TwoShapes(a.dto) && a.dto.statusCode.Some?
    ensures !Effect(t, task, a).1.Retry?
  {
  }

  // ----- Chains of attempts -----

  /** One executed attempt, with the tables it found and left. Between attempts anything may happen. */
  datatype Execution = Execution(before: Tables, attempt: Attempt, after: Tables, outcome: TaskOutcome)

  /** The executions of one dispatched task, numbered by `retries`: each retry schedules the next, nothing else does. */
  ghost predicate Chain(id: Id, check: CheckType, maxRetries: nat, first: nat, runs: seq<Execution>) {
    && runs != []
    && (forall i :: 0 <= i < |runs| ==>
          (runs[i].after, runs[i].outcome) == Effect(runs[i].before, Task(id, check, first + i, maxRetries), runs[i].attempt))
    && (forall i :: 0 <= i < |runs| - 1 ==> runs[i].outcome.Retry?)
  }

  function Added(r: Execution): int {
    |r.after.results| - |r.before.results|
  }

  function TotalAdded(runs: seq<Execution>): int {
    if runs == [] then 0 else Added(runs[0]) + TotalAdded(runs[1..])
  }

  function TotalBackoff(runs: seq<Execution>): nat {
    if runs == [] then 0
    else (if runs[0].outcome.Retry? then runs[0].outcome.countdown else 0) + TotalBackoff(runs[1..])
  }

  /** All attempts but the last leave the database unchanged, so the rows a chain adds and the status it
      shows are the last attempt's alone; there are at most maxRetries + 1 attempts and the backoffs
      add up to less than 2^maxRetries (from the first attempt on). */
  lemma {:induction false} ChainEffect(id: Id, check: CheckType, maxRetries: nat, first: nat, runs: seq<Execution>)
    requires Chain(id, check, maxRetries, first, runs) && first <= maxRetries
    ensures first + |runs| <= maxRetries + 1
    ensures forall i :: 0 <= i < |runs| - 1 ==> runs[i].after == runs[i].before
    ensures TotalAdded(runs) == Added(runs[|runs| - 1])
    ensures TotalBackoff(runs) + Pow2(first) <= Pow2(maxRetries)
    decreases |runs|
  {
    var task := Task(id, check, first, maxRetries);
    var head := runs[0];
    Pow2Grows(first, maxRetries);
    assert (head.after, head.outcome) == Effect(head.before, task, head.attempt) by {
      assert runs[0] == head && first + 0 == first;
    }
    if head.outcome.Retry? {
      RetryChangesNothing(head.before, task, head.attempt);
      Pow2Grows(first + 1, maxRetries);
    }
    if |runs| > 1 {
      var rest := runs[1..];
      forall i | 0 <= i < |rest|
        ensures (rest[i].after, rest[i].outcome)
                == Effect(rest[i].before, Task(id, check, first + 1 + i, maxRetries), rest[i].attempt)
      {
        assert rest[i] == runs[i + 1] && first + (i + 1) == first + 1 + i;
      }
      hide Effect;
      ChainEffect(id, check, maxRetries, first + 1, rest);
      assert forall i :: 1 <= i < |runs| - 1 ==> runs[i] == rest[i - 1];
    } else {
      assert runs[1..] == [];
    }
  }

  lemma {:induction false} Pow2Grows(a: nat, b: nat)
    requires a <= b
    ensures 1 <= Pow2(a) <= Pow2(b)
  {
    if a < b {
      Pow2Grows(a, b - 1);
    } else if a > 0 {
      Pow2Grows(a - 1, b - 1);
    }
  }

  /** The whole chain of one dispatch: at most maxRetries + 1 attempts, backoffs of at most 2^maxRetries - 1,
      and, unless the soft limit strikes after the last commit, at most one result row, exactly one when
      it ends completed. */
  lemma DispatchLeavesOneResult(id: Id, check: CheckType, maxRetries: nat, runs: seq<Execution>)
    requires Chain(id, check, maxRetries, 0, runs)
    ensures |runs| <= maxRetries + 1 && TotalBackoff(runs) <= Pow2(maxRetries) - 1
    ensures var last := runs[|runs| - 1];
            && (last.outcome.Completed? ==>
                  TotalAdded(runs) ==
                    if last.attempt.limit.AfterCommit? && Probes(last.before, Task(id, check, |runs| - 1, maxRetries))
                    then 2 else 1)
            && (!last.outcome.Completed? ==> TotalAdded(runs) == 0)
  {
    ChainEffect(id, check, maxRetries, 0, runs);
    var n := |runs| - 1;
    assert (runs[n].after, runs[n].outcome) == Effect(runs[n].before, Task(id, check, 0 + n, maxRetries), runs[n].attempt);
  }
}
