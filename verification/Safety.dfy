/** What every reachable state of the step machine satisfies, step by step. */
module Safety {
  import opened Common
  import opened Monitors
  import opened Schemas
  import Api
  import opened Db
  import opened Claims
  import Worker
  import opened Scheduler

  // ----- Rows, references and the monitor cap -----

  ghost predicate StoreOk(c: Config, s: State) {
    && TableOk(s.tables.monitors)
    && ReferencesHold(s.tables)
    && (forall id :: id in s.tables.monitors ==> id < s.nextId)
    && (forall rid :: rid in s.creating ==> ValidateCreate(s.creating[rid].payload).None?)
    && |s.creating| <= c.maxCreates
    && |s.tables.monitors| + |s.creating| <= c.maxMonitors + c.maxCreates - 1
  }

  lemma CountKeepsStore(c: Config, s: State, rid: nat, p: MonitorCreate)
    requires ValidConfig(c) && StoreOk(c, s) && Enabled(c, s, CountCreate(rid, p))
    ensures StoreOk(c, Apply(c, s, CountCreate(rid, p)))
  {
    hide TableOk, ReferencesHold, ValidateCreate;
    AddedKey(s.creating, rid, PendingCreate(p, s.clock));
  }

  lemma CommitKeepsStore(c: Config, s: State, rid: nat)
    requires StoreOk(c, s) && Enabled(c, s, CommitCreate(rid))
    ensures StoreOk(c, Apply(c, s, CommitCreate(rid)))
  {
    hide StoreOk;
    CommittedStore(c, s, rid);
  }

  lemma CommittedStore(c: Config, s: State, rid: nat)
    requires StoreOk(c, s) && rid in s.creating
    ensures StoreOk(c, ApplyCommit(s, rid))
  {
    hide RowOk, ValidateCreate;
    var p := s.creating[rid];
    assert RowOk(Api.NewRow(p.payload, p.now));
    AddedKey(s.tables.monitors, s.nextId, Api.NewRow(p.payload, p.now));
    RemovedKey(s.creating, rid);
  }

  /** Steps that only rewrite rows in place keep everything if they keep each row. */
  lemma RewriteKeepsStore(c: Config, s: State, t: State)
    requires StoreOk(c, s) && t.nextId == s.nextId && t.creating == s.creating
    requires t.tables.monitors.Keys == s.tables.monitors.Keys && TableOk(t.tables.monitors) && ReferencesHold(t.tables)
    ensures StoreOk(c, t)
  {
    hide TableOk, ReferencesHold, ValidateCreate;
    assert |t.tables.monitors.Keys| == |s.tables.monitors.Keys|;
  }

  lemma DeleteKeepsStore(c: Config, s: State, id: Id)
    requires StoreOk(c, s)
    ensures StoreOk(c, Apply(c, s, Delete(id)))
  {
    hide StoreOk, WithoutMonitor;
    DeletedStore(c, s, id);
  }

  lemma DeletedStore(c: Config, s: State, id: Id)
    requires StoreOk(c, s)
    ensures StoreOk(c, s.(tables := WithoutMonitor(s.tables, id)))
  {
    hide ReferencesHold, RowOk, ValidateCreate;
    var t := WithoutMonitor(s.tables, id);
    SubsetCardinality(t.monitors.Keys, s.tables.monitors.Keys);
  }

  lemma UpdateKeepsStore(c: Config, s: State, id: Id, u: MonitorUpdate)
    requires StoreOk(c, s)
    ensures StoreOk(c, Apply(c, s, Update(id, u)))
  {
    hide TableOk, ReferencesHold, ValidateCreate, Api.Accepts, Api.Merged, ApplyUpdate;
    UpdatedParts(s, id, u);
    UpdateKeepsRows(s.tables, id, u, s.clock);
    RewriteKeepsStore(c, s, ApplyUpdate(s, id, u));
  }

  lemma UpdatedParts(s: State, id: Id, u: MonitorUpdate)
    ensures var t := ApplyUpdate(s, id, u);
            && t.nextId == s.nextId && t.creating == s.creating
            && t.tables == if id in s.tables.monitors && Api.Accepts(s.tables.monitors[id], u)
                           then s.tables.(monitors := s.tables.monitors[id := Api.Merged(s.tables.monitors[id], u, s.clock)])
                           else s.tables
  {
    hide Api.Accepts, Api.Merged, SafeToArm, Arms;
  }

  lemma UpdateKeepsRows(t: Tables, id: Id, u: MonitorUpdate, now: Time)
    requires TableOk(t.monitors) && ReferencesHold(t)
    ensures id in t.monitors && Api.Accepts(t.monitors[id], u) ==>
              var after := t.(monitors := t.monitors[id := Api.Merged(t.monitors[id], u, now)]);
              after.monitors.Keys == t.monitors.Keys && TableOk(after.monitors) && ReferencesHold(after)
  {
    if id in t.monitors && Api.Accepts(t.monitors[id], u) {
      Api.AcceptedIsConsistent(t.monitors[id], u, now);
    }
    hide RowOk, Api.Accepts, Api.Merged;
  }

  lemma StepKeepsStore(c: Config, s: State, e: Event)
    requires ValidConfig(c) && StoreOk(c, s) && Enabled(c, s, e)
    ensures StoreOk(c, Apply(c, s, e))
  {
    hide StoreOk, Enabled, Apply, ValidConfig;
    if e.CountCreate? || e.CommitCreate? || e.AbandonCreate? || e.Delete? || e.Update? {
      ApiStepKeepsStore(c, s, e);
    } else if e.Execute? || e.ExecuteOnDemand? {
      WorkerStepKeepsStore(c, s, e);
    } else {
      SweepStepKeepsStore(c, s, e);
    }
  }

  lemma AbandonKeepsStore(c: Config, s: State, rid: nat)
    requires StoreOk(c, s) && Enabled(c, s, AbandonCreate(rid))
    ensures StoreOk(c, Apply(c, s, AbandonCreate(rid)))
  {
    hide StoreOk;
    AbandonedStore(c, s, rid);
  }

  lemma AbandonedStore(c: Config, s: State, rid: nat)
    requires StoreOk(c, s)
    ensures StoreOk(c, s.(creating := s.creating - {rid}))
  {
    hide TableOk, ReferencesHold, ValidateCreate;
    RemovedKey(s.creating, rid);
  }

  lemma ApiStepKeepsStore(c: Config, s: State, e: Event)
    requires ValidConfig(c) && StoreOk(c, s) && Enabled(c, s, e)
    requires e.CountCreate? || e.CommitCreate? || e.AbandonCreate? || e.Delete? || e.Update?
    ensures StoreOk(c, Apply(c, s, e))
  {
    hide StoreOk, Enabled, Apply, ValidConfig;
    match e
    case CountCreate(rid, p) => CountKeepsStore(c, s, rid, p);
    case CommitCreate(rid) => CommitKeepsStore(c, s, rid);
    case AbandonCreate(rid) => AbandonKeepsStore(c, s, rid);
    case Delete(id) => DeleteKeepsStore(c, s, id);
    case Update(id, u) => UpdateKeepsStore(c, s, id, u);
  }

  lemma WorkerStepKeepsStore(c: Config, s: State, e: Event)
    requires StoreOk(c, s) && Enabled(c, s, e) && (e.Execute? || e.ExecuteOnDemand?)
    ensures StoreOk(c, Apply(c, s, e))
  {
    hide StoreOk, Worker.LateEffect, TableOk, ReferencesHold;
    match e
    case Execute(message, maxRetries, read, a) =>
      var p := s.log[message];
      ExecutionKeepsStore(c, s, Worker.Task(p.id, CheckOf(p.schedule), s.broker[message], maxRetries), read, a, Apply(c, s, e));
    case ExecuteOnDemand(id, retries, maxRetries, read, a) =>
      ExecutionKeepsStore(c, s, Worker.Task(id, HealthCheck, retries, maxRetries), read, a, Apply(c, s, e));
  }

  lemma SweepStepKeepsStore(c: Config, s: State, e: Event)
    requires StoreOk(c, s) && Enabled(c, s, e)
    requires e.Tick? || e.StartSweep? || e.ClaimBatch? || e.PublishNext? || e.RecoverBatch? || e.Crash? || e.Discard?
    ensures StoreOk(c, Apply(c, s, e))
  {
    hide StoreOk, Apply, Enabled;
    StoreParts(c, s);
    var k, ids, now := SweepStepParts(c, s, e);
    ScheduleStepKeepsStore(s.tables, k, ids, now);
    RewriteKeepsStore(c, s, Apply(c, s, e));
  }

  lemma StoreParts(c: Config, s: State)
    requires StoreOk(c, s)
    ensures TableOk(s.tables.monitors) && ReferencesHold(s.tables)
  {
  }

  /** The sweeps' own steps advance or reset some rows, or leave the tables alone. */
  lemma SweepStepParts(c: Config, s: State, e: Event) returns (k: Schedule, ids: set<Id>, now: Time)
    requires Enabled(c, s, e)
    requires e.Tick? || e.StartSweep? || e.ClaimBatch? || e.PublishNext? || e.RecoverBatch? || e.Crash? || e.Discard?
    ensures var t := Apply(c, s, e);
            && t.nextId == s.nextId && t.creating == s.creating
            && (|| t.tables == s.tables
                || t.tables == s.tables.(monitors := Advance(s.tables.monitors, k, ids, now))
                || t.tables == s.tables.(monitors := Reset(s.tables.monitors, k, ids, now)))
  {
    hide Advance, Reset, BatchOf, EarliestFirst;
    k, ids, now := Health, {}, 0;
    if e.ClaimBatch? {
      var sw := s.sweeps[e.sid];
      k, ids, now := sw.schedule, ClaimIds(BatchOf(s.tables.monitors, sw.schedule, e.ids)), sw.now;
    } else if e.RecoverBatch? {
      var sw := s.sweeps[e.sid];
      k, ids, now := sw.schedule, ClaimIds(sw.stage.queue), sw.now;
    }
  }

  lemma ScheduleStepKeepsStore(t: Tables, k: Schedule, ids: set<Id>, now: Time)
    requires TableOk(t.monitors) && ReferencesHold(t)
    ensures var advanced := t.(monitors := Advance(t.monitors, k, ids, now));
            var reset := t.(monitors := Reset(t.monitors, k, ids, now));
            && advanced.monitors.Keys == reset.monitors.Keys == t.monitors.Keys
            && TableOk(advanced.monitors) && TableOk(reset.monitors) && ReferencesHold(advanced) && ReferencesHold(reset)
  {
    AdvanceKeepsTable(t.monitors, k, ids, now);
    hide TableOk;
  }

  /** Which task a message runs, and what becomes of it: a retried one waits again with one more retry, any other
      is done; no other message is touched. */
  lemma MessageRunsItsTask(c: Config, s: State, message: nat, maxRetries: nat, read: Tables, a: Worker.Attempt)
    requires Enabled(c, s, Execute(message, maxRetries, read, a))
    ensures var e, t := s.log[message], Apply(c, s, Execute(message, maxRetries, read, a));
            var check := if e.schedule == Health then HealthCheck else KeepAliveCheck;
            var task := Worker.Task(e.id, check, s.broker[message], maxRetries);
            var (tables, outcome) := Worker.LateEffect(read, s.tables, task, a);
            && t.tables == tables
            && (outcome.Retry? ==> message in t.broker && t.broker[message] == s.broker[message] + 1)
            && (!outcome.Retry? ==> message !in t.broker)
            && (forall other :: other != message ==> (other in t.broker <==> other in s.broker))
            && (forall other :: other != message && other in s.broker ==> t.broker[other] == s.broker[other])
  {
    hide Worker.LateEffect;
  }

  /** An on-demand check is a health check, and leaves the broker alone. */
  lemma OnDemandIsHealthCheck(c: Config, s: State, id: Id, retries: nat, maxRetries: nat, read: Tables, a: Worker.Attempt)
    requires Enabled(c, s, ExecuteOnDemand(id, retries, maxRetries, read, a))
    ensures var t := Apply(c, s, ExecuteOnDemand(id, retries, maxRetries, read, a));
            && t.tables == Worker.LateEffect(read, s.tables, Worker.Task(id, HealthCheck, retries, maxRetries), a).0
            && t.broker == s.broker && t.log == s.log
  {
    hide Worker.LateEffect;
  }

  /** A counted request stores its row at its commit, under the next id, due as of the instant it was counted. */
  lemma CountedIsStored(c: Config, s: State, rid: nat, p: MonitorCreate, later: State)
    requires Enabled(c, s, CountCreate(rid, p)) && ValidateCreate(p).None? && |s.tables.monitors| < c.maxMonitors
    requires var counted := Apply(c, s, CountCreate(rid, p));
             rid in counted.creating && rid in later.creating && later.creating[rid] == counted.creating[rid]
    ensures var row := Apply(c, later, CommitCreate(rid)).tables.monitors;
            && later.nextId in row && row[later.nextId] == Api.NewRow(p, s.clock)
            && rid !in Apply(c, later, CommitCreate(rid)).creating
  {
    hide ValidateCreate, Api.NewRow;
  }

  lemma ExecutionKeepsStore(c: Config, s: State, task: Worker.Task, read: Tables, a: Worker.Attempt, t: State)
    requires StoreOk(c, s) && t.tables == Worker.LateEffect(read, s.tables, task, a).0
    requires t.nextId == s.nextId && t.creating == s.creating
    ensures StoreOk(c, t)
  {
    Worker.EffectKeepsValid(read, s.tables, task, a);
    hide Worker.LateEffect, TableOk, ReferencesHold;
    RewriteKeepsStore(c, s, t);
  }
}
