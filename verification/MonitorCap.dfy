/** The monitor cap under concurrent create requests: the exact largest table any run can build. */
module MonitorCap {
  import opened Common
  import opened Monitors
  import opened Schemas
  import Api
  import opened Db
  import opened Scheduler
  import opened Safety
  import opened Dispatch
  import opened Runs

  ghost predicate Below(s: set<nat>, n: nat) {
    forall x: nat :: x in s <==> x < n
  }

  lemma {:induction false} BelowCardinality(s: set<nat>, n: nat)
    requires Below(s, n)
    ensures |s| == n
  {
    if n == 0 {
      assert s == {};
    } else {
      BelowCardinality(s - {n - 1}, n - 1);
      assert s == (s - {n - 1}) + {n - 1};
    }
  }

  lemma DoCount(c: Config, es: seq<Event>, rid: nat) returns (more: seq<Event>)
    requires Legal(c, es) && rid !in After(c, es).creating && |After(c, es).creating| < c.maxCreates
    ensures Legal(c, more) && After(c, more) == ApplyCount(c, After(c, es), rid, MINIMAL)
  {
    more := Do(c, es, CountCreate(rid, MINIMAL));
  }

  lemma DoCommit(c: Config, es: seq<Event>, rid: nat) returns (more: seq<Event>)
    requires Legal(c, es) && rid in After(c, es).creating
    ensures Legal(c, more) && After(c, more) == ApplyCommit(After(c, es), rid)
  {
    more := Do(c, es, CommitCreate(rid));
  }

  /** `rows` monitors stored one after the other, then `counted` requests that have counted and not committed. */
  lemma {:induction false} CountThenWait(c: Config, rows: nat, counted: nat) returns (es: seq<Event>)
    requires ValidConfig(c) && counted <= c.maxCreates
    requires if counted == 0 then rows <= c.maxMonitors else rows < c.maxMonitors
    ensures Legal(c, es)
    ensures |After(c, es).tables.monitors| == rows && Below(After(c, es).creating.Keys, counted)
    decreases rows, counted
  {
    hide Apply, Enabled, Legal, After;
    assert ValidateCreate(MINIMAL).None?;
    if counted > 0 {
      es := CountThenWait(c, rows, counted - 1);
      BelowCardinality(After(c, es).creating.Keys, counted - 1);
      es := DoCount(c, es, counted - 1);
    } else if rows > 0 {
      es := CountThenWait(c, rows - 1, 0);
      BelowCardinality(After(c, es).creating.Keys, 0);
      es := DoCount(c, es, 0);
      es := CommitOne(c, es, 1);
    } else {
      es := NoEvents(c);
    }
  }

  lemma NoEvents(c: Config) returns (es: seq<Event>)
    ensures Legal(c, es) && After(c, es) == Start
  {
    es := [];
  }

  lemma CommitOne(c: Config, es: seq<Event>, waiting: nat) returns (more: seq<Event>)
    requires ValidConfig(c) && Legal(c, es) && waiting > 0 && Below(After(c, es).creating.Keys, waiting)
    ensures Legal(c, more)
    ensures |After(c, more).tables.monitors| == |After(c, es).tables.monitors| + 1
    ensures Below(After(c, more).creating.Keys, waiting - 1)
  {
    hide Legal, After, ApplyCommit, StoreOk, DispatchOk;
    ReachableOk(c, es);
    more := DoCommit(c, es, waiting - 1);
    CommittedOne(c, After(c, es), waiting - 1, waiting);
  }

  lemma CommittedOne(c: Config, s: State, rid: nat, waiting: nat)
    requires StoreOk(c, s) && Below(s.creating.Keys, waiting) && rid + 1 == waiting
    ensures rid in s.creating && |ApplyCommit(s, rid).tables.monitors| == |s.tables.monitors| + 1
    ensures Below(ApplyCommit(s, rid).creating.Keys, rid)
  {
    hide TableOk, ReferencesHold, ValidateCreate;
    var p := s.creating[rid];
    AddedKey(s.tables.monitors, s.nextId, Api.NewRow(p.payload, p.now));
  }

  lemma {:induction false} CommitAll(c: Config, es: seq<Event>, waiting: nat) returns (more: seq<Event>)
    requires ValidConfig(c) && Legal(c, es) && Below(After(c, es).creating.Keys, waiting)
    ensures Legal(c, more)
    ensures |After(c, more).tables.monitors| == |After(c, es).tables.monitors| + waiting
    decreases waiting
  {
    more := es;
    if waiting > 0 {
      more := CommitOne(c, es, waiting);
      more := CommitAll(c, more, waiting - 1);
    }
  }

  /** The largest table is exactly maxMonitors + maxCreates - 1 rows: no run exceeds it, and a run reaches it.
      With one create request at a time the cap is exact. */
  lemma LargestTable(c: Config, bound: nat)
    requires ValidConfig(c)
    ensures (forall es :: Legal(c, es) ==> |After(c, es).tables.monitors| <= bound)
            <==> c.maxMonitors + c.maxCreates - 1 <= bound
  {
    if c.maxMonitors + c.maxCreates - 1 <= bound {
      forall es | Legal(c, es)
        ensures |After(c, es).tables.monitors| <= bound
      {
        ReachableOk(c, es);
      }
    } else {
      var es := CountThenWait(c, c.maxMonitors - 1, c.maxCreates);
      es := CommitAll(c, es, c.maxCreates);
    }
  }
}
