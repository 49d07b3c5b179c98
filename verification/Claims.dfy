/** Claiming due monitors: earliest first, bounded, each advanced by its own interval. */
module Claims {
  import opened Common
  import opened Monitors

  /** The due time of a stored monitor, for ordering. */
  function DueTime(t: Table, k: Schedule, id: Id): Time {
    if id in t then DueAt(k, t[id]) else 0
  }

  ghost predicate Ordered(t: Table, k: Schedule, ids: seq<Id>) {
    forall i, j :: 0 <= i < j < |ids| ==> ids[i] != ids[j] && DueTime(t, k, ids[i]) <= DueTime(t, k, ids[j])
  }

  ghost predicate NoneEarlier(t: Table, k: Schedule, ids: set<Id>, rest: set<Id>) {
    forall id, other :: id in ids && other in rest ==> DueTime(t, k, id) <= DueTime(t, k, other)
  }

  /** `ids` are the first `limit` of `pool` by due time; ties may be broken either way. */
  ghost predicate EarliestFirst(t: Table, k: Schedule, pool: set<Id>, limit: nat, ids: seq<Id>) {
    && SetOf(ids) <= pool
    && |ids| == Min(limit, |pool|)
    && Ordered(t, k, ids)
    && NoneEarlier(t, k, SetOf(ids), pool - SetOf(ids))
  }

  /** The configuration a claimed row must have to be advanced; the health sweep has no such test. */
  predicate Claimable(k: Schedule, r: Row) {
    match k
    case Health => true
    case Activity => r.keepAliveEnabled && r.keepAliveInterval.Some? && r.keepAliveInterval.value != 0
  }

  function Advanced(k: Schedule, r: Row, now: Time): Row {
    if Interval(k, r).Some? then SetNext(k, r, now + Seconds(Interval(k, r).value)) else r
  }

  /** The table after the rows `ids` were claimed at `now`. */
  function Advance(t: Table, k: Schedule, ids: set<Id>, now: Time): Table {
    map id | id in t :: if id in ids then Advanced(k, t[id], now) else t[id]
  }

  /** The table after the recovery update, which resets every listed row that still exists. */
  function Reset(t: Table, k: Schedule, ids: set<Id>, now: Time): Table {
    map id | id in t :: if id in ids then SetNext(k, t[id], now) else t[id]
  }

  lemma DueRowsAreClaimable(t: Table, k: Schedule, now: Time, id: Id)
    requires TableOk(t) && id in DueIds(t, k, now)
    ensures Claimable(k, t[id]) && Interval(k, t[id]).Some? && IntervalInRange(Interval(k, t[id]).value)
    // The two keep-alive filters select the same rows.
    ensures k.Activity? ==> (t[id].keepAliveEnabled <==> t[id].mode in {KeepAlive, MonitorAndKeepAlive})
  {
    assert RowOk(t[id]);
  }

  /** Which monitors each half is for: health checks are for every mode but keep-alive only, keep-alive is for every
      mode but monitoring only; due is what has reached the stored instant. */
  lemma DueExactly(t: Table, now: Time, id: Id)
    requires TableOk(t) && id in t
    ensures t[id].nextCheck.Some? && (t[id].mode != Monitor ==> t[id].nextKeepAlive.Some?)
    ensures id in DueIds(t, Health, now) <==> t[id].mode != KeepAlive && t[id].nextCheck.value <= now
    ensures id in DueIds(t, Activity, now) <==> t[id].mode != Monitor && t[id].nextKeepAlive.value <= now
  {
    assert RowOk(t[id]);
  }

  /** What a claim and a recovery do to the stored columns. */
  lemma ColumnsMoved(t: Table, ids: set<Id>, now: Time, id: Id)
    requires id in t
    ensures var row := t[id];
            && Advance(t, Health, ids, now)[id] ==
                 (if id in ids then row.(nextCheck := Some(now + 1_000_000 * row.checkInterval)) else row)
            && Advance(t, Activity, ids, now)[id] ==
                 (if id in ids && row.keepAliveInterval.Some?
                  then row.(nextKeepAlive := Some(now + 1_000_000 * row.keepAliveInterval.value)) else row)
            && Reset(t, Health, ids, now)[id] == (if id in ids then row.(nextCheck := Some(now)) else row)
            && Reset(t, Activity, ids, now)[id] == (if id in ids then row.(nextKeepAlive := Some(now)) else row)
  {
  }

  lemma AdvanceKeepsTable(t: Table, k: Schedule, ids: set<Id>, now: Time)
    requires TableOk(t)
    ensures TableOk(Advance(t, k, ids, now)) && TableOk(Reset(t, k, ids, now))
  {
    forall id | id in t
      ensures RowOk(Advance(t, k, ids, now)[id]) && RowOk(Reset(t, k, ids, now)[id])
    {
      assert RowOk(t[id]);
    }
  }

  lemma {:induction false} HasEarliest(t: Table, k: Schedule, pool: set<Id>) returns (first: Id)
    requires pool != {}
    ensures first in pool && forall id :: id in pool ==> DueTime(t, k, first) <= DueTime(t, k, id)
    decreases |pool|
  {
    var some :| some in pool;
    first := some;
    if pool != {some} {
      var rest := HasEarliest(t, k, pool - {some});
      if DueTime(t, k, rest) < DueTime(t, k, some) {
        first := rest;
      }
    }
  }

  /** Earliest first, in stored columns: a claimed row comes no later than those claimed after it, and no later than
      the free due rows that were left. */
  lemma EarliestByColumn(t: Table, k: Schedule, now: Time, locked: set<Id>, limit: nat, ids: seq<Id>, i: nat, other: Id)
    requires EarliestFirst(t, k, DueIds(t, k, now) - locked, limit, ids)
    requires i < |ids| && (other in ids[i + 1..] || (other in DueIds(t, k, now) - locked && other !in ids))
    ensures ids[i] in t && other in t
    ensures k.Health? ==>
              && t[ids[i]].nextCheck.Some? && t[other].nextCheck.Some?
              && t[ids[i]].nextCheck.value <= t[other].nextCheck.value
    ensures k.Activity? ==>
              && t[ids[i]].nextKeepAlive.Some? && t[other].nextKeepAlive.Some?
              && t[ids[i]].nextKeepAlive.value <= t[other].nextKeepAlive.value
  {
    assert ids[i] in SetOf(ids);
    if other in ids[i + 1..] {
      var j :| i < j < |ids| && ids[j] == other;
      assert other in SetOf(ids);
      assert DueTime(t, k, ids[i]) <= DueTime(t, k, ids[j]);
    } else {
      assert other in DueIds(t, k, now) - locked - SetOf(ids);
    }
  }

  lemma OrderedAppend(t: Table, k: Schedule, a: seq<Id>, b: seq<Id>)
    requires Ordered(t, k, a) && Ordered(t, k, b)
    requires SetOf(a) !! SetOf(b) && NoneEarlier(t, k, SetOf(a), SetOf(b))
    ensures Ordered(t, k, a + b)
    ensures SetOf(a + b) == SetOf(a) + SetOf(b)
    ensures |SetOf(a + b)| == |a + b|
  {
    var both := a + b;
    forall i, j | 0 <= i < j < |both|
      ensures both[i] != both[j] && DueTime(t, k, both[i]) <= DueTime(t, k, both[j])
    {
      if i < |a| <= j {
        assert both[i] in SetOf(a) && both[j] in SetOf(b);
      }
    }
    SetOfCardinality(both);
  }

  lemma TakeNext(t: Table, k: Schedule, pool: set<Id>, ids: seq<Id>, id: Id)
    requires EarliestFirst(t, k, pool, |ids|, ids)
    requires id in pool - SetOf(ids) && forall other :: other in pool - SetOf(ids) ==> DueTime(t, k, id) <= DueTime(t, k, other)
    ensures EarliestFirst(t, k, pool, |ids| + 1, ids + [id])
    ensures SetOf(ids + [id]) == SetOf(ids) + {id}
  {
    assert SetOf([id]) == {id};
    OrderedAppend(t, k, ids, [id]);
    SubsetCardinality(SetOf(ids + [id]), pool);
  }

  lemma NothingTaken(t: Table, k: Schedule, pool: set<Id>)
    ensures EarliestFirst(t, k, pool, 0, []) && SetOf<Id>([]) == {}
  {
  }

  /** The SELECT ... ORDER BY ... LIMIT ... SKIP LOCKED of one batch. */
  method SelectDue(t: Table, k: Schedule, now: Time, limit: nat, locked: set<Id>) returns (ids: seq<Id>)
    ensures EarliestFirst(t, k, DueIds(t, k, now) - locked, limit, ids)
  {
    hide DueIds, Ordered, NoneEarlier, DueTime;
    ids := [];
    NothingTaken(t, k, DueIds(t, k, now) - locked);
    var free := DueIds(t, k, now) - locked;
    var pool := free;
    while |ids| < limit && pool != {}
      invariant |ids| <= limit
      invariant pool == free - SetOf(ids)
      invariant EarliestFirst(t, k, free, |ids|, ids)
      decreases pool
    {
      ghost var _ := HasEarliest(t, k, pool);
      var id :| id in pool && forall other :: other in pool ==> DueTime(t, k, id) <= DueTime(t, k, other);
      TakeNext(t, k, free, ids, id);
      ids := ids + [id];
      pool := pool - {id};
    }
    if pool == {} {
      ExhaustedClaim(t, k, free, |ids|, ids, limit);
    }
  }

  /** Claimed rows are no longer due at the same instant; every other due row still is. */
  lemma DueAfterAdvance(t: Table, k: Schedule, ids: set<Id>, now: Time)
    requires TableOk(t) && ids <= DueIds(t, k, now)
    ensures DueIds(Advance(t, k, ids, now), k, now) == DueIds(t, k, now) - ids
    ensures |DueIds(Advance(t, k, ids, now), k, now)| == |DueIds(t, k, now)| - |ids|
  {
    var after := Advance(t, k, ids, now);
    forall id | id in t
      ensures id in DueIds(after, k, now) <==> id in DueIds(t, k, now) && id !in ids
    {
      if id in ids {
        DueRowsAreClaimable(t, k, now, id);
      }
    }
    assert DueIds(t, k, now) == (DueIds(t, k, now) - ids) + ids;
  }

  lemma OrderedCount(t: Table, k: Schedule, ids: seq<Id>)
    requires Ordered(t, k, ids)
    ensures |SetOf(ids)| == |ids|
  {
    SetOfCardinality(ids);
  }

  lemma ClaimsCount(pool: set<Id>, n: nat, a: set<Id>, m: nat, b: set<Id>)
    requires a <= pool && |a| == Min(n, |pool|) && b <= pool - a && |b| == Min(m, |pool - a|)
    ensures |a| + |b| == Min(n + m, |pool|)
  {
    assert pool == a + (pool - a);
  }

  lemma NoneEarlierJoins(t: Table, k: Schedule, a: set<Id>, b: set<Id>, rest: set<Id>)
    requires NoneEarlier(t, k, a, rest) && b <= rest && NoneEarlier(t, k, b, rest - b)
    ensures NoneEarlier(t, k, a, b) && NoneEarlier(t, k, a + b, rest - b)
  {
    hide DueTime;
  }

  lemma ClaimsAppend(t: Table, k: Schedule, pool: set<Id>, n: nat, first: seq<Id>, m: nat, second: seq<Id>)
    requires EarliestFirst(t, k, pool, n, first)
    requires EarliestFirst(t, k, pool - SetOf(first), m, second)
    ensures EarliestFirst(t, k, pool, n + m, first + second)
  {
    hide Ordered, NoneEarlier, Min, SetOf;
    var rest := pool - SetOf(first);
    NoneEarlierJoins(t, k, SetOf(first), SetOf(second), rest);
    OrderedAppend(t, k, first, second);
    OrderedCount(t, k, first);
    OrderedCount(t, k, second);
    ClaimsCount(pool, n, SetOf(first), m, SetOf(second));
    assert pool - SetOf(first + second) == rest - SetOf(second);
  }

  /** Advancing some rows leaves the due times of the others alone, and so a claim made among the others. */
  lemma ClaimElsewhere(t: Table, k: Schedule, ids: set<Id>, now: Time, pool: set<Id>, m: nat, others: seq<Id>)
    requires pool !! ids
    requires EarliestFirst(Advance(t, k, ids, now), k, pool, m, others)
    ensures EarliestFirst(t, k, pool, m, others)
  {
    assert forall id :: id in pool ==> DueTime(Advance(t, k, ids, now), k, id) == DueTime(t, k, id);
    assert forall i :: 0 <= i < |others| ==> others[i] in SetOf(others);
  }

  lemma AdvanceTwice(t: Table, k: Schedule, first: seq<Id>, second: seq<Id>, now: Time)
    requires SetOf(first) !! SetOf(second)
    ensures Advance(Advance(t, k, SetOf(first), now), k, SetOf(second), now) == Advance(t, k, SetOf(first + second), now)
  {
    assert SetOf(first + second) == SetOf(first) + SetOf(second);
  }

  /** A further round on what the first left over extends one larger claim. */
  lemma RoundsCompose(t: Table, k: Schedule, now: Time, n: nat, first: seq<Id>, m: nat, second: seq<Id>)
    requires TableOk(t)
    requires EarliestFirst(t, k, DueIds(t, k, now), n, first)
    requires var t1 := Advance(t, k, SetOf(first), now);
             EarliestFirst(t1, k, DueIds(t1, k, now), m, second)
    ensures SetOf(first) !! SetOf(second)
    ensures EarliestFirst(t, k, DueIds(t, k, now), n + m, first + second)
    ensures Advance(Advance(t, k, SetOf(first), now), k, SetOf(second), now)
            == Advance(t, k, SetOf(first + second), now)
  {
    DueAfterAdvance(t, k, SetOf(first), now);
    ClaimElsewhere(t, k, SetOf(first), now, DueIds(t, k, now) - SetOf(first), m, second);
    ClaimsAppend(t, k, DueIds(t, k, now), n, first, m, second);
    AdvanceTwice(t, k, first, second, now);
  }

  /** A round that finds nothing due has already claimed everything, whatever larger limit is asked. */
  lemma ExhaustedClaim(t: Table, k: Schedule, pool: set<Id>, n: nat, ids: seq<Id>, larger: nat)
    requires EarliestFirst(t, k, pool, n, ids)
    requires pool <= SetOf(ids) && n <= larger
    ensures EarliestFirst(t, k, pool, larger, ids)
  {
    assert pool == SetOf(ids);
    SetOfCardinality(ids);
  }

  /** Every batch removes exactly min(limit, due) rows from the due set, so no row is stuck in it. */
  lemma BatchShrinksDue(t: Table, k: Schedule, now: Time, limit: nat, ids: seq<Id>)
    requires TableOk(t) && EarliestFirst(t, k, DueIds(t, k, now), limit, ids)
    ensures forall id :: id in ids ==> id in t && Claimable(k, t[id])
    ensures |DueIds(Advance(t, k, SetOf(ids), now), k, now)|
            == |DueIds(t, k, now)| - Min(limit, |DueIds(t, k, now)|)
  {
    forall id | id in ids
      ensures id in t && Claimable(k, t[id])
    {
      assert id in SetOf(ids);
      DueRowsAreClaimable(t, k, now, id);
    }
    DueAfterAdvance(t, k, SetOf(ids), now);
    SetOfCardinality(ids);
  }
}
