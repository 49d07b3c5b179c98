/** The two fixed-window rate limiters (app/ratelimit.py): what a window admits, and that they decide alike.
    The clock is a real number of seconds, as `time.monotonic` is. */
module RateLimit {
  import opened Common

  // ----- In memory -----

  datatype Entry = Entry(count: int, resetAt: real)

  function Lookup<V>(m: map<string, V>, key: string): Option<V> {
    if key in m then Some(m[key]) else None
  }

  /** The entry after a hit, and whether the hit is admitted. */
  function Hit(e: Option<Entry>, now: real, limit: int, window: int): (Option<Entry>, bool) {
    if e.None? || now >= e.value.resetAt then (Some(Entry(1, now + window as real)), true)
    else if e.value.count < limit then (Some(e.value.(count := e.value.count + 1)), true)
    else (e, false)
  }

  function RetryAfter(e: Entry, now: real): int {
    var whole := (e.resetAt - now).Floor;
    if whole < 1 then 1 else whole
  }

  class InMemoryRateLimiter {
    var data: map<string, Entry>

    constructor ()
      ensures data == map[]
    {
      data := map[];
    }

    method HitKey(now: real, key: string, limit: int, window: int) returns (allowed: bool, retryAfter: int)
      modifies this
      ensures (Lookup(data, key), allowed) == Hit(old(Lookup(data, key)), now, limit, window)
      ensures forall other :: other != key ==> Lookup(data, other) == old(Lookup(data, other))
      ensures allowed ==> retryAfter == 0
      ensures !allowed ==> key in data && data == old(data) && retryAfter == RetryAfter(data[key], now)
    {
      if key !in data {
        data := data[key := Entry(1, now + window as real)];
        return true, 0;
      }
      var Entry(count, resetAt) := data[key];
      if now >= resetAt {
        data := data[key := Entry(1, now + window as real)];
        return true, 0;
      }
      if count < limit {
        data := data[key := Entry(count + 1, resetAt)];
        return true, 0;
      }
      var whole := (resetAt - now).Floor;
      return false, if 1 >= whole then 1 else whole;
    }
  }

  // ----- Traces of one limiter with a fixed limit and window -----

  datatype Access = Access(key: string, at: real)

  ghost predicate Monotone(trace: seq<Access>) {
    forall i, j :: 0 <= i < j < |trace| ==> trace[i].at <= trace[j].at
  }

  /** The entry of `key` after a trace. Hits of other keys do not touch it. */
  function EntryAfter(trace: seq<Access>, key: string, limit: int, window: int): Option<Entry> {
    if trace == [] then None
    else
      var last := trace[|trace| - 1];
      var before := EntryAfter(trace[..|trace| - 1], key, limit, window);
      if last.key == key then Hit(before, last.at, limit, window).0 else before
  }

  /** The last hit of a trace is admitted. */
  predicate LastAdmitted(trace: seq<Access>, limit: int, window: int)
    requires trace != []
  {
    var last := trace[|trace| - 1];
    Hit(EntryAfter(trace[..|trace| - 1], last.key, limit, window), last.at, limit, window).1
  }

  /** How many hits of `key` are admitted at instants in [from, until). */
  function AdmittedIn(trace: seq<Access>, key: string, limit: int, window: int, from: real, until: real): nat {
    if trace == [] then 0
    else
      var last := trace[|trace| - 1];
      AdmittedIn(trace[..|trace| - 1], key, limit, window, from, until)
      + if last.key == key && from <= last.at < until && LastAdmitted(trace, limit, window) then 1 else 0
  }

  /** How many hits of `key` are admitted from an instant on. */
  function AdmittedSince(trace: seq<Access>, key: string, limit: int, window: int, from: real): nat {
    if trace == [] then 0
    else
      var last := trace[|trace| - 1];
      AdmittedSince(trace[..|trace| - 1], key, limit, window, from)
      + if last.key == key && from <= last.at && LastAdmitted(trace, limit, window) then 1 else 0
  }

  lemma {:induction false} InIsPartOfSince(trace: seq<Access>, key: string, limit: int, window: int, from: real, until: real)
    ensures AdmittedIn(trace, key, limit, window, from, until) <= AdmittedSince(trace, key, limit, window, from)
  {
    if trace != [] {
      InIsPartOfSince(trace[..|trace| - 1], key, limit, window, from, until);
    }
  }

  lemma {:induction false} NoneInTheFuture(trace: seq<Access>, key: string, limit: int, window: int, from: real)
    requires Monotone(trace) && (trace != [] ==> trace[|trace| - 1].at < from)
    ensures AdmittedSince(trace, key, limit, window, from) == 0
  {
    if trace != [] {
      var before := trace[..|trace| - 1];
      if before != [] {
        assert before[|before| - 1].at <= trace[|trace| - 1].at;
      }
      NoneInTheFuture(before, key, limit, window, from);
    }
  }

  /** The window now open, which began at resetAt - window: how much has been admitted from any instant on. */
  ghost predicate WindowBounds(e: Option<Entry>, since: nat, from: real, limit: int, window: int) {
    match e
    case None => since == 0
    case Some(Entry(count, resetAt)) =>
      var begun := resetAt - window as real;
      && 1 <= count <= limit
      && (resetAt <= from ==> since == 0)
      && (begun < from ==> since <= count - 1)
      && (begun == from ==> since == count)
      && (begun - window as real < from ==> since <= limit - 1 + count)
  }

  lemma {:induction false} WindowInvariant(trace: seq<Access>, key: string, limit: int, window: int, from: real)
    requires Monotone(trace) && limit >= 1 && window > 0
    ensures var e := EntryAfter(trace, key, limit, window);
            && WindowBounds(e, AdmittedSince(trace, key, limit, window, from), from, limit, window)
            && (e.Some? ==> trace != [] && e.value.resetAt - window as real <= trace[|trace| - 1].at)
    ensures AdmittedIn(trace, key, limit, window, from, from + window as real) <= 2 * limit - 1
  {
    if trace != [] {
      var before, last := trace[..|trace| - 1], trace[|trace| - 1];
      if before != [] {
        assert before[|before| - 1].at <= last.at;
      }
      WindowInvariant(before, key, limit, window, from);
      if last.at < from {
        NoneInTheFuture(before, key, limit, window, from);
      }
      var e := EntryAfter(trace, key, limit, window);
      if e.Some? && e.value.resetAt - window as real - window as real < from {
        InIsPartOfSince(trace, key, limit, window, from, from + window as real);
      }
    }
  }

  /** Each window admits at most `limit` hits: the stored count is how many it has admitted. */
  lemma WindowAdmitsAtMostLimit(trace: seq<Access>, key: string, limit: int, window: int)
    requires Monotone(trace) && limit >= 1 && window > 0
    ensures var e := EntryAfter(trace, key, limit, window);
            e.Some? ==> AdmittedSince(trace, key, limit, window, e.value.resetAt - window as real) == e.value.count <= limit
  {
    var e := EntryAfter(trace, key, limit, window);
    if e.Some? {
      WindowInvariant(trace, key, limit, window, e.value.resetAt - window as real);
    }
  }

  /** A burst around a window boundary: one hit, then the rest of the window's allowance half a window later,
      then a whole new allowance as soon as the window resets. */
  function Burst(n: nat, limit: int, window: int): seq<Access> {
    seq(n, i => Access("k", if i == 0 then 0.0 else if i < limit then window as real / 2.0 else window as real))
  }

  lemma BurstIsMonotone(n: nat, limit: int, window: int)
    requires window > 0
    ensures Monotone(Burst(n, limit, window))
  {
    assert 0.0 <= window as real / 2.0 <= window as real;
  }

  lemma {:induction false} BurstIsAdmitted(n: nat, limit: int, window: int)
    requires limit >= 1 && window > 0 && n <= 2 * limit
    ensures EntryAfter(Burst(n, limit, window), "k", limit, window)
            == if n == 0 then None
               else if n <= limit then Some(Entry(n, window as real))
               else Some(Entry(n - limit, window as real + window as real))
    ensures AdmittedIn(Burst(n, limit, window), "k", limit, window, window as real / 2.0, window as real / 2.0 + window as real)
            == if n == 0 then 0 else n - 1
  {
    if n > 0 {
      BurstIsAdmitted(n - 1, limit, window);
      assert Burst(n, limit, window)[..n - 1] == Burst(n - 1, limit, window);
    }
  }

  /** The hits admitted in the interval of one window length that starts at `from`. */
  function AdmittedPerWindow(trace: seq<Access>, key: string, limit: int, window: int, from: real): nat {
    AdmittedIn(trace, key, limit, window, from, from + window as real)
  }

  /** Over every trace, an interval of one window length admits at most 2 * limit - 1 hits of a key, and no
      smaller bound holds. */
  lemma LargestBurst(limit: int, window: int, bound: int)
    requires limit >= 1 && window > 0
    ensures (forall trace: seq<Access>, key, from :: Monotone(trace) ==>
               AdmittedPerWindow(trace, key, limit, window, from) <= bound)
            <==> 2 * limit - 1 <= bound
  {
    if 2 * limit - 1 <= bound {
      forall trace: seq<Access>, key, from | Monotone(trace)
        ensures AdmittedPerWindow(trace, key, limit, window, from) <= bound
      {
        WindowInvariant(trace, key, limit, window, from);
      }
    } else {
      BurstIsAdmitted(2 * limit, limit, window);
      BurstIsMonotone(2 * limit, limit, window);
      assert AdmittedPerWindow(Burst(2 * limit, limit, window), "k", limit, window, window as real / 2.0) > bound;
    }
  }

  /** After a denial a lone client that waits one second longer than told is admitted. Waiting exactly as told
      is enough when, and only when, no fraction of a second was cut off. */
  lemma RetryAfterIsAFloor(e: Entry, now: real, limit: int, window: int)
    requires !Hit(Some(e), now, limit, window).1
    ensures Hit(Some(e), now + RetryAfter(e, now) as real + 1.0, limit, window).1
    ensures Hit(Some(e), now + RetryAfter(e, now) as real, limit, window).1
            <==> e.resetAt - now <= 1.0 || (e.resetAt - now).Floor as real == e.resetAt - now
  {
  }

  // ----- Redis -----

  /** A stored counter; `deadline` is `None` while it has no TTL. */
  datatype Counter = Counter(count: nat, deadline: Option<real>)

  /** Redis drops a key at its deadline. */
  function Unexpired(e: Option<Counter>, now: real): Option<Counter> {
    if e.Some? && e.value.deadline.Some? && now >= e.value.deadline.value then None else e
  }

  /** What TTL reports: -1 without a deadline, otherwise the remaining time to the nearest second. */
  function Ttl(c: Counter, now: real): int {
    match c.deadline
    case None => -1
    case Some(d) => if d <= now then 0 else (d - now + 0.5).Floor
  }

  function Incremented(e: Option<Counter>, now: real): Counter {
    match Unexpired(e, now)
    case None => Counter(1, None)
    case Some(c) => c.(count := c.count + 1)
  }

  function RedisHit(e: Option<Counter>, now: real, limit: int, window: int): (Option<Counter>, bool) {
    var c := Incremented(e, now);
    (Some(if c.deadline.None? then c.(deadline := Some(now + window as real)) else c), c.count <= limit)
  }

  class RedisStore {
    var counters: map<string, Counter>

    constructor ()
      ensures counters == map[]
    {
      counters := map[];
    }

    /** INCR and TTL in one MULTI. */
    method IncrTtl(now: real, key: string) returns (count: nat, ttl: int)
      modifies this
      ensures counters == old(counters)[key := Incremented(old(Lookup(counters, key)), now)]
      ensures count == counters[key].count && ttl == Ttl(counters[key], now)
    {
      var c := Incremented(Lookup(counters, key), now);
      counters := counters[key := c];
      count, ttl := c.count, Ttl(c, now);
    }

    /** A deadline that is not in the future deletes the key; no later command sees it. */
    method Expire(now: real, key: string, window: int)
      modifies this
      ensures counters == if Unexpired(old(Lookup(counters, key)), now).None? then old(counters)
                          else old(counters)[key := old(counters)[key].(deadline := Some(now + window as real))]
    {
      if key in counters && Unexpired(Some(counters[key]), now).Some? {
        counters := counters[key := counters[key].(deadline := Some(now + window as real))];
      }
    }
  }

  /** Which Redis command, if any, raises. */
  datatype Fault = NoFault | OnPipeline | OnExpire

  function AtLeastOne(seconds: int): int {
    if 1 >= seconds then 1 else seconds
  }

  /** The wait a denial reports, and the counter it is denied with. One second more than reported always suffices for
      a lone client; the reported wait itself does exactly when the time left is at most that, which rounding to the
      nearest second may cut. */
  lemma RedisRetryAfterIsRounded(c: Counter, now: real, limit: int, window: int)
    requires limit >= 1 && c.deadline.Some? && now < c.deadline.value
    ensures var wait := AtLeastOne(Ttl(c, now)); var left := c.deadline.value - now;
            && wait >= 1 && (left >= 1.0 ==> -0.5 < wait as real - left <= 0.5)
            && RedisHit(Some(c), now + wait as real + 1.0, limit, window).1
            && (c.count >= limit ==> (RedisHit(Some(c), now + wait as real, limit, window).1 <==> left <= wait as real))
  {
  }

  class RedisRateLimiter {
    const store: RedisStore

    constructor (store: RedisStore)
      ensures this.store == store
    {
      this.store := store;
    }

    /** Without faults this is RedisHit. Any fault is answered by admitting, and leaves the counter without a
        TTL when it strikes between the two round trips of a fresh key. A denial reports the TTL, or the whole
        window when it set it, and never less than a second. */
    method HitKey(now: real, key: string, limit: int, window: int, fault: Fault) returns (allowed: bool, retryAfter: int)
      modifies store
      ensures forall other :: other != key ==> Lookup(store.counters, other) == old(Lookup(store.counters, other))
      ensures fault.NoFault? || (fault.OnExpire? && Incremented(old(Lookup(store.counters, key)), now).deadline.Some?) ==>
                (Lookup(store.counters, key), allowed) == RedisHit(old(Lookup(store.counters, key)), now, limit, window)
      ensures allowed ==> retryAfter == 0
      ensures !allowed ==>
                var c := Incremented(old(Lookup(store.counters, key)), now);
                retryAfter == AtLeastOne(if c.deadline.None? then window else Ttl(c, now))
      ensures fault.OnPipeline? ==> allowed && store.counters == old(store.counters)
      ensures fault.OnExpire? && Incremented(old(Lookup(store.counters, key)), now).deadline.None? ==>
                allowed && Lookup(store.counters, key) == Some(Incremented(old(Lookup(store.counters, key)), now))
    {
      if fault.OnPipeline? {
        return true, 0;
      }
      var count, ttl := store.IncrTtl(now, key);
      if ttl < 0 {
        if fault.OnExpire? {
          return true, 0;
        }
        store.Expire(now, key, window);
        ttl := window;
      }
      if count <= limit {
        return true, 0;
      }
      return false, AtLeastOne(ttl);
    }
  }

  // ----- The two limiters decide alike -----

  function CounterAfter(trace: seq<Access>, key: string, limit: int, window: int): Option<Counter> {
    if trace == [] then None
    else
      var last := trace[|trace| - 1];
      var before := CounterAfter(trace[..|trace| - 1], key, limit, window);
      if last.key == key then RedisHit(before, last.at, limit, window).0 else before
  }

  predicate LastAdmittedByRedis(trace: seq<Access>, limit: int, window: int)
    requires trace != []
  {
    var last := trace[|trace| - 1];
    RedisHit(CounterAfter(trace[..|trace| - 1], last.key, limit, window), last.at, limit, window).1
  }

  /** Equal reset instants; the memory count is the Redis count cut off at the limit (Redis counts denied hits too). */
  predicate Simulates(e: Option<Entry>, c: Option<Counter>, limit: int) {
    match (e, c)
    case (None, None) => true
    case (Some(entry), Some(counter)) =>
      && counter.deadline == Some(entry.resetAt)
      && counter.count >= 1
      && entry.count == if counter.count <= limit then counter.count else limit
    case _ => false
  }

  lemma {:induction false} SimulationHolds(trace: seq<Access>, key: string, limit: int, window: int)
    requires limit >= 1
    ensures Simulates(EntryAfter(trace, key, limit, window), CounterAfter(trace, key, limit, window), limit)
  {
    if trace != [] {
      SimulationHolds(trace[..|trace| - 1], key, limit, window);
    }
  }

  /** On every sequential trace the two limiters admit the same hits exactly when the limit is at least one:
      with a limit of zero the in-memory limiter still admits the first hit of every window. */
  lemma LimitersAgree(limit: int, window: int)
    ensures (forall trace: seq<Access> :: trace != [] ==>
               LastAdmitted(trace, limit, window) == LastAdmittedByRedis(trace, limit, window))
            <==> limit >= 1
  {
    if limit >= 1 {
      forall trace: seq<Access> | trace != []
        ensures LastAdmitted(trace, limit, window) == LastAdmittedByRedis(trace, limit, window)
      {
        SimulationHolds(trace[..|trace| - 1], trace[|trace| - 1].key, limit, window);
      }
    } else {
      var trace := [Access("k", 0.0)];
      assert trace[..0] == [];
      assert LastAdmitted(trace, limit, window) && !LastAdmittedByRedis(trace, limit, window);
    }
  }
}
