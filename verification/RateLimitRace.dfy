/** The Redis limiter under concurrency: one key, any number of clients between INCR+TTL and EXPIRE. */
module RateLimitRace {
  import opened Common

  /** Where a hit stands. `FailedOpen` is a hit let through because a Redis command raised. */
  datatype Progress = AwaitsExpire | Admitted | Denied | Crashed | FailedOpen

  /** A hit: the lifetime of the key it fell into, and the count its INCR returned (0 if it was never counted). */
  datatype HitRecord = HitRecord(lifetime: nat, count: nat, progress: Progress)

  datatype Key = Absent | Present(count: nat, hasTtl: bool)

  /** `lifetime` numbers the creations of the key. */
  datatype State = State(lifetime: nat, key: Key, hits: seq<HitRecord>)

  datatype Event =
    | IncrTtl                                // the MULTI; a client that sees a TTL decides at once
    | IncrFaults(applied: bool)              // the MULTI raises, with or without having taken effect
    | Expire(hit: nat)                       // the second round trip, and then the decision
    | ExpireFaults(hit: nat, applied: bool)  // EXPIRE raises, with or without having taken effect
    | Crash(hit: nat)                        // the client dies between the two round trips
    | KeyExpires

  function Decide(count: nat, limit: nat): Progress {
    if count <= limit then Admitted else Denied
  }

  function Incremented(s: State): State {
    match s.key
    case Absent => s.(lifetime := s.lifetime + 1, key := Present(1, false))
    case Present(count, hasTtl) => s.(key := Present(count + 1, hasTtl))
  }

  function WithTtl(k: Key): Key {
    if k.Present? then k.(hasTtl := true) else k
  }

  /** One step; an event that is not possible leaves the state as it is. */
  function Step(s: State, e: Event, limit: nat): State {
    match e
    case IncrTtl =>
      var t := Incremented(s);
      t.(hits := s.hits + [HitRecord(t.lifetime, t.key.count, if t.key.hasTtl then Decide(t.key.count, limit) else AwaitsExpire)])
    case IncrFaults(applied) =>
      if applied then
        var t := Incremented(s);
        t.(hits := s.hits + [HitRecord(t.lifetime, t.key.count, FailedOpen)])
      else s.(hits := s.hits + [HitRecord(s.lifetime, 0, FailedOpen)])
    case KeyExpires => if s.key.Present? && s.key.hasTtl then s.(key := Absent) else s
    case Expire(h) =>
      if h < |s.hits| && s.hits[h].progress.AwaitsExpire? then
        s.(key := WithTtl(s.key), hits := s.hits[h := s.hits[h].(progress := Decide(s.hits[h].count, limit))])
      else s
    case ExpireFaults(h, applied) =>
      if h < |s.hits| && s.hits[h].progress.AwaitsExpire? then
        s.(key := if applied then WithTtl(s.key) else s.key, hits := s.hits[h := s.hits[h].(progress := FailedOpen)])
      else s
    case Crash(h) =>
      if h < |s.hits| && s.hits[h].progress.AwaitsExpire? then s.(hits := s.hits[h := s.hits[h].(progress := Crashed)])
      else s
  }

  function Run(es: seq<Event>, limit: nat): State {
    if es == [] then State(0, Absent, []) else Step(Run(es[..|es| - 1], limit), es[|es| - 1], limit)
  }

  predicate Completed(h: HitRecord) {
    h.progress.Admitted? || h.progress.Denied?
  }

  /** Counts within one lifetime are distinct, decide admission, and no completed hit leaves its key without a TTL. */
  ghost predicate Inv(s: State, limit: nat) {
    && (forall i :: 0 <= i < |s.hits| ==>
          && s.hits[i].lifetime <= s.lifetime
          && (s.hits[i].count == 0 ==> s.hits[i].progress.FailedOpen?)
          && (Completed(s.hits[i]) ==> s.hits[i].progress == Decide(s.hits[i].count, limit)))
    && (forall i, j :: 0 <= i < j < |s.hits| && s.hits[i].lifetime == s.hits[j].lifetime && s.hits[j].count > 0 ==>
          s.hits[i].count < s.hits[j].count)
    && (forall i :: 0 <= i < |s.hits| && s.hits[i].lifetime == s.lifetime && s.key.Present? ==>
          s.hits[i].count <= s.key.count && (Completed(s.hits[i]) ==> s.key.hasTtl))
  }

  lemma {:induction false} RunKeepsInv(es: seq<Event>, limit: nat)
    ensures Inv(Run(es, limit), limit)
  {
    if es != [] {
      RunKeepsInv(es[..|es| - 1], limit);
      StepKeepsInv(Run(es[..|es| - 1], limit), es[|es| - 1], limit);
    }
  }

  lemma ArrivalKeepsInv(s: State, limit: nat, progress: Progress)
    requires Inv(s, limit)
    requires var t := Incremented(s);
             progress in {AwaitsExpire, FailedOpen} || (t.key.hasTtl && progress == Decide(t.key.count, limit))
    ensures var t := Incremented(s);
            Inv(t.(hits := s.hits + [HitRecord(t.lifetime, t.key.count, progress)]), limit)
  {
  }

  lemma UncountedKeepsInv(s: State, limit: nat)
    requires Inv(s, limit)
    ensures Inv(s.(hits := s.hits + [HitRecord(s.lifetime, 0, FailedOpen)]), limit)
  {
  }

  lemma ResolutionKeepsInv(s: State, limit: nat, h: nat, progress: Progress, ttl: bool)
    requires Inv(s, limit) && h < |s.hits| && s.hits[h].progress.AwaitsExpire?
    requires progress in {Crashed, FailedOpen} || (ttl && progress == Decide(s.hits[h].count, limit))
    ensures Inv(s.(key := if ttl then WithTtl(s.key) else s.key, hits := s.hits[h := s.hits[h].(progress := progress)]), limit)
  {
  }

  lemma StepKeepsInv(s: State, e: Event, limit: nat)
    requires Inv(s, limit)
    ensures Inv(Step(s, e, limit), limit)
  {
    hide Inv;
    match e
    case IncrTtl =>
      var t := Incremented(s);
      ArrivalKeepsInv(s, limit, if t.key.hasTtl then Decide(t.key.count, limit) else AwaitsExpire);
    case IncrFaults(applied) =>
      ArrivalKeepsInv(s, limit, FailedOpen);
      UncountedKeepsInv(s, limit);
    case KeyExpires => ExpiryKeepsInv(s, limit);
    case Expire(h) =>
      if h < |s.hits| && s.hits[h].progress.AwaitsExpire? {
        ResolutionKeepsInv(s, limit, h, Decide(s.hits[h].count, limit), true);
      }
    case ExpireFaults(h, applied) =>
      if h < |s.hits| && s.hits[h].progress.AwaitsExpire? {
        ResolutionKeepsInv(s, limit, h, FailedOpen, applied);
      }
    case Crash(h) =>
      if h < |s.hits| && s.hits[h].progress.AwaitsExpire? {
        ResolutionKeepsInv(s, limit, h, Crashed, false);
      }
  }

  lemma ExpiryKeepsInv(s: State, limit: nat)
    requires Inv(s, limit)
    ensures Inv(s.(key := Absent), limit)
  {
  }

  /** Distinct counts from 1 to `limit`: there are no more than `limit` of them. */
  lemma {:induction false} RankedCardinality(hits: seq<HitRecord>, s: set<nat>, limit: nat)
    requires forall h :: h in s ==> h < |hits| && 1 <= hits[h].count <= limit
    requires forall g, h :: g in s && h in s && g < h ==> hits[g].count != hits[h].count
    ensures |s| <= limit
    decreases limit
  {
    if h :| h in s && hits[h].count == limit {
      RankedCardinality(hits, s - {h}, limit - 1);
    } else if limit > 0 {
      RankedCardinality(hits, s, limit - 1);
    } else {
      assert s == {};
    }
  }

  function AdmittedIn(s: State, lifetime: nat): set<nat> {
    set h: nat | h < |s.hits| && s.hits[h].lifetime == lifetime && s.hits[h].progress.Admitted?
  }

  function FailedOpenIn(s: State, lifetime: nat): set<nat> {
    set h: nat | h < |s.hits| && s.hits[h].lifetime == lifetime && s.hits[h].progress.FailedOpen?
  }

  /** Every hit of a lifetime that was answered "allowed". */
  function LetThrough(s: State, lifetime: nat): set<nat> {
    AdmittedIn(s, lifetime) + FailedOpenIn(s, lifetime)
  }

  predicate Faulty(e: Event) {
    e.IncrFaults? || e.ExpireFaults?
  }

  function Faults(es: seq<Event>): nat {
    if es == [] then 0 else Faults(es[..|es| - 1]) + if Faulty(es[|es| - 1]) then 1 else 0
  }

  /** The limiter itself admits at most `limit` hits per lifetime of the key, whatever the interleaving. */
  lemma LifetimeAdmitsAtMostLimit(es: seq<Event>, limit: nat, lifetime: nat)
    ensures |AdmittedIn(Run(es, limit), lifetime)| <= limit
  {
    RunKeepsInv(es, limit);
    RankedCardinality(Run(es, limit).hits, AdmittedIn(Run(es, limit), lifetime), limit);
  }

  lemma {:induction false} FailedOpenByFault(es: seq<Event>, limit: nat, lifetime: nat)
    ensures |FailedOpenIn(Run(es, limit), lifetime)| <= Faults(es)
  {
    if es != [] {
      var before, last := es[..|es| - 1], es[|es| - 1];
      FailedOpenByFault(before, limit, lifetime);
      OneStepFailsOpen(Run(before, limit), last, limit, lifetime);
    }
  }

  lemma OneStepFailsOpen(s: State, e: Event, limit: nat, lifetime: nat)
    ensures |FailedOpenIn(Step(s, e, limit), lifetime)| <= |FailedOpenIn(s, lifetime)| + if Faulty(e) then 1 else 0
  {
    var before, after := FailedOpenIn(s, lifetime), FailedOpenIn(Step(s, e, limit), lifetime);
    var touched: nat := if e.ExpireFaults? then e.hit else |s.hits|;
    if Faulty(e) {
      SubsetCardinality(after, before + {touched});
    } else {
      SubsetCardinality(after, before);
    }
  }

  /** Within one lifetime: `limit` admitted hits, then `faults` hits that a lost MULTI lets through. */
  lemma {:induction false} BusyLifetime(limit: nat, admitted: nat, faults: nat) returns (es: seq<Event>)
    requires admitted <= limit
    ensures Faults(es) == faults
    ensures var s := Run(es, limit);
            && |s.hits| == admitted + faults
            && (s.key == if admitted == 0 then Absent else Present(admitted, true))
            && |LetThrough(s, s.lifetime)| == admitted + faults
    decreases admitted + faults
  {
    es := [];
    if faults > 0 {
      var before := BusyLifetime(limit, admitted, faults - 1);
      es := OneMoreLetThrough(before, IncrFaults(false), limit);
    } else if admitted > 1 {
      var before := BusyLifetime(limit, admitted - 1, 0);
      es := OneMoreLetThrough(before, IncrTtl, limit);
    } else if admitted == 1 {
      es := FirstHit(limit);
      assert LetThrough(Run(es, limit), 1) == {0};
    } else {
      assert LetThrough(Run(es, limit), 0) == {};
    }
  }

  lemma OneMoreLetThrough(es: seq<Event>, e: Event, limit: nat) returns (more: seq<Event>)
    requires var s := Run(es, limit);
             e == IncrFaults(false) || (e == IncrTtl && s.key.Present? && s.key.hasTtl && s.key.count < limit)
    ensures more == es + [e] && Faults(more) == Faults(es) + if Faulty(e) then 1 else 0
    ensures var s, t := Run(es, limit), Run(more, limit);
            && t == Step(s, e, limit) && t.lifetime == s.lifetime
            && |LetThrough(t, t.lifetime)| == |LetThrough(s, s.lifetime)| + 1
  {
    more := es + [e];
    assert more[..|more| - 1] == es;
    hide LetThrough, Run;
    var s := Run(es, limit);
    var t := Step(s, e, limit);
    AppendedLetThrough(s, t.hits[|s.hits|], t);
  }

  lemma AppendedLetThrough(s: State, h: HitRecord, t: State)
    requires t.hits == s.hits + [h] && h.lifetime == s.lifetime && (h.progress.Admitted? || h.progress.FailedOpen?)
    ensures |LetThrough(t, s.lifetime)| == |LetThrough(s, s.lifetime)| + 1
  {
    hide LetThrough;
    var n, before, after := |s.hits|, LetThrough(s, s.lifetime), LetThrough(t, s.lifetime);
    forall i: nat
      ensures i in after <==> i in before || i == n
      ensures n !in before
    {
      IsLetThrough(s, s.lifetime, n);
      IsLetThrough(s, s.lifetime, i);
      IsLetThrough(t, s.lifetime, i);
    }
    assert after == before + {n};
  }

  lemma IsLetThrough(s: State, lifetime: nat, h: nat)
    ensures h in LetThrough(s, lifetime) <==>
            h < |s.hits| && s.hits[h].lifetime == lifetime && (s.hits[h].progress.Admitted? || s.hits[h].progress.FailedOpen?)
  {
  }

  lemma FirstHit(limit: nat) returns (es: seq<Event>)
    requires limit > 0
    ensures Faults(es) == 0 && Run(es, limit) == State(1, Present(1, true), [HitRecord(1, 1, Admitted)])
  {
    es := [IncrTtl, Expire(0)];
    assert es[..1] == [IncrTtl] && [IncrTtl][..0] == [];
    assert Run([IncrTtl], limit) == State(1, Present(1, false), [HitRecord(1, 1, AwaitsExpire)]);
    assert [HitRecord(1, 1, AwaitsExpire)][0 := HitRecord(1, 1, Admitted)] == [HitRecord(1, 1, Admitted)];
    assert Faults([IncrTtl]) == 0;
  }

  /** What a lifetime lets through when Redis commands may raise: a bound holds on all runs with at most `faults`
      faulted hits exactly when it is at least `limit + faults`. Without faults that is the limit. */
  lemma LargestLifetime(limit: nat, faults: nat, bound: nat)
    ensures (forall es, lifetime :: Faults(es) <= faults ==> |LetThrough(Run(es, limit), lifetime)| <= bound)
            <==> limit + faults <= bound
  {
    if limit + faults <= bound {
      forall es, lifetime | Faults(es) <= faults
        ensures |LetThrough(Run(es, limit), lifetime)| <= bound
      {
        LifetimeAdmitsAtMostLimit(es, limit, lifetime);
        FailedOpenByFault(es, limit, lifetime);
      }
    } else {
      var es := BusyLifetime(limit, limit, faults);
    }
  }

  /** A key that lost its EXPIRE gets a TTL from the next hit that completes: at no reachable instant is the
      key without a TTL once a hit of its lifetime has completed. */
  lemma CompletedHitLeavesTtl(es: seq<Event>, limit: nat, h: nat)
    requires var s := Run(es, limit); h < |s.hits| && Completed(s.hits[h]) && s.hits[h].lifetime == s.lifetime
    ensures var key := Run(es, limit).key; key.Present? ==> key.hasTtl
  {
    RunKeepsInv(es, limit);
  }

  /** Until then nothing but completing hits can help it: while the key has no TTL it never goes away. */
  lemma {:induction false} WithoutTtlKeyStays(es: seq<Event>, more: seq<Event>, limit: nat)
    requires var s := Run(es, limit); s.key.Present? && !s.key.hasTtl
    ensures var s, t := Run(es, limit), Run(es + more, limit);
            || (t.lifetime == s.lifetime && t.key.Present? && !t.key.hasTtl)
            || exists i :: 0 <= i < |more| && (more[i].Expire? || more[i].ExpireFaults?)
    decreases |more|
  {
    if more == [] {
      assert es + more == es;
    } else {
      var rest := more[..|more| - 1];
      WithoutTtlKeyStays(es, rest, limit);
      assert (es + more)[..|es + more| - 1] == es + rest;
      if exists i :: 0 <= i < |rest| && (rest[i].Expire? || rest[i].ExpireFaults?) {
        var i :| 0 <= i < |rest| && (rest[i].Expire? || rest[i].ExpireFaults?);
        assert more[i] == rest[i];
      } else {
        assert more[|more| - 1] == (es + more)[|es + more| - 1];
      }
    }
  }
}
