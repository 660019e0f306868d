/** How far captured times may lag behind the lock before the rate limiter's sweep shows. */
module LaggingClocks {
  import opened RateLimiter
  import opened Checksums

  const CLIENT := "k"

  /** `n` requests of one client at the same time. */
  function Burst(n: nat): seq<Request> {
    if n == 0 then [] else Burst(n - 1) + [Request(CLIENT, 1)]
  }

  /** A burst, then `n` other clients at the same time. */
  function Crowd(capacity: nat, n: nat): seq<Request> {
    if n == 0 then Burst(capacity) else Crowd(capacity, n - 1) + [Request(Decimal(n - 1), 1)]
  }

  ghost function Names(n: nat): set<string> {
    set i | 0 <= i < n :: Decimal(i)
  }

  lemma NextName(n: nat)
    ensures Names(n + 1) == Names(n) + {Decimal(n)}
    ensures Decimal(n) !in Names(n) && CLIENT !in Names(n + 1)
  {
    forall i | 0 <= i < n
      ensures Decimal(i) != Decimal(n)
    {
      if Decimal(i) == Decimal(n) {
        DecimalIsInjective(i, n);
      }
    }
    forall i | 0 <= i < n + 1
      ensures Decimal(i) != CLIENT
    {
      assert CLIENT[0] == 'k';
    }
  }

  lemma {:induction false} AfterBurst(limits: Limits, n: nat)
    requires limits.window > 0
    ensures TableAfter(limits, Burst(n)) == FullTableAfter(limits, Burst(n))
    ensures TableAfter(limits, Burst(n)) == if n == 0 then map[] else map[CLIENT := RateWindow(1, n)]
  {
    hide TableAfter, FullTableAfter;
    if n == 0 {
      NothingYet(limits);
    } else {
      AfterBurst(limits, n - 1);
      OneMoreRequest(limits, Burst(n - 1), Request(CLIENT, 1));
      var recorded := Record(TableAfter(limits, Burst(n - 1)), limits, CLIENT, 1);
      assert recorded.Keys == {CLIENT} && |recorded.Keys| == |recorded|;
      assert recorded == map[CLIENT := RateWindow(1, n)];
    }
  }

  lemma NothingYet(limits: Limits)
    ensures TableAfter(limits, []) == FullTableAfter(limits, []) == map[]
  {
  }

  /** The first client with its full burst, and the first `n` others. */
  ghost predicate IsCrowd(t: Clients, capacity: nat, n: nat) {
    && |t| == n + 1 && t.Keys == {CLIENT} + Names(n) && t[CLIENT] == RateWindow(1, capacity)
    && forall k | k in t :: t[k].started == 1
  }

  lemma OneMoreInCrowd(t: Clients, capacity: nat, n: nat)
    requires IsCrowd(t, capacity, n)
    ensures Decimal(n) !in t && IsCrowd(t[Decimal(n) := RateWindow(1, 1)], capacity, n + 1)
  {
    hide Decimal, Names;
    NextName(n);
    assert CLIENT in t;
    var u := t[Decimal(n) := RateWindow(1, 1)];
    assert u.Keys == t.Keys + {Decimal(n)};
    assert |u.Keys| == |u| && |t.Keys| == |t|;
  }

  /** As long as the table is not large nothing is swept. */
  lemma {:induction false} AfterCrowd(limits: Limits, n: nat)
    requires limits.window > 0 && limits.capacity > 0 && n < SWEEP_THRESHOLD
    ensures TableAfter(limits, Crowd(limits.capacity, n)) == FullTableAfter(limits, Crowd(limits.capacity, n))
    ensures IsCrowd(TableAfter(limits, Crowd(limits.capacity, n)), limits.capacity, n)
  {
    hide TableAfter, FullTableAfter, Names, Record, Decimal;
    if n == 0 {
      AfterBurst(limits, limits.capacity);
      NoNames();
    } else {
      AfterCrowd(limits, n - 1);
      var before := Crowd(limits.capacity, n - 1);
      var t := TableAfter(limits, before);
      OneMoreRequest(limits, before, Request(Decimal(n - 1), 1));
      OneMoreInCrowd(t, limits.capacity, n - 1);
      hide IsCrowd;
      OneMoreClient(t, limits, Decimal(n - 1), 1);
      CrowdSize(Record(t, limits, Decimal(n - 1), 1), limits.capacity, n);
    }
  }

  lemma CrowdSize(t: Clients, capacity: nat, n: nat)
    requires IsCrowd(t, capacity, n)
    ensures |t| == n + 1
  {
  }

  lemma NoNames()
    ensures Names(0) == {}
  {
  }

  lemma OneMoreRequest(limits: Limits, run: seq<Request>, r: Request)
    ensures TableAfter(limits, run + [r]) == Handled(TableAfter(limits, run), limits, r.key, r.now)
    ensures FullTableAfter(limits, run + [r]) == Record(FullTableAfter(limits, run), limits, r.key, r.now)
  {
    var all := run + [r];
    assert all[..|all| - 1] == run && all[|all| - 1] == r;
  }

  lemma OneMoreClient(t: Clients, limits: Limits, key: string, now: int)
    requires key !in t && now != ZERO_TIME
    ensures var u := Record(t, limits, key, now); |u| == |t| + 1 && u == t[key := RateWindow(now, 1)]
  {
    var u := Record(t, limits, key, now);
    assert u.Keys == t.Keys + {key};
    assert |u.Keys| == |u| && |t.Keys| == |t|;
  }

  /**
   A full table in which every entry but the newest is two windows old, and then a late request of the first client.
   */
  function LateRun(limits: Limits): seq<Request>
    requires limits.capacity >= 0
  {
    Crowd(limits.capacity, SWEEP_THRESHOLD - 1)
      + [Request(Decimal(SWEEP_THRESHOLD - 1), 2 * limits.window + 2), Request(CLIENT, limits.window)]
  }

  lemma {:induction false} CrowdIsPunctual(capacity: nat, n: nat)
    ensures forall i | 0 <= i < |Crowd(capacity, n)| :: Crowd(capacity, n)[i].now == 1
    decreases n, capacity
  {
    if n > 0 {
      CrowdIsPunctual(capacity, n - 1);
    } else {
      BurstIsPunctual(capacity);
    }
  }

  lemma {:induction false} BurstIsPunctual(n: nat)
    ensures forall i | 0 <= i < |Burst(n)| :: Burst(n)[i].now == 1
  {
    if n > 0 {
      BurstIsPunctual(n - 1);
    }
  }

  /** In the late run the swept limiter lets the last request through; one that never sweeps does not. */
  lemma LateRunShowsTheSweep(limits: Limits)
    requires limits.window > 0 && limits.capacity > 0
    ensures var run := LateRun(limits); var last := |run| - 1;
      && LagsAtMost(limits.window + 2, run)
      && Decision(limits, run, last) && !DecisionWithoutSweep(limits, run, last)
  {
    hide TableAfter, FullTableAfter, Record, Handled, Decimal, Admits, Crowd;
    var n := SWEEP_THRESHOLD - 1;
    var crowd, run := Crowd(limits.capacity, n), LateRun(limits);
    var last := |run| - 1;
    CrowdIsPunctual(limits.capacity, n);
    AfterCrowd(limits, n);
    var sweeper := Request(Decimal(n), 2 * limits.window + 2);
    assert run[..last] == crowd + [sweeper];
    OneMoreRequest(limits, crowd, sweeper);
    SweptAway(TableAfter(limits, crowd), limits, sweeper.now);
  }

  /** One more client makes the crowd too large, and the sweep drops all but that client. */
  lemma SweptAway(t: Clients, limits: Limits, now: int)
    requires limits.window > 0 && limits.capacity > 0 && now == 2 * limits.window + 2
    requires IsCrowd(t, limits.capacity, SWEEP_THRESHOLD - 1)
    ensures Admits(Handled(t, limits, Decimal(SWEEP_THRESHOLD - 1), now), limits, CLIENT, limits.window)
    ensures !Admits(Record(t, limits, Decimal(SWEEP_THRESHOLD - 1), now), limits, CLIENT, limits.window)
  {
    hide Decimal, Names, Record;
    OneMoreInCrowd(t, limits.capacity, SWEEP_THRESHOLD - 1);
    OneMoreClient(t, limits, Decimal(SWEEP_THRESHOLD - 1), now);
    assert CLIENT in t;
  }

  /**
   The sweep is invisible in all runs whose captured times lag by at most `lag` exactly when `lag` is no more than a
   window and one tick of the clock.
   */
  lemma SweepIsInvisibleIff(limits: Limits, lag: int)
    requires limits.window > 0 && limits.capacity > 0
    ensures (forall run, i | LagsAtMost(lag, run) && 0 <= i < |run| ::
             Decision(limits, run, i) == DecisionWithoutSweep(limits, run, i))
        <==> lag <= limits.window + 1
  {
    hide Decision, DecisionWithoutSweep;
    if lag <= limits.window + 1 {
      forall run, i | LagsAtMost(lag, run) && 0 <= i < |run|
        ensures Decision(limits, run, i) == DecisionWithoutSweep(limits, run, i)
      {
        SweepIsInvisible(limits, run, i);
      }
    } else {
      LateRunShowsTheSweep(limits);
      var run := LateRun(limits);
      assert LagsAtMost(lag, run);
      assert Decision(limits, run, |run| - 1) != DecisionWithoutSweep(limits, run, |run| - 1);
    }
  }
}
