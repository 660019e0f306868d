/**
 The fixed-window rate limiter. Times are integers (nanoseconds); the zero time marks an absent window.
 */
module RateLimiter {

  const ZERO_TIME := 0

  /** The sweep runs when the table holds more clients than this. */
  const SWEEP_THRESHOLD := 2000

  datatype RateWindow = RateWindow(started: int, count: nat)

  type Clients = map<string, RateWindow>

  datatype Limits = Limits(capacity: int, window: int)

  /** The entry a request finds: the zero value when its key is absent. */
  function Entry(clients: Clients, key: string): RateWindow {
    if key in clients then clients[key] else RateWindow(ZERO_TIME, 0)
  }

  /** The entry after a request at `now`: a fresh window when there is none or it has run out, then one more request. */
  function Counted(entry: RateWindow, window: int, now: int): RateWindow {
    var current := if entry.started == ZERO_TIME || now - entry.started >= window then RateWindow(now, 0) else entry;
    RateWindow(current.started, current.count + 1)
  }

  /** The table after a request of `key` at `now`, before any sweep. */
  function Record(clients: Clients, limits: Limits, key: string, now: int): Clients {
    clients[key := Counted(Entry(clients, key), limits.window, now)]
  }

  predicate IsStale(entry: RateWindow, limits: Limits, now: int) {
    now - entry.started > limits.window * 2
  }

  /** The table without its stale entries. */
  function Swept(clients: Clients, limits: Limits, now: int): Clients {
    map k | k in clients && !IsStale(clients[k], limits, now) :: clients[k]
  }

  /** The table a request leaves behind, with the sweep when the table is large. */
  function Handled(clients: Clients, limits: Limits, key: string, now: int): Clients {
    var recorded := Record(clients, limits, key, now);
    if |recorded| > SWEEP_THRESHOLD then Swept(recorded, limits, now) else recorded
  }

  /** Whether a request of `key` at `now` is let through. */
  function Admits(clients: Clients, limits: Limits, key: string, now: int): bool {
    Counted(Entry(clients, key), limits.window, now).count <= limits.capacity
  }

  /**
   A request makes no entry but its client's and deletes none while the table holds at most 2000 clients;
   beyond that it deletes exactly the entries that started more than two windows ago.
   */
  lemma SweepIsForLargeTables(clients: Clients, limits: Limits, key: string, now: int, k: string)
    ensures k in Handled(clients, limits, key, now) <==>
      && (k in clients || k == key)
      && (|clients.Keys + {key}| <= 2000 || now - Record(clients, limits, key, now)[k].started <= 2 * limits.window)
    ensures k in Handled(clients, limits, key, now) && k != key ==> Handled(clients, limits, key, now)[k] == clients[k]
  {
    assert Record(clients, limits, key, now).Keys == clients.Keys + {key};
  }

  lemma NothingElseSwept(clients: Clients, recorded: Clients, limits: Limits, now: int)
    requires forall k :: k in clients <==> k in recorded && !IsStale(recorded[k], limits, now)
    requires forall k | k in clients :: clients[k] == recorded[k]
    ensures clients == Swept(recorded, limits, now)
  {
  }

  class Limiter {
    const limits: Limits
    var clients: Clients

    constructor (capacity: int, window: int)
      ensures limits == Limits(capacity, window) && clients == map[]
    {
      limits := Limits(capacity, window);
      clients := map[];
    }

    /** One request under the lock: count it in its window, sweep a large table, and decide. */
    method Handle(key: string, now: int) returns (admitted: bool)
      modifies this`clients
      ensures clients == Handled(old(clients), limits, key, now)
      ensures admitted == Admits(old(clients), limits, key, now)
    {
      var entry := Entry(clients, key);
      if entry.started == ZERO_TIME || now - entry.started >= limits.window {
        entry := RateWindow(now, 0);
      }
      entry := entry.(count := entry.count + 1);
      clients := clients[key := entry];
      if |clients| > SWEEP_THRESHOLD {
        Sweep(now);
      }
      var remaining := limits.capacity - entry.count;
      admitted := !(remaining < 0);
    }

    /** The loop over the table that deletes every entry older than two windows. */
    method Sweep(now: int)
      modifies this`clients
      ensures clients == Swept(old(clients), limits, now)
    {
      var pending := clients.Keys;
      while pending != {}
        invariant pending <= old(clients).Keys
        invariant forall k :: k in clients <==>
          k in old(clients) && (k in pending || !IsStale(old(clients)[k], limits, now))
        invariant forall k | k in clients :: clients[k] == old(clients)[k]
        decreases |pending|
      {
        var itemKey :| itemKey in pending;
        if now - clients[itemKey].started > limits.window * 2 {
          clients := clients - {itemKey};
        }
        pending := pending - {itemKey};
      }
      NothingElseSwept(clients, old(clients), limits, now);
    }
  }

  // ---------- Whole runs ----------

  /** A request of a client, at the time it captured before it got the lock. */
  datatype Request = Request(key: string, now: int)

  /** The table after a run of requests, in the order in which they held the lock. */
  function TableAfter(limits: Limits, run: seq<Request>): Clients {
    if run == [] then map[]
    else
      var last := run[|run| - 1];
      Handled(TableAfter(limits, run[..|run| - 1]), limits, last.key, last.now)
  }

  /** The same without any sweep. */
  function FullTableAfter(limits: Limits, run: seq<Request>): Clients {
    if run == [] then map[]
    else
      var last := run[|run| - 1];
      Record(FullTableAfter(limits, run[..|run| - 1]), limits, last.key, last.now)
  }

  /** Whether request `i` of the run is let through. */
  function Decision(limits: Limits, run: seq<Request>, i: nat): bool
    requires i < |run|
  {
    Admits(TableAfter(limits, run[..i]), limits, run[i].key, run[i].now)
  }

  function DecisionWithoutSweep(limits: Limits, run: seq<Request>, i: nat): bool
    requires i < |run|
  {
    Admits(FullTableAfter(limits, run[..i]), limits, run[i].key, run[i].now)
  }

  /** No request's captured time lags that of an earlier lock holder by more than `lag`. */
  ghost predicate LagsAtMost(lag: int, run: seq<Request>) {
    forall i, j | 0 <= i < j < |run| :: run[j].now >= run[i].now - lag
  }

  /** An entry was so old at some request of the run that the sweep dropped it. */
  ghost predicate WasStale(limits: Limits, run: seq<Request>, entry: RateWindow) {
    exists i :: 0 <= i < |run| && IsStale(entry, limits, run[i].now)
  }

  /** The swept table holds the full table's entries, save those that were stale at some request so far. */
  ghost predicate DiffersByStale(limits: Limits, run: seq<Request>, swept: Clients, full: Clients) {
    && (forall k | k in swept :: k in full && full[k] == swept[k])
    && (forall k | k in full && k !in swept :: WasStale(limits, run, full[k]))
  }

  lemma StaleCountsAsAbsent(limits: Limits, run: seq<Request>, request: Request, entry: RateWindow)
    requires LagsAtMost(limits.window + 1, run + [request]) && WasStale(limits, run, entry)
    ensures Counted(entry, limits.window, request.now) == Counted(RateWindow(ZERO_TIME, 0), limits.window, request.now)
  {
    var i :| 0 <= i < |run| && IsStale(entry, limits, run[i].now);
    var all := run + [request];
    assert all[|run|] == request && all[i] == run[i];
  }

  lemma StaysStale(limits: Limits, run: seq<Request>, request: Request, entry: RateWindow)
    requires WasStale(limits, run, entry) || IsStale(entry, limits, request.now)
    ensures WasStale(limits, run + [request], entry)
  {
    var all := run + [request];
    assert all[|run|] == request;
    if WasStale(limits, run, entry) {
      var i :| 0 <= i < |run| && IsStale(entry, limits, run[i].now);
      assert all[i] == run[i];
    }
  }

  lemma SameEntryCounted(limits: Limits, run: seq<Request>, request: Request, swept: Clients, full: Clients)
    requires LagsAtMost(limits.window + 1, run + [request]) && DiffersByStale(limits, run, swept, full)
    ensures Counted(Entry(swept, request.key), limits.window, request.now)
         == Counted(Entry(full, request.key), limits.window, request.now)
  {
    if request.key in full && request.key !in swept {
      StaleCountsAsAbsent(limits, run, request, full[request.key]);
    }
  }

  lemma StepKeepsDifference(limits: Limits, run: seq<Request>, request: Request, swept: Clients, full: Clients)
    requires LagsAtMost(limits.window + 1, run + [request]) && DiffersByStale(limits, run, swept, full)
    ensures DiffersByStale(limits, run + [request],
                           Handled(swept, limits, request.key, request.now),
                               Record(full, limits, request.key, request.now))
  {
    SameEntryCounted(limits, run, request, swept, full);
    var swept', full' := Handled(swept, limits, request.key, request.now),
        Record(full, limits, request.key, request.now);
    forall k | k in full' && k !in swept'
      ensures WasStale(limits, run + [request], full'[k])
    {
      StaysStale(limits, run, request, full'[k]);
    }
  }

  lemma {:induction false} TablesDifferByStale(limits: Limits, run: seq<Request>)
    requires LagsAtMost(limits.window + 1, run)
    ensures DiffersByStale(limits, run, TableAfter(limits, run), FullTableAfter(limits, run))
  {
    if run != [] {
      var before, last := run[..|run| - 1], run[|run| - 1];
      assert before + [last] == run;
      TablesDifferByStale(limits, before);
      StepKeepsDifference(limits, before, last, TableAfter(limits, before), FullTableAfter(limits, before));
    }
  }

  /**
   With a lag of at most a window and a tick the sweep is invisible: every decision is the one a limiter without any
   sweep would make.
   */
  lemma SweepIsInvisible(limits: Limits, run: seq<Request>, i: nat)
    requires LagsAtMost(limits.window + 1, run) && i < |run|
    ensures Decision(limits, run, i) == DecisionWithoutSweep(limits, run, i)
  {
    assert run[..i] + [run[i]] == run[..i + 1];
    TablesDifferByStale(limits, run[..i]);
    SameEntryCounted(limits, run[..i], run[i], TableAfter(limits, run[..i]), FullTableAfter(limits, run[..i]));
  }

  // ---------- One key at a time ----------

  /** The times at which a key made requests. */
  function TimesOf(key: string, run: seq<Request>): seq<int> {
    if run == [] then []
    else
      var last := run[|run| - 1];
      TimesOf(key, run[..|run| - 1]) + if last.key == key then [last.now] else []
  }

  /** The window a client is in after its requests at the given times. */
  function WindowAfter(window: int, times: seq<int>): RateWindow {
    if times == [] then RateWindow(ZERO_TIME, 0)
    else Counted(WindowAfter(window, times[..|times| - 1]), window, times[|times| - 1])
  }

  lemma {:induction false} EntryIsOwnWindow(limits: Limits, run: seq<Request>, key: string)
    ensures Entry(FullTableAfter(limits, run), key) == WindowAfter(limits.window, TimesOf(key, run))
  {
    if run != [] {
      var before, last := run[..|run| - 1], run[|run| - 1];
      EntryIsOwnWindow(limits, before, key);
      var times := TimesOf(key, before);
      assert (times + [last.now])[..|times|] == times;
      assert times + [] == times;
    }
  }

  /** A client's outcome depends only on the times of its own requests. */
  lemma DecidedByOwnTimes(limits: Limits, run: seq<Request>, i: nat)
    requires LagsAtMost(limits.window + 1, run) && i < |run|
    ensures Decision(limits, run, i) <==>
      WindowAfter(limits.window, TimesOf(run[i].key, run[..i]) + [run[i].now]).count <= limits.capacity
  {
    SweepIsInvisible(limits, run, i);
    EntryIsOwnWindow(limits, run[..i], run[i].key);
    var times := TimesOf(run[i].key, run[..i]);
    assert (times + [run[i].now])[..|times|] == times;
  }

  // ---------- How many requests are let through ----------

  /** A clock that never runs back and has passed the zero time. */
  ghost predicate IsClock(times: seq<int>) {
    && (forall i | 0 <= i < |times| :: times[i] > ZERO_TIME)
    && (forall i, j | 0 <= i < j < |times| :: times[i] <= times[j])
  }

  /** The requests let through at times of the half-open interval [from, to). */
  function AdmittedIn(limits: Limits, times: seq<int>, from: int, to: int): nat {
    if times == [] then 0
    else
      var last := times[|times| - 1];
      AdmittedIn(limits, times[..|times| - 1], from, to)
        + if from <= last < to && WindowAfter(limits.window, times).count <= limits.capacity then 1 else 0
  }

  function Least(a: int, b: int): int {
    if a <= b then a else b
  }

  lemma {:induction false} WindowIsCurrent(window: int, times: seq<int>)
    requires window > 0 && IsClock(times) && times != []
    ensures var w := WindowAfter(window, times);
      ZERO_TIME < w.started <= times[|times| - 1] < w.started + window && w.count > 0
  {
    if |times| > 1 {
      WindowIsCurrent(window, times[..|times| - 1]);
    }
  }

  lemma {:induction false} NoneBefore(limits: Limits, times: seq<int>, from: int, to: int)
    requires forall i | 0 <= i < |times| :: times[i] < from
    ensures AdmittedIn(limits, times, from, to) == 0
  {
    if times != [] {
      NoneBefore(limits, times[..|times| - 1], from, to);
    }
  }

  lemma OneMoreWindow(m: nat, window: int, capacity: nat)
    ensures (m + 1) * window == m * window + window
    ensures (1 + m) * capacity + capacity == (1 + (m + 1)) * capacity
  {
  }

  lemma ProductsGrow(a: int, b: int, c: nat)
    requires a <= b
    ensures a * c <= b * c
  {
  }

  lemma Fewer(m: nat, n: nat, window: int, capacity: nat)
    requires window > 0 && m * window < n * window
    ensures m < n && (1 + m) * capacity + capacity <= (n + 1) * capacity
  {
    if n <= m {
      ProductsGrow(n, m, window);
      assert false;
    }
    ProductsGrow(m + 2, n + 1, capacity);
    OneMoreWindow(m, window, capacity);
  }

  /**
   What the interval [from, from + n windows) has let through so far, by where the current window started.
   In the middle case `m` whole windows fit between the interval's start and that window.
   */
  lemma {:induction false} AdmittedSoFar(limits: Limits, times: seq<int>, from: int, n: nat) returns (m: nat)
    requires limits.window > 0 && limits.capacity >= 0 && IsClock(times)
    ensures var w, to := WindowAfter(limits.window, times), from + n * limits.window;
      var admitted, capacity := AdmittedIn(limits, times, from, to), limits.capacity;
      if times == [] then admitted == 0
      else if w.started < from then admitted <= Least(w.count, capacity)
      else if w.started < to then
        m * limits.window <= w.started - from && admitted <= (1 + m) * capacity + Least(w.count, capacity)
      else admitted <= (n + 1) * capacity
  {
    m := 0;
    if times != [] {
      var before, last := times[..|times| - 1], times[|times| - 1];
      var to := from + n * limits.window;
      var m0 := AdmittedSoFar(limits, before, from, n);
      var w0, w := WindowAfter(limits.window, before), WindowAfter(limits.window, times);
      assert 0 * limits.window == 0;
      assert 0 <= n * limits.capacity && (n + 1) * limits.capacity == n * limits.capacity + limits.capacity;
      if before != [] {
        WindowIsCurrent(limits.window, before);
      }
      if before != [] && from <= w0.started < to {
        if w.started == w0.started {
          m := m0;
        } else {
          m := m0 + 1;
          OneMoreWindow(m0, limits.window, limits.capacity);
          Fewer(m0, n, limits.window, limits.capacity);
        }
      }
      if last < from {
        NoneBefore(limits, times, from, to);
      }
    }
  }

  /** Any interval of `n` windows lets through at most n + 1 times the capacity for each client. */
  lemma AdmissionBound(limits: Limits, times: seq<int>, from: int, n: nat)
    requires limits.window > 0 && limits.capacity >= 0 && IsClock(times)
    ensures AdmittedIn(limits, times, from, from + n * limits.window) <= (n + 1) * limits.capacity
  {
    var m := AdmittedSoFar(limits, times, from, n);
    assert 0 <= n * limits.capacity && (n + 1) * limits.capacity == n * limits.capacity + limits.capacity;
    var w := WindowAfter(limits.window, times);
    if times != [] && from <= w.started < from + n * limits.window {
      Fewer(m, n, limits.window, limits.capacity);
    }
  }

  /** Since the current window started, exactly the first `capacity` requests were let through. */
  lemma {:induction false} AdmittedInWindow(limits: Limits, times: seq<int>, to: int)
    requires limits.window > 0 && limits.capacity >= 0 && IsClock(times) && times != [] && times[|times| - 1] < to
    ensures var w := WindowAfter(limits.window, times);
      AdmittedIn(limits, times, w.started, to) == Least(w.count, limits.capacity)
  {
    var before, last := times[..|times| - 1], times[|times| - 1];
    WindowIsCurrent(limits.window, times);
    if before != [] {
      WindowIsCurrent(limits.window, before);
      AdmittedInWindow(limits, before, to);
      if WindowAfter(limits.window, times).started == last {
        var w0 := WindowAfter(limits.window, before);
        if last - w0.started >= limits.window {
          NoneBefore(limits, before, last, to);
        }
      }
    }
  }

  /** A denied request comes only after its client has had its full capacity within the last window. */
  lemma DeniedOnlyWhenFull(limits: Limits, times: seq<int>) returns (from: int)
    requires limits.window > 0 && limits.capacity >= 0 && IsClock(times) && times != []
    requires WindowAfter(limits.window, times).count > limits.capacity
    ensures from <= times[|times| - 1] < from + limits.window
    ensures AdmittedIn(limits, times, from, times[|times| - 1] + 1) == limits.capacity
  {
    WindowIsCurrent(limits.window, times);
    from := WindowAfter(limits.window, times).started;
    AdmittedInWindow(limits, times, times[|times| - 1] + 1);
  }

  // ---------- The bound on real runs ----------

  /** The requests of one client that a run lets through at times of [from, to). */
  function LetThrough(limits: Limits, key: string, run: seq<Request>, from: int, to: int): nat {
    if run == [] then 0
    else
      var last := |run| - 1;
      LetThrough(limits, key, run[..last], from, to)
        + if run[last].key == key && from <= run[last].now < to && Decision(limits, run, last) then 1 else 0
  }

  ghost predicate IsClockedRun(run: seq<Request>) {
    && (forall i | 0 <= i < |run| :: run[i].now > ZERO_TIME)
    && (forall i, j | 0 <= i < j < |run| :: run[i].now <= run[j].now)
  }

  lemma ClockTicks(times: seq<int>, now: int)
    requires IsClock(times) && now > ZERO_TIME
    requires forall i | 0 <= i < |times| :: times[i] <= now
    ensures IsClock(times + [now])
  {
  }

  lemma {:induction false} TimesAreClocked(key: string, run: seq<Request>)
    requires IsClockedRun(run)
    ensures IsClock(TimesOf(key, run))
    ensures forall t | t in TimesOf(key, run) :: run != [] && t <= run[|run| - 1].now
  {
    if run != [] {
      var before := run[..|run| - 1];
      TimesAreClocked(key, before);
      var times := TimesOf(key, before);
      forall i | 0 <= i < |times|
        ensures times[i] <= run[|run| - 1].now
      {
        assert times[i] in times;
      }
      ClockTicks(times, run[|run| - 1].now);
    }
  }

  lemma {:induction false} LetThroughIsAdmitted(limits: Limits, key: string, run: seq<Request>, from: int, to: int)
    requires limits.window > 0 && IsClockedRun(run)
    ensures LetThrough(limits, key, run, from, to) == AdmittedIn(limits, TimesOf(key, run), from, to)
  {
    if run != [] {
      hide Decision, WindowAfter;
      var last := |run| - 1;
      LetThroughIsAdmitted(limits, key, run[..last], from, to);
      var times := TimesOf(key, run[..last]);
      if run[last].key == key {
        DecidedByOwnTimes(limits, run, last);
        assert (times + [run[last].now])[..|times|] == times;
      } else {
        assert times + [] == times;
      }
    }
  }

  /** With sweeps and any mix of clients, any interval of `n` windows lets through at most n + 1 times the capacity. */
  lemma RunAdmissionBound(limits: Limits, key: string, run: seq<Request>, from: int, n: nat)
    requires limits.window > 0 && limits.capacity >= 0 && IsClockedRun(run)
    ensures LetThrough(limits, key, run, from, from + n * limits.window) <= (n + 1) * limits.capacity
  {
    TimesAreClocked(key, run);
    LetThroughIsAdmitted(limits, key, run, from, from + n * limits.window);
    AdmissionBound(limits, TimesOf(key, run), from, n);
  }
}
