/** L1 theorems about the attempt gate in front of `hold` and of vehicle bids. */
module GateRuns {
  import opened Rows
  import opened AttemptGate
  import opened Machine
  import opened Frames

  ghost predicate AttemptsAt(es: seq<Event>, k: nat, key: GateKey) {
    k < |es| && GateOf(es[k].action) == Some(key)
  }

  /** The call passes the gate, whatever it answers afterwards. */
  ghost predicate PassesAt(cfg: Config, start: Db, es: seq<Event>, k: nat, key: GateKey) {
    AttemptsAt(es, k, key) && OutcomeAt(cfg, start, es, k) != Err(TooManyAttempts)
  }

  lemma CounterStep(cfg: Config, db: Db, e: Event, key: GateKey)
    ensures Lookup(Apply(cfg, db, e).db.counters, key)
         == if GateOf(e.action) == Some(key) then Some(Bump(Lookup(db.counters, key), FRAUD_WINDOW_MS, e.now))
             else Lookup(db.counters, key)
    ensures GateOf(e.action) == Some(key)
        && Bump(Lookup(db.counters, key), FRAUD_WINDOW_MS, e.now).count > ThresholdOf(cfg, key)
        ==> Apply(cfg, db, e).out == Err(TooManyAttempts)
  {
    hide Serve;
    match GateOf(e.action)
    case None => ServeFrame(cfg, db, e.action, e.now);
    case Some(k) => ServeFrame(cfg, db.(counters := Attempt(db.counters, k, e.now)), e.action, e.now);
  }

  /** The clock readings of the first n events that attempt the key. */
  ghost function AttemptTimes(es: seq<Event>, key: GateKey, n: nat): seq<Time>
    requires n <= |es|
  {
    if n == 0 then []
    else AttemptTimes(es, key, n - 1) + if AttemptsAt(es, n - 1, key) then [es[n - 1].now] else []
  }

  /** Over a run the stored counter is the longest burst of the key's attempts so far. */
  lemma {:induction false} CounterFollowsAttempts(cfg: Config, start: Db, es: seq<Event>, key: GateKey, n: nat)
    requires n <= |es| && key !in start.counters
    ensures Lookup(StateAt(cfg, start, es, n).counters, key) == CounterAfter(AttemptTimes(es, key, n), FRAUD_WINDOW_MS)
  {
    hide Apply;
    if n > 0 {
      CounterFollowsAttempts(cfg, start, es, key, n - 1);
      CounterStep(cfg, StateAt(cfg, start, es, n - 1), es[n - 1], key);
      var init := AttemptTimes(es, key, n - 1);
      assert (init + [es[n - 1].now])[..|init|] == init && init + [] == init;
      assert AttemptsAt(es, n - 1, key) <==> GateOf(es[n - 1].action) == Some(key);
    }
  }

  lemma CountIsBurstOfAttempts(cfg: Config, start: Db, es: seq<Event>, key: GateKey, n: nat)
    requires n < |es| && key !in start.counters && AttemptsAt(es, n, key)
    ensures key in StateAt(cfg, start, es, n + 1).counters
    ensures IsLongestBurst(AttemptTimes(es, key, n + 1), FRAUD_WINDOW_MS,
        StateAt(cfg, start, es, n + 1).counters[key].count)
  {
    hide Apply;
    CounterFollowsAttempts(cfg, start, es, key, n + 1);
    CountIsLongestBurst(AttemptTimes(es, key, n + 1), FRAUD_WINDOW_MS);
  }

  // ---- how many attempts pass ---------------------------------------------------------------------------

  /** The attempts among events i to m. */
  ghost function AttemptsIn(es: seq<Event>, key: GateKey, i: nat, m: nat): set<nat> {
    set k: nat | i <= k <= m && AttemptsAt(es, k, key)
  }

  ghost predicate CountSound(c: Option<Counter>) {
    c.Some? ==> c.value.count >= 0
  }

  lemma {:induction false} CountsSound(cfg: Config, start: Db, es: seq<Event>, key: GateKey, n: nat)
    requires n <= |es| && CountSound(Lookup(start.counters, key))
    ensures CountSound(Lookup(StateAt(cfg, start, es, n).counters, key))
  {
    hide Apply;
    if n > 0 {
      CountsSound(cfg, start, es, key, n - 1);
      CounterStep(cfg, StateAt(cfg, start, es, n - 1), es[n - 1], key);
    }
  }

  lemma AttemptsGrow(es: seq<Event>, key: GateKey, i: nat, m: nat)
    requires i < m
    ensures AttemptsIn(es, key, i, m) == AttemptsIn(es, key, i, m - 1) + if AttemptsAt(es, m, key) then {m} else {}
    ensures m !in AttemptsIn(es, key, i, m - 1)
  {
  }

  lemma AttemptsBegin(es: seq<Event>, key: GateKey, i: nat)
    ensures AttemptsIn(es, key, i, i) == if AttemptsAt(es, i, key) then {i} else {}
  {
  }

  /** Within a window of event i the counter has counted every attempt since. */
  lemma {:induction false} WindowCounted(cfg: Config, start: Db, es: seq<Event>, key: GateKey, i: nat, m: nat)
    requires Ordered(es) && CountSound(Lookup(start.counters, key))
    requires i <= m < |es| && AttemptsAt(es, i, key) && es[m].now - es[i].now < FRAUD_WINDOW_MS
    ensures var c := Lookup(StateAt(cfg, start, es, m + 1).counters, key);
            c.Some? && c.value.count >= |AttemptsIn(es, key, i, m)| && c.value.expiresAt >= es[i].now + FRAUD_WINDOW_MS
    decreases m
  {
    hide Apply, AttemptsIn;
    CounterStep(cfg, StateAt(cfg, start, es, m), es[m], key);
    if i == m {
      CountsSound(cfg, start, es, key, m);
      AttemptsBegin(es, key, i);
    } else {
      WindowCounted(cfg, start, es, key, i, m - 1);
      AttemptsGrow(es, key, i, m);
    }
  }

  lemma Extremes(s: set<nat>) returns (lo: nat, hi: nat)
    requires s != {}
    ensures lo in s && hi in s && forall k :: k in s ==> lo <= k <= hi
  {
    var x :| x in s;
    if s == {x} {
      lo, hi := x, x;
    } else {
      var a, b := Extremes(s - {x});
      assert forall k :: k in s ==> k == x || k in s - {x};
      lo := if x < a then x else a;
      hi := if x > b then x else b;
    }
  }

  lemma SubsetSize(a: set<nat>, b: set<nat>)
    requires a <= b
    ensures |a| <= |b|
  {
    if a != {} {
      var x :| x in a;
      SubsetSize(a - {x}, b - {x});
    }
  }

  /** In any window of sixty seconds at most the threshold number of one user's attempts pass. */
  lemma GateHolds(cfg: Config, start: Db, es: seq<Event>, key: GateKey, from: Time, passed: set<nat>)
    requires Ordered(es) && CountSound(Lookup(start.counters, key)) && ThresholdOf(cfg, key) >= 0
    requires forall k :: k in passed ==> PassesAt(cfg, start, es, k, key) && from <= es[k].now < from + FRAUD_WINDOW_MS
    ensures |passed| <= ThresholdOf(cfg, key)
  {
    hide Apply;
    if passed != {} {
      var lo, hi := Extremes(passed);
      WindowCounted(cfg, start, es, key, lo, hi);
      CounterStep(cfg, StateAt(cfg, start, es, hi), es[hi], key);
      SubsetSize(passed, AttemptsIn(es, key, lo, hi));
    }
  }

  // ---- attempts refused within the rate ------------------------------------------------------------------

  /** Only the gate answers that there were too many attempts. */
  lemma ServeNeverTooMany(cfg: Config, db: Db, a: Action, now: Time)
    ensures Serve(cfg, db, a, now).out != Err(TooManyAttempts)
  {
    hide BidsSpec.Record, OrdersSpec.IdsFree, OrdersSpec.CanSettle;
  }

  lemma RefusedStep(cfg: Config, db: Db, e: Event, key: GateKey)
    requires GateOf(e.action) == Some(key)
    ensures Apply(cfg, db, e).out == Err(TooManyAttempts) <==> !PassesGate(cfg, db.counters, key, e.now)
  {
    hide Serve;
    ServeNeverTooMany(cfg, db.(counters := Attempt(db.counters, key, e.now)), e.action, e.now);
  }

  lemma {:induction false} AttemptTimesAscend(es: seq<Event>, key: GateKey, n: nat)
    requires Ordered(es) && n <= |es|
    ensures Ascending(AttemptTimes(es, key, n))
    ensures forall k :: 0 <= k < |AttemptTimes(es, key, n)| ==> n > 0 && AttemptTimes(es, key, n)[k] <= es[n - 1].now
  {
    if n > 0 {
      AttemptTimesAscend(es, key, n - 1);
    }
  }

  /** The stored count of the attempt that event n makes. */
  lemma CountAtAttempt(cfg: Config, start: Db, es: seq<Event>, key: GateKey, n: nat)
    requires n < |es| && key !in start.counters && AttemptsAt(es, n, key)
    ensures var times := AttemptTimes(es, key, n + 1);
            && times != [] && CounterAfter(times, FRAUD_WINDOW_MS).Some?
            && (OutcomeAt(cfg, start, es, n) == Err(TooManyAttempts) <==>
                  CounterAfter(times, FRAUD_WINDOW_MS).value.count > ThresholdOf(cfg, key))
  {
    hide Apply;
    CounterFollowsAttempts(cfg, start, es, key, n);
    RefusedStep(cfg, StateAt(cfg, start, es, n), es[n], key);
    var init := AttemptTimes(es, key, n);
    assert (init + [es[n].now])[..|init|] == init;
  }

  /** The gate refuses an attempt within the sliding rate exactly when the burst is over the threshold while the
      window is not: the last threshold + 1 attempts are closer than a window to each other, the first of them a
      window old. */
  lemma RefusedWithinRateIff(cfg: Config, start: Db, es: seq<Event>, key: GateKey, n: nat)
    requires Ordered(es) && n < |es| && key !in start.counters && AttemptsAt(es, n, key) && ThresholdOf(cfg, key) >= 0
    ensures AttemptTimes(es, key, n + 1) != []
    ensures var times, most := AttemptTimes(es, key, n + 1), ThresholdOf(cfg, key);
            OutcomeAt(cfg, start, es, n) == Err(TooManyAttempts) && |InWindow(times, FRAUD_WINDOW_MS)| <= most <==>
              && most < |times|
              && (forall k :: |times| - 1 - most < k < |times| ==> Close(times, FRAUD_WINDOW_MS, k))
              && times[|times| - 1] - times[|times| - 1 - most] >= FRAUD_WINDOW_MS
  {
    hide Apply, OutcomeAt, CounterAfter, InWindow;
    var times, most := AttemptTimes(es, key, n + 1), ThresholdOf(cfg, key);
    CountAtAttempt(cfg, start, es, key, n);
    AttemptTimesAscend(es, key, n + 1);
    CountExceedsIff(times, FRAUD_WINDOW_MS, most);
    WindowExceedsIff(times, FRAUD_WINDOW_MS, most);
  }

  /** The same attempt once every 59 seconds, one more often than the threshold. */
  function EveryFiftyNineSeconds(cfg: Config, a: Action, key: GateKey): seq<Event>
    requires ThresholdOf(cfg, key) >= 0
  {
    seq(ThresholdOf(cfg, key) + 1, k => Event(a, 59000 * k))
  }

  lemma {:induction false} TimesOfSteadyAttempts(cfg: Config, a: Action, key: GateKey, n: nat)
    requires GateOf(a) == Some(key) && ThresholdOf(cfg, key) >= 0 && n <= ThresholdOf(cfg, key) + 1
    ensures AttemptTimes(EveryFiftyNineSeconds(cfg, a, key), key, n) == seq(n, k => 59000 * k)
  {
    if n > 0 {
      TimesOfSteadyAttempts(cfg, a, key, n - 1);
      assert AttemptsAt(EveryFiftyNineSeconds(cfg, a, key), n - 1, key);
    }
  }

  /** Two attempts in every window, yet the last one is refused, whatever the threshold from two on. */
  lemma SteadyAttemptsAreRefused(cfg: Config, start: Db, a: Action, key: GateKey)
    requires GateOf(a) == Some(key) && key !in start.counters && ThresholdOf(cfg, key) >= 2
    ensures var es, most := EveryFiftyNineSeconds(cfg, a, key), ThresholdOf(cfg, key);
            && Ordered(es) && AttemptsAt(es, most, key) && AttemptTimes(es, key, most + 1) != []
            && OutcomeAt(cfg, start, es, most) == Err(TooManyAttempts)
            && |InWindow(AttemptTimes(es, key, most + 1), FRAUD_WINDOW_MS)| == 2
  {
    hide Apply, OutcomeAt;
    var es, most := EveryFiftyNineSeconds(cfg, a, key), ThresholdOf(cfg, key);
    var times := AttemptTimes(es, key, most + 1);
    TimesOfSteadyAttempts(cfg, a, key, most + 1);
    assert AttemptsAt(es, most, key);
    RefusedWithinRateIff(cfg, start, es, key, most);
    assert forall k :: |times| - 1 - most < k < |times| ==> Close(times, FRAUD_WINDOW_MS, k);
    assert InWindow(times, FRAUD_WINDOW_MS) == {most - 1, most};
  }
}
