/** The Redis attempt counter (RedisService.incrWindow) and what its value means. */
module AttemptGate {
  import opened Rows

  const FRAUD_WINDOW_MS: int := 60000

  predicate Alive(c: Option<Counter>, now: Time) {
    c.Some? && now < c.value.expiresAt
  }

  /** INCR then EXPIRE: a lapsed key starts again at one. */
  function Bump(c: Option<Counter>, windowMs: int, now: Time): Counter {
    Counter(if Alive(c, now) then c.value.count + 1 else 1, now + windowMs)
  }

  function Lookup(counters: Counters, key: GateKey): Option<Counter> {
    if key in counters then Some(counters[key]) else None
  }

  function Attempt(counters: Counters, key: GateKey, now: Time): Counters {
    counters[key := Bump(Lookup(counters, key), FRAUD_WINDOW_MS, now)]
  }

  function ThresholdOf(cfg: Config, key: GateKey): int {
    if key.HoldGate? then cfg.holdThreshold else cfg.bidThreshold
  }

  /** One more attempt would be within the threshold. */
  predicate PassesGate(cfg: Config, counters: Counters, key: GateKey, now: Time) {
    Attempt(counters, key, now)[key].count <= ThresholdOf(cfg, key)
  }

  // ---- one key, one list of attempts -----------------------------------------

  predicate Ascending(times: seq<Time>) {
    forall i, j :: 0 <= i <= j < |times| ==> times[i] <= times[j]
  }

  function CounterAfter(times: seq<Time>, windowMs: int): Option<Counter> {
    if times == [] then None
    else Some(Bump(CounterAfter(times[..|times| - 1], windowMs), windowMs, times[|times| - 1]))
  }

  predicate Close(times: seq<Time>, windowMs: int, k: int)
    requires 1 <= k < |times|
  {
    times[k] - times[k - 1] < windowMs
  }

  /** The last n attempts follow each other within the window, and n cannot be made larger. */
  ghost predicate IsLongestBurst(times: seq<Time>, windowMs: int, n: int) {
    && 1 <= n <= |times|
    && (forall k :: |times| - n < k < |times| ==> Close(times, windowMs, k))
    && (n < |times| ==> !Close(times, windowMs, |times| - n))
  }

  lemma {:induction false} CountIsLongestBurst(times: seq<Time>, windowMs: int)
    requires times != []
    ensures CounterAfter(times, windowMs).Some?
    ensures IsLongestBurst(times, windowMs, CounterAfter(times, windowMs).value.count)
    ensures CounterAfter(times, windowMs).value.expiresAt == times[|times| - 1] + windowMs
  {
    var init := times[..|times| - 1];
    if init != [] {
      CountIsLongestBurst(init, windowMs);
      var n := CounterAfter(times, windowMs).value.count;
      forall k | |times| - n < k < |times| ensures Close(times, windowMs, k) {
        assert k < |init| ==> Close(init, windowMs, k);
      }
      assert |init| - (n - 1) == |times| - n;
    }
  }

  /** A quiet gap of a whole window starts the count again. */
  lemma QuietGapResets(times: seq<Time>, windowMs: int)
    requires |times| >= 2 && times[|times| - 1] - times[|times| - 2] >= windowMs
    ensures CounterAfter(times, windowMs).value.count == 1
  {
    CountIsLongestBurst(times[..|times| - 1], windowMs);
  }

  /** Every attempt of the last window is counted: the counter never undercounts. */
  lemma BurstCoversWindow(times: seq<Time>, windowMs: int, i: int)
    requires Ascending(times) && 0 <= i < |times| && times[|times| - 1] - times[i] < windowMs
    ensures CounterAfter(times, windowMs).Some?
    ensures |times| - i <= CounterAfter(times, windowMs).value.count
  {
    CountIsLongestBurst(times, windowMs);
  }

  // ---- the count against the true sliding window ---------------------------------------------------

  /** The attempts of the last window, the latest included. */
  function InWindow(times: seq<Time>, windowMs: int): set<int>
    requires times != []
  {
    set i | 0 <= i < |times| && times[|times| - 1] - times[i] < windowMs
  }

  lemma {:induction false} RangeSize(s: set<int>, lo: int, hi: int)
    requires lo <= hi && forall i :: i in s ==> lo <= i < hi
    ensures |s| <= hi - lo
    ensures |s| == hi - lo <==> forall i :: lo <= i < hi ==> i in s
    decreases hi - lo
  {
    if lo == hi {
      assert s == {};
    } else {
      RangeSize(s - {lo}, lo + 1, hi);
      assert forall i :: lo < i < hi ==> (i in s <==> i in s - {lo});
    }
  }

  lemma {:induction false} RangeInside(s: set<int>, lo: int, hi: int)
    requires lo <= hi && forall i :: lo <= i < hi ==> i in s
    ensures |s| >= hi - lo
    decreases hi - lo
  {
    if lo < hi {
      RangeInside(s - {lo}, lo + 1, hi);
    }
  }

  /** The count is the number of attempts in the last window if and only if its oldest attempt lies in that window. */
  lemma CountIsWindowIff(times: seq<Time>, windowMs: int)
    requires Ascending(times) && times != [] && windowMs > 0
    ensures CounterAfter(times, windowMs).Some? && 1 <= CounterAfter(times, windowMs).value.count <= |times|
    ensures var n := CounterAfter(times, windowMs).value.count;
            && |InWindow(times, windowMs)| <= n
            && (n == |InWindow(times, windowMs)| <==> times[|times| - 1] - times[|times| - n] < windowMs)
  {
    CountIsLongestBurst(times, windowMs);
    var n := CounterAfter(times, windowMs).value.count;
    forall i | i in InWindow(times, windowMs) ensures |times| - n <= i < |times| {
      BurstCoversWindow(times, windowMs, i);
    }
    RangeSize(InWindow(times, windowMs), |times| - n, |times|);
    assert |times| - n in InWindow(times, windowMs) <==> times[|times| - 1] - times[|times| - n] < windowMs;
  }

  /** Three attempts, one every 59 seconds: the count is three, with two in the last minute. */
  lemma CountExceedsWindow()
    ensures CounterAfter([0, 59000, 118000], FRAUD_WINDOW_MS) == Some(Counter(3, 178000))
    ensures |InWindow([0, 59000, 118000], FRAUD_WINDOW_MS)| == 2
  {
    var one: seq<Time>, two: seq<Time>, times: seq<Time> := [0], [0, 59000], [0, 59000, 118000];
    assert one[..0] == [] && two[..1] == one && times[..2] == two;
    assert CounterAfter(one, FRAUD_WINDOW_MS) == Some(Counter(1, 60000));
    assert CounterAfter(two, FRAUD_WINDOW_MS) == Some(Counter(2, 119000));
    assert InWindow(times, FRAUD_WINDOW_MS) == {1, 2};
  }

  /** More than `most` attempts in the last window: the one `most` before the latest is in it. */
  lemma WindowExceedsIff(times: seq<Time>, windowMs: int, most: int)
    requires Ascending(times) && times != [] && windowMs > 0 && most >= 0
    ensures |InWindow(times, windowMs)| > most
       <==> most < |times| && times[|times| - 1] - times[|times| - 1 - most] < windowMs
  {
    var s := InWindow(times, windowMs);
    var lo := |times| - 1 - most;
    if lo >= 0 && times[|times| - 1] - times[lo] < windowMs {
      RangeInside(s, lo, |times|);
    } else {
      RangeSize(s, if lo >= 0 then lo + 1 else 0, |times|);
    }
  }

  /** A count above `most`: the last `most + 1` attempts follow each other within the window. */
  lemma CountExceedsIff(times: seq<Time>, windowMs: int, most: int)
    requires times != [] && most >= 0
    ensures CounterAfter(times, windowMs).Some?
    ensures CounterAfter(times, windowMs).value.count > most
       <==> most < |times| && forall k :: |times| - 1 - most < k < |times| ==> Close(times, windowMs, k)
  {
    CountIsLongestBurst(times, windowMs);
    var n := CounterAfter(times, windowMs).value.count;
    assert n <= most && n < |times| ==> !Close(times, windowMs, |times| - n);
  }
}
