/**
  The circuit breaker in front of the identity provider. Times come from a monotonic clock and
  are passed in: one for the guard, one for when the call failed.
 */
module Breaker {
  import opened Wrappers

  datatype Mode = Closed | Open | HalfOpen

  datatype Circuit = Circuit(mode: Mode, failures: int, lastFailure: real)

  datatype Config = Config(threshold: int, recovery: real)

  /** One call of the wrapped function: when it is asked for, when it ends, whether it raises. */
  datatype Attempt = Attempt(start: real, finish: real, raises: bool)

  const INITIAL := Circuit(Closed, 0, 0.0)

  predicate Admits(config: Config, c: Circuit, start: real) {
    c.mode.Open? ==> start - c.lastFailure > config.recovery
  }

  /** The breaker after a call. */
  function Called(config: Config, c: Circuit, a: Attempt): Circuit {
    if !Admits(config, c, a.start) then c
    else if !a.raises then Circuit(Closed, 0, c.lastFailure)
    else
      var failures := c.failures + 1;
      var mode := if failures >= config.threshold then Open else if c.mode.Open? then HalfOpen else c.mode;
      Circuit(mode, failures, a.finish)
  }

  class CircuitBreaker {
    const config: Config
    var state: Mode
    var failures: int
    var lastFailureTime: real

    function Value(): Circuit
      reads this
    {
      Circuit(state, failures, lastFailureTime)
    }

    constructor (threshold: int, recovery: real)
      ensures config == Config(threshold, recovery) && Value() == INITIAL
    {
      config := Config(threshold, recovery);
      state, failures, lastFailureTime := Closed, 0, 0.0;
    }

    /** Refuses while open and not yet recovered; otherwise calls through and records how it went. */
    method Call<R>(a: Attempt, result: R) returns (r: Result<R>, reached: bool)
      modifies this
      ensures Value() == Called(config, old(Value()), a)
      ensures reached == Admits(config, old(Value()), a.start)
      ensures r == if !reached then Err("Identity provider circuit breaker is open")
                   else if a.raises then Err("Identity provider unavailable") else Ok(result)
      ensures reached <==> !old(state).Open? || a.start - old(lastFailureTime) > config.recovery
      ensures !reached ==> Value() == old(Value())
      ensures reached && !a.raises ==> state.Closed? && failures == 0
      ensures reached && a.raises ==>
                && failures == old(failures) + 1 && lastFailureTime == a.finish
                && (failures >= config.threshold ==> state.Open?)
                && (failures < config.threshold ==> !state.Open?)
    {
      if state.Open? {
        if a.start - lastFailureTime > config.recovery {
          state := HalfOpen;
        } else {
          return Err("Identity provider circuit breaker is open"), false;
        }
      }
      if a.raises {
        failures := failures + 1;
        lastFailureTime := a.finish;
        if failures >= config.threshold {
          state := Open;
        }
        return Err("Identity provider unavailable"), true;
      }
      failures := 0;
      state := Closed;
      r, reached := Ok(result), true;
    }
  }

  // ---------------------------------------------------------------------------
  // Whole runs
  // ---------------------------------------------------------------------------

  function After(config: Config, c: Circuit, run: seq<Attempt>): Circuit
    decreases |run|
  {
    if run == [] then c else Called(config, After(config, c, run[..|run| - 1]), run[|run| - 1])
  }

  /** The attempts that reach the provider. */
  function Reached(config: Config, c: Circuit, run: seq<Attempt>): seq<Attempt>
    decreases |run|
  {
    if run == [] then []
    else
      var shorter, last := run[..|run| - 1], run[|run| - 1];
      Reached(config, c, shorter) + if Admits(config, After(config, c, shorter), last.start) then [last] else []
  }

  /** How many of the last calls failed in a row. */
  function TrailingFailures(calls: seq<Attempt>): nat {
    if calls == [] || !calls[|calls| - 1].raises then 0 else TrailingFailures(calls[..|calls| - 1]) + 1
  }

  /** `failures` counts consecutive failures since the last success, and closed means below the threshold. */
  lemma {:induction false} FailuresAreConsecutive(config: Config, run: seq<Attempt>)
    requires config.threshold >= 1
    ensures var c := After(config, INITIAL, run);
            && c.failures == TrailingFailures(Reached(config, INITIAL, run))
            && (c.mode.Closed? <==> c.failures < config.threshold)
            && !c.mode.HalfOpen?
            && (c.failures > 0 ==>
                  var calls := Reached(config, INITIAL, run);
                  calls != [] && c.lastFailure == calls[|calls| - 1].finish)
    decreases |run|
  {
    if run != [] {
      var shorter, last := run[..|run| - 1], run[|run| - 1];
      FailuresAreConsecutive(config, shorter);
      var calls := Reached(config, INITIAL, shorter);
      assert (calls + [last])[..|calls|] == calls;
      assert calls + [] == calls;
    }
  }

  /** The closed-means-below-threshold reading holds in every run exactly when the threshold is at least one. */
  lemma {:induction false} ThresholdMustBePositive(config: Config)
    ensures config.threshold >= 1 <==>
              forall run :: var c := After(config, INITIAL, run); c.mode.Closed? <==> c.failures < config.threshold
  {
    if config.threshold >= 1 {
      forall run ensures var c := After(config, INITIAL, run); c.mode.Closed? <==> c.failures < config.threshold {
        FailuresAreConsecutive(config, run);
      }
    } else {
      assert After(config, INITIAL, []) == INITIAL;
    }
  }

  // ---------------------------------------------------------------------------
  // Which attempts reach the provider
  // ---------------------------------------------------------------------------

  /** The last n calls all failed. */
  predicate LastFailed(calls: seq<Attempt>, n: int) {
    n <= |calls| && forall i | 0 <= i < |calls| && |calls| - n <= i :: calls[i].raises
  }

  lemma {:induction false} TrailingExactly(calls: seq<Attempt>, n: int)
    requires n >= 0
    ensures TrailingFailures(calls) >= n <==> LastFailed(calls, n)
    decreases |calls|
  {
    if calls != [] && n > 0 {
      var before := calls[..|calls| - 1];
      TrailingExactly(before, n - 1);
      assert forall i | 0 <= i < |before| :: before[i] == calls[i];
      if LastFailed(calls, n) { assert calls[|calls| - 1].raises; }
    }
  }

  /** More than the recovery time has passed since the last of the calls ended. */
  predicate Rested(config: Config, calls: seq<Attempt>, start: real) {
    calls != [] && start - calls[|calls| - 1].finish > config.recovery
  }

  /**
    After any run, and told by the attempts that reached the provider alone: the next one reaches it if and only if
    the last `threshold` of these did not all fail, or it starts more than the recovery time after the last one ended.
   */
  lemma {:induction false} ReachesExactly(config: Config, run: seq<Attempt>, a: Attempt)
    requires config.threshold >= 1
    ensures var calls := Reached(config, INITIAL, run);
            Reached(config, INITIAL, run + [a]) ==
              calls + if !LastFailed(calls, config.threshold) || Rested(config, calls, a.start) then [a] else []
  {
    assert (run + [a])[..|run|] == run;
    FailuresAreConsecutive(config, run);
    TrailingExactly(Reached(config, INITIAL, run), config.threshold);
  }

  /** After an outage the first call past the recovery time gets through; if it succeeds, so does whatever comes next. */
  lemma {:induction false} OutageEnds(config: Config, run: seq<Attempt>, a: Attempt, next: Attempt)
    requires config.threshold >= 1 && Rested(config, Reached(config, INITIAL, run), a.start)
    ensures var calls := Reached(config, INITIAL, run);
            && Reached(config, INITIAL, run + [a]) == calls + [a]
            && (!a.raises ==>
                  && After(config, INITIAL, run + [a]).mode.Closed? && After(config, INITIAL, run + [a]).failures == 0
                  && Reached(config, INITIAL, run + [a] + [next]) == calls + [a] + [next])
  {
    ReachesExactly(config, run, a);
    ReachesExactly(config, run + [a], next);
    assert (run + [a])[..|run|] == run;
    var calls := Reached(config, INITIAL, run);
    if !a.raises {
      assert (calls + [a])[|calls|] == a;
      assert !LastFailed(calls + [a], config.threshold);
      FailuresAreConsecutive(config, run + [a]);
    }
  }

  // ---------------------------------------------------------------------------
  // The call rate during an outage
  // ---------------------------------------------------------------------------

  /** Attempts happen one after the other. */
  predicate Timed(run: seq<Attempt>) {
    && (forall i | 0 <= i < |run| :: run[i].start <= run[i].finish)
    && forall i, j | 0 <= i < j < |run| :: run[i].finish <= run[j].start
  }

  predicate AllRaise(calls: seq<Attempt>) {
    forall i | 0 <= i < |calls| :: calls[i].raises
  }

  lemma {:induction false} ReachedFromRun(config: Config, c: Circuit, run: seq<Attempt>, k: nat)
    requires k < |Reached(config, c, run)|
    ensures exists i :: 0 <= i < |run| && run[i] == Reached(config, c, run)[k]
    decreases |run|
  {
    var shorter := run[..|run| - 1];
    if k < |Reached(config, c, shorter)| {
      ReachedFromRun(config, c, shorter, k);
      var i :| 0 <= i < |shorter| && shorter[i] == Reached(config, c, shorter)[k];
      assert run[i] == Reached(config, c, run)[k];
    } else {
      assert run[|run| - 1] == Reached(config, c, run)[k];
    }
  }

  /** The time from the end of one call to the start of the next. */
  function Gap(calls: seq<Attempt>, k: nat): real
    requires 1 <= k < |calls|
  {
    calls[k].start - calls[k - 1].finish
  }

  /** From the threshold on, more than the recovery time passes before each call. */
  ghost predicate Spaced(config: Config, calls: seq<Attempt>)
    requires config.threshold >= 1
  {
    forall k | config.threshold <= k < |calls| :: Gap(calls, k) > config.recovery
  }

  lemma {:induction false} AppendTimed(calls: seq<Attempt>, last: Attempt)
    requires Timed(calls) && last.start <= last.finish && forall k | 0 <= k < |calls| :: calls[k].finish <= last.start
    ensures Timed(calls + [last])
  {
  }

  lemma {:induction false} AppendSpaced(config: Config, calls: seq<Attempt>, last: Attempt)
    requires config.threshold >= 1 && Spaced(config, calls)
    requires |calls| >= config.threshold ==> last.start - calls[|calls| - 1].finish > config.recovery
    ensures Spaced(config, calls + [last])
  {
    forall k | config.threshold <= k < |calls| + 1 ensures Gap(calls + [last], k) > config.recovery {
      if k < |calls| { assert Gap(calls + [last], k) == Gap(calls, k); }
    }
  }

  lemma {:induction false} AllFailed(calls: seq<Attempt>)
    requires AllRaise(calls)
    ensures TrailingFailures(calls) == |calls|
  {
    if calls != [] { AllFailed(calls[..|calls| - 1]); }
  }

  lemma {:induction false} CallsAreTimed(config: Config, run: seq<Attempt>)
    requires Timed(run)
    ensures Timed(Reached(config, INITIAL, run))
    decreases |run|
  {
    if run != [] {
      var shorter, last := run[..|run| - 1], run[|run| - 1];
      var before := Reached(config, INITIAL, shorter);
      CallsAreTimed(config, shorter);
      forall k | 0 <= k < |before| ensures before[k].finish <= last.start {
        ReachedFromRun(config, INITIAL, shorter, k);
      }
      AppendTimed(before, last);
      assert before + [] == before;
    }
  }

  /** In an outage the calls past the threshold are spaced by more than the recovery time. */
  lemma {:induction false} CallsAreSpaced(config: Config, run: seq<Attempt>)
    requires config.threshold >= 1 && AllRaise(Reached(config, INITIAL, run))
    ensures Spaced(config, Reached(config, INITIAL, run))
    decreases |run|
  {
    if run != [] {
      var shorter, last := run[..|run| - 1], run[|run| - 1];
      var before := Reached(config, INITIAL, shorter);
      assert before + [] == before;
      forall k | 0 <= k < |before| ensures before[k].raises {
        assert before[k] == Reached(config, INITIAL, run)[k];
      }
      CallsAreSpaced(config, shorter);
      FailuresAreConsecutive(config, shorter);
      AllFailed(before);
      if Admits(config, After(config, INITIAL, shorter), last.start) {
        AppendSpaced(config, before, last);
      }
    }
  }

  /** Between the a-th and the b-th call at least (b - a - threshold + 1) whole recovery times pass. */
  lemma {:induction false} ElapsedAtLeast(config: Config, calls: seq<Attempt>, a: nat, b: nat)
    requires config.threshold >= 1 && config.recovery >= 0.0 && Timed(calls) && a <= b < |calls| && Spaced(config, calls)
    ensures calls[b].start >= calls[a].start
    ensures b - a >= config.threshold ==>
              calls[b].start - calls[a].start > Times(b - a - config.threshold + 1, config.recovery)
    decreases b - a
  {
    if a < b {
      ElapsedAtLeast(config, calls, a, b - 1);
      assert calls[b - 1].start <= calls[b - 1].finish <= calls[b].start;
      if b - a >= config.threshold {
        assert Gap(calls, b) > config.recovery;
        OneMore(b - a - config.threshold, config.recovery);
      }
    }
  }

  function Times(n: int, t: real): real {
    (n as real) * t
  }

  lemma {:induction false} OneMore(n: int, t: real)
    ensures Times(n + 1, t) == Times(n, t) + t && Times(0, t) == 0.0
  {
    var m := n as real;
    assert (n + 1) as real == m + 1.0;
    assert (m + 1.0) * t == m * t + t;
  }

  /**
    In any run in which every call that reaches the provider fails, n calls starting within a window of
    length T are at most threshold, or their excess over it fits in T with more than a recovery time each.
   */
  lemma {:induction false} OutageCallRate(config: Config, run: seq<Attempt>, a: nat, b: nat, window: real)
    requires config.threshold >= 1 && config.recovery > 0.0 && Timed(run)
    requires AllRaise(Reached(config, INITIAL, run)) && a <= b < |Reached(config, INITIAL, run)|
    requires var calls := Reached(config, INITIAL, run); calls[b].start - calls[a].start <= window
    ensures var n := b - a + 1;
            && (n > config.threshold ==> Times(b - a + 1 - config.threshold, config.recovery) < window)
            && n <= config.threshold + (window / config.recovery).Floor
  {
    var calls := Reached(config, INITIAL, run);
    CallsAreTimed(config, run);
    CallsAreSpaced(config, run);
    SpacedCallRate(config, calls, a, b, window);
  }

  lemma {:induction false} SpacedCallRate(config: Config, calls: seq<Attempt>, a: nat, b: nat, window: real)
    requires config.threshold >= 1 && config.recovery > 0.0 && Timed(calls) && a <= b < |calls|
    requires Spaced(config, calls) && calls[b].start - calls[a].start <= window
    ensures b - a + 1 > config.threshold ==> Times(b - a + 1 - config.threshold, config.recovery) < window
    ensures b - a + 1 <= config.threshold + (window / config.recovery).Floor
  {
    ElapsedAtLeast(config, calls, a, b);
    var excess := b - a + 1 - config.threshold;
    assert excess == b - a - config.threshold + 1;
    FitsIn(excess, config.recovery, window);
  }

  lemma {:induction false} FitsIn(excess: int, recovery: real, window: real)
    requires recovery > 0.0 && window >= 0.0 && (excess > 0 ==> Times(excess, recovery) < window)
    ensures excess <= (window / recovery).Floor
  {
    var q := window / recovery;
    assert q * recovery == window;
    if q < 0.0 || (excess > 0 && q < excess as real) {
      Product(q, if excess > 0 then excess as real else 0.0, recovery);
      assert false;
    }
  }

  lemma {:induction false} Product(x: real, y: real, r: real)
    requires x < y && r > 0.0
    ensures x * r < y * r
  {
    assert (y - x) * r > 0.0;
  }
}
