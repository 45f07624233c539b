/** The pieces the three batch modules share: the counter of model calls in
    flight with its peak, the requests-per-second limiter, and the retry
    loop with exponential back-off. Each module declares its own copy of
    these; they are modelled once here. The clock, the random jitter and
    the outcome of each call are inputs. */
module Throttle {
  import opened Wrappers
  import opened Text

  // ------------------------------------------------- in-flight counter

  /** What the counter is told: a call starts, a call ends, or the
      tracking is reset before a run. */
  datatype Event = Start | End | Reset

  /** The counter's two values. */
  datatype Gauge = Gauge(current: int, peak: int)

  /** One event: a start raises the peak to the new count if it exceeds it;
      an end only lowers the count; a reset zeroes both. */
  function Step(g: Gauge, e: Event): (r: Gauge)
    ensures e == Start ==> r.current == g.current + 1 && r.peak >= r.current && r.peak >= g.peak
    ensures e == End ==> r.current == g.current - 1 && r.peak == g.peak
    ensures e == Reset ==> r == Gauge(0, 0)
  {
    match e
    case Start => Gauge(g.current + 1, if g.current + 1 > g.peak then g.current + 1 else g.peak)
    case End => Gauge(g.current - 1, g.peak)
    case Reset => Gauge(0, 0)
  }

  function Run(g: Gauge, es: seq<Event>): Gauge
    decreases |es|
  {
    if es == [] then g else Step(Run(g, es[..|es| - 1]), es[|es| - 1])
  }

  /** The number of starts minus the number of ends. */
  function Opened(es: seq<Event>): int
    decreases |es|
  {
    if es == [] then 0
    else Opened(es[..|es| - 1]) + (match es[|es| - 1] case Start => 1 case End => -1 case Reset => 0)
  }

  /** The peak is never below the current count: it holds after a reset and
      every event keeps it. */
  lemma {:induction false} RunPeakCovers(g: Gauge, es: seq<Event>)
    requires g.peak >= g.current
    ensures Run(g, es).peak >= Run(g, es).current
    decreases |es|
  {
    if es != [] {
      RunPeakCovers(g, es[..|es| - 1]);
    }
  }

  /** Without a reset, the count moves by the number of starts minus the
      number of ends, and the peak never drops. */
  lemma {:induction false} RunCurrent(g: Gauge, es: seq<Event>)
    requires Reset !in es
    ensures Run(g, es).current == g.current + Opened(es)
    ensures Run(g, es).peak >= g.peak
    decreases |es|
  {
    if es != [] {
      assert es == es[..|es| - 1] + [es[|es| - 1]];
      RunCurrent(g, es[..|es| - 1]);
    }
  }

  lemma RunAppend(g: Gauge, a: seq<Event>, b: seq<Event>)
    ensures Run(g, a + b) == Run(Run(g, a), b)
    decreases |b|
  {
    if b == [] {
      assert a + b == a;
    } else {
      assert (a + b)[..|a + b| - 1] == a + b[..|b| - 1];
      assert (a + b)[|a + b| - 1] == b[|b| - 1];
      RunAppend(g, a, b[..|b| - 1]);
    }
  }

  /** The in-flight tracking state of one module (its module-level
      globals). */
  class InflightCounter {
    var current: int
    var peak: int

    function State(): Gauge
      reads this
    {
      Gauge(current, peak)
    }

    constructor()
      ensures State() == Gauge(0, 0)
    {
      current := 0;
      peak := 0;
    }

    /** `_track_inflight_start`. */
    method TrackStart()
      modifies this
      ensures State() == Step(old(State()), Start)
    {
      current := current + 1;
      if current > peak {
        peak := current;
      }
    }

    /** `_track_inflight_end`. */
    method TrackEnd()
      modifies this
      ensures State() == Step(old(State()), End)
    {
      current := current - 1;
    }

    /** `reset_inflight_tracking`. */
    method ResetTracking()
      modifies this
      ensures State() == Step(old(State()), Reset)
    {
      current := 0;
      peak := 0;
    }

    /** Feeds the events of a run, in order. */
    method Track(es: seq<Event>)
      modifies this
      ensures State() == Run(old(State()), es)
    {
      var i := 0;
      while i < |es|
        invariant 0 <= i <= |es|
        invariant State() == Run(old(State()), es[..i])
      {
        assert es[..i + 1][..i] == es[..i];
        if es[i] == Start {
          TrackStart();
        } else if es[i] == End {
          TrackEnd();
        } else {
          ResetTracking();
        }
        i := i + 1;
      }
      assert es[..i] == es;
    }
  }

  // ---------------------------------------------------------- limiter

  /** `1.0 / max(qps, 0.01)`. */
  function MinInterval(qps: real): (r: real)
    ensures 0.0 < r <= 100.0
    ensures qps >= 0.01 ==> r * qps == 1.0
    ensures qps <= 0.01 ==> r == 100.0
  {
    var q := if qps > 0.01 then qps else 0.01;
    1.0 / q
  }

  /** How long `acquire` sleeps: the part of the interval not yet elapsed. */
  function Wait(minInterval: real, last: real, now: real): real {
    minInterval - (now - last)
  }

  /** The clock readings around one `acquire`: time does not go back, and a
      sleep lasts at least as long as asked. */
  predicate ClockAdvances(minInterval: real, last: real, now: real, after: real) {
    after >= now && (Wait(minInterval, last, now) > 0.0 ==> after >= now + Wait(minInterval, last, now))
  }

  class RateLimiter {
    const minInterval: real
    var last: real

    constructor(qps: real)
      ensures minInterval == MinInterval(qps) && last == 0.0
    {
      minInterval := MinInterval(qps);
      last := 0.0;
    }

    /** `acquire` with the clock read at `now` on entry and at `after` once
      any sleep is over; the grant time is the second reading. */
    method Acquire(now: real, after: real) returns (slept: real)
      requires ClockAdvances(minInterval, last, now, after)
      modifies this
      ensures slept == (if Wait(minInterval, old(last), now) > 0.0 then Wait(minInterval, old(last), now) else 0.0)
      ensures last == after
      ensures last - old(last) >= minInterval
    {
      var wait := minInterval - (now - last);
      slept := if wait > 0.0 then wait else 0.0;
      last := after;
    }
  }

  /** Successive grants at least `m` apart: any two are at least `m` times
      their distance in the sequence apart, so no window admits more than
      the configured rate. */
  lemma {:induction false} GrantsSpaced(grants: seq<real>, m: real, i: nat, j: nat)
    requires forall k :: 0 <= k < |grants| - 1 ==> grants[k + 1] - grants[k] >= m
    requires i <= j < |grants|
    ensures grants[j] - grants[i] >= (j - i) as real * m
    decreases j - i
  {
    if i < j {
      GrantsSpaced(grants, m, i, j - 1);
      assert grants[j] - grants[j - 1] >= m;
    }
  }

  // ------------------------------------------------------------ retry

  /** The outcome of one call: a value, a timeout, or an exception with its
      message. */
  datatype Attempt<T> = Success(value: T) | TimedOut | Raised(message: string)

  /** What the retry loop ends with: the first value if any call succeeded,
      the message of the last failure, the number of calls made and the
      back-off sleeps taken. */
  datatype Retried<T> = Retried(value: Option<T>, lastError: Option<string>, attempts: nat, sleeps: seq<real>)

  /** `range(retries + 1)` has this many rounds. */
  function Rounds(retries: int): nat {
    if retries + 1 > 0 then retries + 1 else 0
  }

  function Pow2(k: nat): (r: real)
    ensures r >= 1.0
  {
    if k == 0 then 1.0 else 2.0 * Pow2(k - 1)
  }

  /** The first successful call among the first `n`. */
  function FirstSuccess<T>(tries: seq<Attempt<T>>, n: nat): (r: Option<nat>)
    requires n <= |tries|
    ensures r.Some? ==> r.value < n && tries[r.value].Success? && forall j :: 0 <= j < r.value ==> !tries[j].Success?
    ensures r.None? ==> forall j :: 0 <= j < n ==> !tries[j].Success?
    decreases n
  {
    if n == 0 then None
    else
      var r := FirstSuccess(tries, n - 1);
      if r.Some? then r else if tries[n - 1].Success? then Some(n - 1) else None
  }

  /** The message kept for a failed call. */
  function FailureMessage<T>(a: Attempt<T>, k: nat, timeoutS: int, retries: int): string {
    match a
    case Raised(m) => m
    case _ => "Timeout après " + IntToString(timeoutS) + "s (tentative " + NatToString(k + 1) + "/" + IntToString(retries + 1) + ")"
  }

  /** The back-off sleep after the `k`-th failed call: the doubled delay plus
      a jitter drawn in [0, delay / 4], given as a fraction of that bound. */
  function Sleep(backoff: real, fraction: real, k: nat): real {
    backoff * Pow2(k) + fraction * (backoff * Pow2(k) / 4.0)
  }

  function Sleeps(backoff: real, fractions: seq<real>, m: nat): (s: seq<real>)
    requires m <= |fractions|
    ensures |s| == m
    ensures forall k :: 0 <= k < m ==> s[k] == Sleep(backoff, fractions[k], k)
  {
    seq(m, k requires 0 <= k < m => Sleep(backoff, fractions[k], k))
  }

  /** After `failed` failed calls, the loop has slept after each of them but
      one made in the last round. */
  function SleepCount(failed: nat, retries: int): nat {
    if failed < retries then failed else if retries > 0 then retries else 0
  }

  /** The retry loop: calls until one succeeds or the rounds run out,
      sleeping after each failure except in the last round. */
  function RetrySpec<T>(tries: seq<Attempt<T>>, retries: int, backoff: real, timeoutS: int, fractions: seq<real>): Retried<T>
    requires Rounds(retries) <= |tries| && Rounds(retries) <= |fractions| + 1
  {
    var n := Rounds(retries);
    var first := FirstSuccess(tries, n);
    var failed := if first.Some? then first.value else n;
    Retried(
      if first.Some? then Some(tries[first.value].value) else None,
      if failed > 0 then Some(FailureMessage(tries[failed - 1], failed - 1, timeoutS, retries)) else None,
      if first.Some? then first.value + 1 else n,
      Sleeps(backoff, fractions, SleepCount(failed, retries)))
  }

  method Retry<T>(tries: seq<Attempt<T>>, retries: int, backoff: real, timeoutS: int, fractions: seq<real>)
    returns (r: Retried<T>)
    requires Rounds(retries) <= |tries| && Rounds(retries) <= |fractions| + 1
    ensures r == RetrySpec(tries, retries, backoff, timeoutS, fractions)
  {
    var delay := backoff;
    var lastErr: Option<string> := None;
    var sleeps: seq<real> := [];
    var attempt := 0;
    while attempt < retries + 1
      invariant 0 <= attempt <= Rounds(retries)
      invariant FirstSuccess(tries, attempt).None?
      invariant delay == backoff * Pow2(SleepCount(attempt, retries))
      invariant sleeps == Sleeps(backoff, fractions, SleepCount(attempt, retries))
      invariant lastErr == if attempt > 0 then Some(FailureMessage(tries[attempt - 1], attempt - 1, timeoutS, retries)) else None
    {
      if tries[attempt].Success? {
        assert FirstSuccess(tries, Rounds(retries)) == Some(attempt) by {
          FirstSuccessExtends(tries, attempt + 1, Rounds(retries));
        }
        return Retried(Some(tries[attempt].value), lastErr, attempt + 1, sleeps);
      }
      lastErr := Some(FailureMessage(tries[attempt], attempt, timeoutS, retries));
      if attempt < retries {
        assert Sleeps(backoff, fractions, attempt + 1) == Sleeps(backoff, fractions, attempt) + [Sleep(backoff, fractions[attempt], attempt)];
        assert SleepCount(attempt, retries) == attempt && SleepCount(attempt + 1, retries) == attempt + 1;
        assert delay + fractions[attempt] * (delay / 4.0) == Sleep(backoff, fractions[attempt], attempt);
        sleeps := sleeps + [delay + fractions[attempt] * (delay / 4.0)];
        assert backoff * Pow2(attempt + 1) == (backoff * Pow2(attempt)) * 2.0;
        delay := delay * 2.0;
      }
      attempt := attempt + 1;
    }
    assert attempt == Rounds(retries);
    return Retried(None, lastErr, attempt, sleeps);
  }

  /** A first success stays the first success when more calls are counted. */
  lemma {:induction false} FirstSuccessExtends<T>(tries: seq<Attempt<T>>, n: nat, m: nat)
    requires n <= m <= |tries| && FirstSuccess(tries, n).Some?
    ensures FirstSuccess(tries, m) == FirstSuccess(tries, n)
    decreases m - n
  {
    if n < m {
      FirstSuccessExtends(tries, n, m - 1);
    }
  }

  /** The retry loop makes at most `retries + 1` calls; a success is
      returned unchanged from the first call that succeeds; when every call
      fails it has made all of them, slept `retries` times (the `k`-th sleep
      between `backoff * 2^k` and `1.25 * backoff * 2^k`), and reports the
      last call's failure. */
  lemma RetryProperties<T>(tries: seq<Attempt<T>>, retries: int, backoff: real, timeoutS: int, fractions: seq<real>)
    requires Rounds(retries) <= |tries| && Rounds(retries) <= |fractions| + 1
    requires backoff >= 0.0 && forall k :: 0 <= k < |fractions| ==> 0.0 <= fractions[k] <= 1.0
    ensures var r := RetrySpec(tries, retries, backoff, timeoutS, fractions);
      && r.attempts <= Rounds(retries)
      && (r.value.Some? ==> 1 <= r.attempts && tries[r.attempts - 1] == Success(r.value.value)
                            && forall j :: 0 <= j < r.attempts - 1 ==> !tries[j].Success?)
      && (r.value.None? ==> r.attempts == Rounds(retries) && forall j :: 0 <= j < Rounds(retries) ==> !tries[j].Success?)
      && (r.value.None? && retries >= 0 ==>
            |r.sleeps| == retries
            && r.lastError == Some(FailureMessage(tries[retries], retries, timeoutS, retries)))
      && (forall k :: 0 <= k < |r.sleeps| ==>
            backoff * Pow2(k) <= r.sleeps[k] <= 1.25 * (backoff * Pow2(k)))
  {
    var r := RetrySpec(tries, retries, backoff, timeoutS, fractions);
    forall k | 0 <= k < |r.sleeps|
      ensures backoff * Pow2(k) <= r.sleeps[k] <= 1.25 * (backoff * Pow2(k))
    {
      SleepBounds(backoff, fractions[k], k);
    }
  }

  lemma SleepBounds(backoff: real, fraction: real, k: nat)
    requires backoff >= 0.0 && 0.0 <= fraction <= 1.0
    ensures backoff * Pow2(k) <= Sleep(backoff, fraction, k) <= 1.25 * (backoff * Pow2(k))
  {
    var d := backoff * Pow2(k);
    assert d >= 0.0;
    assert 0.0 <= fraction * (d / 4.0) <= d / 4.0 by {
      assert (1.0 - fraction) * (d / 4.0) >= 0.0;
    }
  }

  /** Calls in flight are counted in pairs: every call of the retry loop
      starts and ends once. */
  function PairedEvents(attempts: nat): (es: seq<Event>)
    ensures |es| == 2 * attempts
    ensures Reset !in es
    ensures Opened(es) == 0
  {
    if attempts == 0 then []
    else
      var init := PairedEvents(attempts - 1);
      var es := init + [Start, End];
      assert es[..|es| - 1] == init + [Start];
      assert (init + [Start])[..|init|] == init;
      es
  }

  /** A run of paired calls leaves the count where it was; the peak covers
      it throughout. */
  lemma PairedRunBalanced(g: Gauge, attempts: nat)
    requires g.peak >= g.current
    ensures Run(g, PairedEvents(attempts)).current == g.current
    ensures Run(g, PairedEvents(attempts)).peak >= g.peak
    ensures Run(g, PairedEvents(attempts)).peak >= Run(g, PairedEvents(attempts)).current
  {
    RunCurrent(g, PairedEvents(attempts));
    RunPeakCovers(g, PairedEvents(attempts));
  }

  /** The scripted outcomes of one item's calls, and the jitter fractions
      drawn between them. */
  datatype Script<T> = Script(tries: seq<Attempt<T>>, jitter: seq<real>)

  /** The script is long enough for every round the loop may run. */
  predicate Covers<T>(s: Script<T>, retries: int) {
    Rounds(retries) <= |s.tries| && Rounds(retries) <= |s.jitter| + 1
  }

  function RetryScript<T>(s: Script<T>, retries: int, backoff: real, timeoutS: int): Retried<T>
    requires Covers(s, retries)
  {
    RetrySpec(s.tries, retries, backoff, timeoutS, s.jitter)
  }
}
