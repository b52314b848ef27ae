/**
 * The rate limiter of pkg/apis/runtime_state.go: a buffer of the requests of the last minute, the
 * rate measured from it, and the backoff. Times are nanoseconds,
 * and 0 is Go's zero time.
 */
module RequestRateLimiter {
  import opened GoInt
  import opened RequestWindow
  import opened Escalation

  /** float64(n) / 60.0 */
  function PerSecond(round: real -> real, n: nat): real {
    round(n as real / 60.0)
  }

  /** The rate that a buffer of `n` entries measures at `now`, the log being known. */
  ghost function Measured(round: real -> real, n: nat, log: seq<int>, now: int): real {
    if n < 2 then 0.0 else PerSecond(round, Min(MAX_ENTRIES, CountSince(log, now - MINUTE + 1)))
  }

  /** No buffer measures more than a full one does. */
  lemma FullestIsFastest(round: real -> real, n: nat)
    requires Rounds(round) && n <= MAX_ENTRIES
    ensures 0.0 <= PerSecond(round, n) <= PerSecond(round, MAX_ENTRIES)
  {
    assert ExactAt(round, 0);
    assert 0.0 <= n as real / 60.0 <= MAX_ENTRIES as real / 60.0;
  }

  /** A full one measures 1000/60 as rounded, which is 17 at most. */
  lemma FullRate(round: real -> real)
    requires Rounds(round)
    ensures PerSecond(round, MAX_ENTRIES) <= 17.0
  {
    RoundedBelow(round, MAX_ENTRIES as real / 60.0, 17);
  }

  class APIRateLimiter {
    /** The machine's floating point. */
    const fp: Floats
    var requestsPerSecond: real
    var lastMeasurement: int
    var backoffUntil: int
    var successfulRequests: nat
    var failedRequests: nat
    var rateLimitHits: nat
    var maxRequestsPerSecond: real
    var backoffMultiplier: real
    var baseBackoffDuration: int
    var requestTimes: seq<int>
    /** Every request recorded since the last reset, and when the clock was last read. */
    ghost var log: seq<int>
    ghost var clock: int

    ghost predicate Valid()
      reads this
    {
      && Rounds(fp.round) && Converts(fp.convert)
      && Recorded(requestTimes, log, clock)
    }

    constructor (fp: Floats, now: int)
      requires Rounds(fp.round) && Converts(fp.convert)
      ensures this.fp == fp
      ensures Valid() && log == [] && clock == now
      ensures maxRequestsPerSecond == 50.0 && backoffMultiplier == 2.0 && baseBackoffDuration == 1_000_000_000
      ensures rateLimitHits == 0 && backoffUntil == 0
    {
      this.fp := fp;
      requestsPerSecond, lastMeasurement, backoffUntil := 0.0, 0, 0;
      successfulRequests, failedRequests, rateLimitHits := 0, 0, 0;
      maxRequestsPerSecond, backoffMultiplier, baseBackoffDuration := 50.0, 2.0, 1_000_000_000;
      requestTimes := [];
      log, clock := [], now;
    }

    /** recordRequest; with a clock that does not go back, the buffer stays exactly the window. */
    method RecordRequest(now: int)
      requires Valid() && now >= clock
      modifies this`requestTimes, this`log, this`clock
      ensures Valid()
      ensures log == old(log) + [now] && clock == now
    {
      requestTimes := Record(requestTimes, now, log, clock);
      log := log + [now];
      clock := now;
    }

    /**
     * updateRequestRate: a sixtieth of the requests strictly within the last minute, at most 1000
     * of them, unless fewer than two are buffered.
     */
    method UpdateRequestRate(now: int)
      requires Valid() && now >= clock
      modifies this`requestsPerSecond, this`lastMeasurement, this`clock
      ensures Valid() && clock == now && lastMeasurement == now
      ensures requestsPerSecond == Measured(fp.round, |requestTimes|, log, now)
      ensures requestsPerSecond <= PerSecond(fp.round, MAX_ENTRIES)
    {
      lastMeasurement := now;
      RecordedLater(requestTimes, log, clock, now);
      clock := now;
      if |requestTimes| < 2 {
        requestsPerSecond := 0.0;
        FullestIsFastest(fp.round, 0);
        return;
      }
      var recentRequests := CountAfter(requestTimes, now - MINUTE);
      RecentOfWindow(log, log[|log| - 1], now);
      requestsPerSecond := PerSecond(fp.round, recentRequests);
      FullestIsFastest(fp.round, recentRequests);
    }

    method TriggerBackoff(now: int)
      modifies this`rateLimitHits, this`backoffUntil
      ensures rateLimitHits == old(rateLimitHits) + 1
      ensures backoffUntil == now + Backoff(fp, baseBackoffDuration, backoffMultiplier, rateLimitHits)
    {
      rateLimitHits := rateLimitHits + 1;
      var duration := baseBackoffDuration;
      var i := 1;
      while i < rateLimitHits && i < 10
        invariant 1 <= i <= Min(rateLimitHits, 10)
        invariant Iterate(ScaleBy(fp, backoffMultiplier), duration, Min(rateLimitHits, 10) - i)
               == Escalated(fp, baseBackoffDuration, backoffMultiplier, Min(rateLimitHits, 10) - 1)
      {
        duration := Scale(fp, duration, backoffMultiplier);
        i := i + 1;
      }
      if duration > MAX_BACKOFF {
        duration := MAX_BACKOFF;
      }
      backoffUntil := now + duration;
    }

    /** The two steps that every recorded outcome shares. */
    method Measure(now: int, rateNow: int)
      requires Valid() && clock <= now <= rateNow
      modifies this`requestTimes, this`log, this`clock, this`requestsPerSecond, this`lastMeasurement
      ensures Valid() && log == old(log) + [now] && clock == rateNow
      ensures requestsPerSecond == Measured(fp.round, |requestTimes|, log, rateNow) && lastMeasurement == rateNow
      ensures requestsPerSecond <= PerSecond(fp.round, MAX_ENTRIES)
    {
      RecordRequest(now);
      UpdateRequestRate(rateNow);
    }

    method RecordSuccess(now: int, rateNow: int)
      requires Valid() && clock <= now <= rateNow
      modifies this`successfulRequests, this`requestTimes, this`log, this`clock,
               this`requestsPerSecond, this`lastMeasurement
      ensures Valid() && log == old(log) + [now] && clock == rateNow
      ensures requestsPerSecond == Measured(fp.round, |requestTimes|, log, rateNow) && lastMeasurement == rateNow
      ensures successfulRequests == old(successfulRequests) + 1
    {
      successfulRequests := successfulRequests + 1;
      Measure(now, rateNow);
    }

    /**
     * A failure backs off exactly when the measured rate is over the limit, which it never is when
     * the limit is no less than 1000/60 as rounded; the default is 50.
     */
    method RecordFailure(now: int, rateNow: int, backoffNow: int)
      requires Valid() && clock <= now <= rateNow <= backoffNow
      modifies this`failedRequests, this`requestTimes, this`log, this`clock,
               this`requestsPerSecond, this`lastMeasurement, this`rateLimitHits, this`backoffUntil
      ensures Valid() && log == old(log) + [now] && clock == backoffNow
      ensures requestsPerSecond == Measured(fp.round, |requestTimes|, log, rateNow) && lastMeasurement == rateNow
      ensures failedRequests == old(failedRequests) + 1
      ensures if requestsPerSecond > maxRequestsPerSecond then
                rateLimitHits == old(rateLimitHits) + 1
                && backoffUntil == backoffNow + Backoff(fp, baseBackoffDuration, backoffMultiplier, rateLimitHits)
              else rateLimitHits == old(rateLimitHits) && backoffUntil == old(backoffUntil)
      ensures maxRequestsPerSecond >= PerSecond(fp.round, MAX_ENTRIES) ==> requestsPerSecond <= maxRequestsPerSecond
    {
      failedRequests := failedRequests + 1;
      Measure(now, rateNow);
      BackOffIfOverLimit(backoffNow);
      RecordedLater(requestTimes, log, clock, backoffNow);
      clock := backoffNow;
    }

    method BackOffIfOverLimit(now: int)
      modifies this`rateLimitHits, this`backoffUntil
      ensures if requestsPerSecond > maxRequestsPerSecond then
                rateLimitHits == old(rateLimitHits) + 1
                && backoffUntil == now + Backoff(fp, baseBackoffDuration, backoffMultiplier, rateLimitHits)
              else rateLimitHits == old(rateLimitHits) && backoffUntil == old(backoffUntil)
    {
      if requestsPerSecond > maxRequestsPerSecond {
        TriggerBackoff(now);
      }
    }

    method Reset(now: int)
      requires Valid() && now >= clock
      modifies this
      ensures Valid() && log == [] && requestTimes == [] && clock == now
      ensures requestsPerSecond == 0.0 && backoffUntil == 0 && lastMeasurement == now
      ensures successfulRequests == failedRequests == rateLimitHits == 0
      ensures maxRequestsPerSecond == old(maxRequestsPerSecond)
      ensures backoffMultiplier == old(backoffMultiplier) && baseBackoffDuration == old(baseBackoffDuration)
    {
      requestsPerSecond := 0.0;
      successfulRequests, failedRequests, rateLimitHits := 0, 0, 0;
      backoffUntil := 0;
      requestTimes := [];
      lastMeasurement := now;
      log, clock := [], now;
    }
  }
}
