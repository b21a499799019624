/** The token-bucket rate limiter of the scanner's utilities, with its
    latency-adaptive and per-host variants. Time is a real number of seconds
    handed in by the caller (`now`); rates are tokens per second. */
module RateLimiting {

  /** Go's conversion of a float64 to int: truncation toward zero. */
  function Trunc(x: real): (r: int)
    ensures x >= 0.0 ==> 0 <= r && r as real <= x < r as real + 1.0
    ensures x < 0.0 ==> r <= 0 && r as real - 1.0 < x <= r as real
  {
    if x >= 0.0 then x.Floor else -((-x).Floor)
  }

  /** Go's integer division of a `time.Duration`: truncation toward zero. */
  function GoDiv(a: int, b: int): (q: int)
    requires b > 0
    ensures var rem := a - q * b; -b < rem < b
    ensures var rem := a - q * b; (a >= 0 ==> rem >= 0) && (a < 0 ==> rem <= 0)
  {
    if a >= 0 then a / b else -((-a) / b)
  }

  /** The rate a new limiter gets: non-positive rates become 10 per second. */
  function InitialRate(ratePerSecond: real): (r: real)
    ensures r > 0.0
    ensures ratePerSecond > 0.0 ==> r == ratePerSecond
  {
    if ratePerSecond <= 0.0 then 10.0 else ratePerSecond
  }

  /** The burst a new limiter gets: a non-positive burst becomes int(rate). */
  function InitialBurst(ratePerSecond: real, burst: int): (b: int)
    ensures b >= 0
    ensures burst > 0 ==> b == burst
    ensures burst <= 0 ==> b == InitialRate(ratePerSecond).Floor
  {
    if burst <= 0 then Trunc(InitialRate(ratePerSecond)) else burst
  }

  /** The lazy refill every access performs: `elapsed * rate` tokens are added
      and the result is clamped to `burst`. */
  function Refill(tokens: real, elapsed: real, rate: real, burst: int): (r: real)
    ensures r <= burst as real
    ensures r <= tokens + elapsed * rate
    ensures r == tokens + elapsed * rate || r == burst as real
  {
    var t := tokens + elapsed * rate;
    if t > burst as real then burst as real else t
  }

  /** The all-or-nothing debit of `n` tokens that `Allow` (n = 1) and `AllowN`
      perform after the refill: the whole amount or nothing. */
  function Debit(tokens: real, n: int): (r: (real, bool))
    ensures r.1 <==> tokens >= n as real
    ensures r.1 ==> r.0 == tokens - n as real
    ensures !r.1 ==> r.0 == tokens
  {
    if tokens >= n as real then (tokens - n as real, true) else (tokens, false)
  }

  /** A refill from inside the bucket stays inside it. */
  lemma RefillInBounds(tokens: real, elapsed: real, rate: real, burst: int)
    requires 0.0 <= tokens <= burst as real
    requires elapsed >= 0.0 && rate >= 0.0
    ensures 0.0 <= tokens <= Refill(tokens, elapsed, rate, burst) <= burst as real
  {
    assert elapsed * rate >= 0.0;
  }

  /** Laziness is sound: refilling after `e1` and then after `e2` is the same as
      one refill after `e1 + e2`. */
  lemma RefillComposes(tokens: real, e1: real, e2: real, rate: real, burst: int)
    requires e1 >= 0.0 && e2 >= 0.0 && rate >= 0.0
    requires tokens <= burst as real
    ensures Refill(Refill(tokens, e1, rate, burst), e2, rate, burst)
         == Refill(tokens, e1 + e2, rate, burst)
  {
    assert (e1 + e2) * rate == e1 * rate + e2 * rate;
    assert e2 * rate >= 0.0;
  }

  /** A debit of a non-negative amount from inside the bucket stays inside it. */
  lemma DebitInBounds(tokens: real, n: int, burst: int)
    requires 0.0 <= tokens <= burst as real && n >= 0
    ensures 0.0 <= Debit(tokens, n).0 <= tokens
  {
  }

  /** How many of `k` calls to `Allow` at one instant (no elapsed time) succeed,
      starting from `tokens`. */
  function InstantSuccesses(tokens: real, k: nat): (count: nat)
  {
    if k == 0 then 0
    else
      var (t, ok) := Debit(tokens, 1);
      (if ok then 1 else 0) + InstantSuccesses(t, k - 1)
  }

  /** Within one instant `Allow` succeeds at most `floor(tokens)` times, so never
      more than `burst` times. */
  lemma {:induction false} InstantSuccessesBounded(tokens: real, k: nat, burst: int)
    requires 0.0 <= tokens <= burst as real
    ensures InstantSuccesses(tokens, k) <= tokens.Floor <= burst
  {
    if k > 0 {
      var (t, ok) := Debit(tokens, 1);
      if ok {
        InstantSuccessesBounded(t, k - 1, burst);
        assert t.Floor == tokens.Floor - 1;
      } else {
        InstantSuccessesBounded(t, k - 1, burst);
      }
    }
  }

  /** When no token is left, `Reserve` answers the time until one token would
      have accrued: (1 - tokens) / rate seconds after the access. */
  function ReserveWait(tokens: real, rate: real): (wait: real)
    requires rate > 0.0
    ensures tokens >= 1.0 ==> wait == 0.0
    ensures tokens < 1.0 ==> wait > 0.0 && tokens + wait * rate == 1.0
  {
    if tokens >= 1.0 then 0.0 else (1.0 - tokens) / rate
  }

  /** `Reserve` empties the bucket instead of booking the token: the refill the
      returned wait buys brings the bucket back to 1 - tokens, not to zero. */
  lemma ReserveRefillAfterWait(tokens: real, rate: real, burst: int)
    requires rate > 0.0 && 0.0 <= tokens < 1.0 && burst >= 1
    ensures Refill(0.0, ReserveWait(tokens, rate), rate, burst) == 1.0 - tokens
  {
    var w := ReserveWait(tokens, rate);
    assert w * rate == 1.0 - tokens;
  }

  class RateLimiter {
    var rate: real
    var burst: int
    var tokens: real
    var lastUpdate: real

    /** The bucket invariant: 0 <= tokens <= burst, under a non-negative rate. */
    ghost predicate Valid()
      reads this
    {
      0.0 <= rate && 0.0 <= tokens <= burst as real
    }

    /** `NewRateLimiter`: defaulted rate and burst, and a full bucket. */
    constructor (ratePerSecond: real, burstSize: int, now: real)
      ensures Valid()
      ensures rate == InitialRate(ratePerSecond)
      ensures burst == InitialBurst(ratePerSecond, burstSize)
      ensures tokens == burst as real && lastUpdate == now
    {
      rate := InitialRate(ratePerSecond);
      burst := InitialBurst(ratePerSecond, burstSize);
      tokens := InitialBurst(ratePerSecond, burstSize) as real;
      lastUpdate := now;
    }

    /** `Allow`: refill, then take one token if there is one. */
    method Allow(now: real) returns (ok: bool)
      requires Valid() && now >= lastUpdate
      modifies this
      ensures Valid()
      ensures var t := Refill(old(tokens), now - old(lastUpdate), rate, burst);
              ok == (t >= 1.0) && tokens == (if ok then t - 1.0 else t)
      ensures rate == old(rate) && burst == old(burst) && lastUpdate == now
    {
      RefillInBounds(tokens, now - lastUpdate, rate, burst);
      tokens := Refill(tokens, now - lastUpdate, rate, burst);
      lastUpdate := now;
      if tokens >= 1.0 {
        tokens := tokens - 1.0;
        ok := true;
      } else {
        ok := false;
      }
    }

    /** `AllowN`: refill, then take `n` tokens or none. A negative `n` always
        succeeds and adds tokens, so the bucket invariant is kept only for
        `n >= 0`. */
    method AllowN(n: int, now: real) returns (ok: bool)
      requires Valid() && now >= lastUpdate
      modifies this
      ensures n >= 0 ==> Valid()
      ensures var t := Refill(old(tokens), now - old(lastUpdate), rate, burst);
              (tokens, ok) == Debit(t, n)
      ensures rate == old(rate) && burst == old(burst) && lastUpdate == now
    {
      RefillInBounds(tokens, now - lastUpdate, rate, burst);
      tokens := Refill(tokens, now - lastUpdate, rate, burst);
      lastUpdate := now;
      if tokens >= n as real {
        tokens := tokens - n as real;
        ok := true;
      } else {
        ok := false;
      }
    }

    /** `Reserve`: a token now (wait 0), or the wait until one accrues, with
        the bucket emptied. */
    method Reserve(now: real) returns (wait: real)
      requires Valid() && now >= lastUpdate && rate > 0.0
      modifies this
      ensures Valid()
      ensures rate == old(rate) && burst == old(burst) && lastUpdate == now
      ensures var t := Refill(old(tokens), now - old(lastUpdate), rate, burst);
              wait == ReserveWait(t, rate) && tokens == (if t >= 1.0 then t - 1.0 else 0.0)
    {
      RefillInBounds(tokens, now - lastUpdate, rate, burst);
      tokens := Refill(tokens, now - lastUpdate, rate, burst);
      lastUpdate := now;
      if tokens >= 1.0 {
        tokens := tokens - 1.0;
        wait := 0.0;
      } else {
        wait := (1.0 - tokens) / rate;
        tokens := 0.0;
      }
    }

    /** `SetRate` changes the rate and nothing else; a negative rate leaves the
        bucket invariant. */
    method SetRate(ratePerSecond: real)
      modifies this
      ensures rate == ratePerSecond
      ensures burst == old(burst) && tokens == old(tokens) && lastUpdate == old(lastUpdate)
      ensures old(Valid()) ==> (Valid() <==> ratePerSecond >= 0.0)
    {
      rate := ratePerSecond;
    }

    /** `SetBurst` changes the burst and clamps the tokens down to it; the rate
        is unchanged. A negative burst leaves the bucket invariant. */
    method SetBurst(burstSize: int)
      modifies this
      ensures burst == burstSize
      ensures tokens == if old(tokens) > burstSize as real then burstSize as real else old(tokens)
      ensures rate == old(rate) && lastUpdate == old(lastUpdate)
      ensures old(Valid()) ==> (Valid() <==> burstSize >= 0)
    {
      burst := burstSize;
      if tokens > burstSize as real {
        tokens := burstSize as real;
      }
    }
  }

  /** The sum of a sequence of durations. */
  function Sum(s: seq<int>): int
  {
    if s == [] then 0 else Sum(s[..|s| - 1]) + s[|s| - 1]
  }

  /** The sample window after recording `latency`: appended, and the oldest
      sample dropped once the window holds more than `maxSamples`. */
  function Window(samples: seq<int>, latency: int, maxSamples: nat): (w: seq<int>)
    requires maxSamples > 0
    ensures |samples| <= maxSamples ==> |w| <= maxSamples
    ensures |w| >= 1 && w[|w| - 1] == latency
    ensures |samples| + 1 > maxSamples ==> w == samples[1..] + [latency]
    ensures |samples| + 1 <= maxSamples ==> w == samples + [latency]
  {
    var s := samples + [latency];
    if |s| > maxSamples then s[1..] else s
  }

  /** The rate after an adjustment to the mean latency `avg`. */
  function AdjustedRate(rate: real, avg: int, target: int, minRate: real, maxRate: real): real
  {
    if avg > target * 2 then
      (if rate * 0.5 < minRate then minRate else rate * 0.5)
    else if avg > target then
      (if rate * 0.8 < minRate then minRate else rate * 0.8)
    else if avg < GoDiv(target, 2) then
      (if rate * 1.2 > maxRate then maxRate else rate * 1.2)
    else rate
  }

  /** A rate within [minRate, maxRate] stays there after any adjustment. */
  lemma AdjustedRateInBand(rate: real, avg: int, target: int, minRate: real, maxRate: real)
    requires 0.0 <= minRate <= rate <= maxRate
    ensures minRate <= AdjustedRate(rate, avg, target, minRate, maxRate) <= maxRate
  {
  }

  /** High latency never speeds up, low latency never slows down, and the band
      in between leaves the rate alone. */
  lemma AdjustedRateDirection(rate: real, avg: int, target: int, minRate: real, maxRate: real)
    requires 0.0 <= minRate <= rate <= maxRate && target >= 0
    ensures avg > target ==> AdjustedRate(rate, avg, target, minRate, maxRate) <= rate
    ensures avg < GoDiv(target, 2) ==> AdjustedRate(rate, avg, target, minRate, maxRate) >= rate
    ensures GoDiv(target, 2) <= avg <= target ==> AdjustedRate(rate, avg, target, minRate, maxRate) == rate
  {
  }

  class AdaptiveRateLimiter {
    const limiter: RateLimiter
    const minRate: real
    const maxRate: real
    const targetLatency: int
    const maxSamples: nat
    var samples: seq<int>

    ghost predicate Valid()
      reads this
    {
      maxSamples == 100 && |samples| <= maxSamples
    }

    /** `NewAdaptiveRateLimiter`: a limiter at the initial rate, burst int(rate). */
    constructor (initialRate: real, minR: real, maxR: real, target: int, now: real)
      ensures Valid() && fresh(limiter) && limiter.Valid()
      ensures samples == [] && minRate == minR && maxRate == maxR && targetLatency == target
      ensures limiter.rate == InitialRate(initialRate)
      ensures limiter.burst == InitialBurst(initialRate, Trunc(initialRate))
    {
      limiter := new RateLimiter(initialRate, Trunc(initialRate), now);
      minRate, maxRate, targetLatency := minR, maxR, target;
      maxSamples := 100;
      samples := [];
    }

    /** `averageLatency`: the truncated mean of the window, 0 when empty. */
    method AverageLatency() returns (avg: int)
      ensures samples == [] ==> avg == 0
      ensures samples != [] ==> avg == GoDiv(Sum(samples), |samples|)
    {
      if |samples| == 0 {
        return 0;
      }
      var total := 0;
      for i := 0 to |samples|
        invariant total == Sum(samples[..i])
      {
        assert samples[..i + 1][..i] == samples[..i];
        total := total + samples[i];
      }
      assert samples[..|samples|] == samples;
      avg := GoDiv(total, |samples|);
    }

    /** `adjustRate`: sets the limiter's rate from the mean latency. */
    method AdjustRate(avg: int)
      modifies limiter
      ensures limiter.rate == AdjustedRate(old(limiter.rate), avg, targetLatency, minRate, maxRate)
      ensures limiter.burst == old(limiter.burst) && limiter.tokens == old(limiter.tokens)
      ensures limiter.lastUpdate == old(limiter.lastUpdate)
    {
      var current := limiter.rate;
      if avg > targetLatency * 2 {
        var newRate := current * 0.5;
        if newRate < minRate { newRate := minRate; }
        limiter.SetRate(newRate);
      } else if avg > targetLatency {
        var newRate := current * 0.8;
        if newRate < minRate { newRate := minRate; }
        limiter.SetRate(newRate);
      } else if avg < GoDiv(targetLatency, 2) {
        var newRate := current * 1.2;
        if newRate > maxRate { newRate := maxRate; }
        limiter.SetRate(newRate);
      }
    }

    /** `RecordLatency`: slide the window; with at least 10 samples, adjust the
        rate to their mean. */
    method RecordLatency(latency: int)
      requires Valid()
      modifies this, limiter
      ensures Valid()
      ensures samples == Window(old(samples), latency, maxSamples)
      ensures |samples| < 10 ==> limiter.rate == old(limiter.rate)
      ensures |samples| >= 10 ==>
        limiter.rate == AdjustedRate(old(limiter.rate), GoDiv(Sum(samples), |samples|),
                                     targetLatency, minRate, maxRate)
      ensures limiter.burst == old(limiter.burst) && limiter.tokens == old(limiter.tokens)
      ensures limiter.lastUpdate == old(limiter.lastUpdate)
    {
      samples := samples + [latency];
      if |samples| > maxSamples {
        samples := samples[1..];
      }
      if |samples| >= 10 {
        var avg := AverageLatency();
        AdjustRate(avg);
      }
    }
  }

  class PerHostRateLimiter {
    var limiters: map<string, RateLimiter>
    const rate: real
    const burst: int

    /** `NewPerHostRateLimiter`: no limiter yet. */
    constructor (ratePerHost: real, burstPerHost: int)
      ensures limiters == map[] && rate == ratePerHost && burst == burstPerHost
    {
      limiters := map[];
      rate, burst := ratePerHost, burstPerHost;
    }

    /** `getLimiter`: the host's existing limiter, or exactly one new one with the
        configured rate and burst; other hosts' entries are untouched. */
    method GetLimiter(host: string, now: real) returns (l: RateLimiter)
      modifies this
      ensures host in old(limiters) ==> l == old(limiters)[host] && limiters == old(limiters)
      ensures host !in old(limiters) ==>
        fresh(l) && limiters == old(limiters)[host := l] && l.Valid()
        && l.rate == InitialRate(rate) && l.burst == InitialBurst(rate, burst)
        && l.tokens == l.burst as real
    {
      if host in limiters {
        return limiters[host];
      }
      l := new RateLimiter(rate, burst, now);
      limiters := limiters[host := l];
    }
  }
}
