/** The distributed token bucket that every crawl worker shares, one Redis key per domain. */
module TokenBucket {
  import opened Wrappers

  /** The hash stored under one key, with the instant at which Redis drops it. */
  datatype Bucket = Bucket(tokens: real, ts: real, expiresAt: real)

  /** One call of the script: the clock of the calling worker and the clock of the Redis server. */
  datatype Call = Call(now: real, redisNow: real)

  datatype Answer = Answer(allowed: bool, wait: real)

  predicate Sane(rate: real, burst: real) {
    rate > 0.0 && burst >= 1.0
  }

  function Min(a: real, b: real): real {
    if a <= b then a else b
  }

  function Ceil(x: real): int {
    -((-x).Floor)
  }

  /** Idle seconds after which a key expires. */
  function Ttl(rate: real, burst: real): real
    requires Sane(rate, burst)
  {
    (Ceil(burst / rate) + 60) as real
  }

  /** What a read at server time `redisNow` returns: an expired key reads as missing. */
  function Visible(key: Option<Bucket>, redisNow: real): Option<Bucket> {
    if key.Some? && redisNow < key.value.expiresAt then key else None
  }

  /** Tokens that `elapsed` seconds are worth; negative when a clock runs backwards. */
  function Gain(rate: real, elapsed: real): real {
    elapsed * rate
  }

  lemma GainAdds(rate: real, a: real, b: real)
    ensures Gain(rate, a + b) == Gain(rate, a) + Gain(rate, b)
    ensures Gain(rate, 0.0) == 0.0
  {
  }

  lemma GainOrder(rate: real, a: real, b: real)
    requires rate > 0.0
    ensures a <= b <==> Gain(rate, a) <= Gain(rate, b)
    ensures Gain(rate, 0.0) == 0.0
  {
    if a <= b {
      assert (b - a) * rate >= 0.0;
    } else {
      assert (a - b) * rate > 0.0;
    }
  }

  /** The time `tokens` take to come back. */
  lemma GainInverse(rate: real, tokens: real)
    requires rate > 0.0
    ensures Gain(rate, tokens / rate) == tokens
    ensures tokens > 0.0 <==> tokens / rate > 0.0
  {
  }

  /** Tokens after the refill, before any is taken. */
  function Refilled(seen: Option<Bucket>, rate: real, burst: real, now: real): real {
    if seen.None? then burst else Min(burst, seen.value.tokens + Gain(rate, now - seen.value.ts))
  }

  function Ask(seen: Option<Bucket>, rate: real, burst: real, now: real): Answer
    requires Sane(rate, burst)
  {
    var tokens := Refilled(seen, rate, burst, now);
    if tokens >= 1.0 then Answer(true, 0.0) else Answer(false, (1.0 - tokens) / rate)
  }

  function Written(seen: Option<Bucket>, rate: real, burst: real, call: Call): Bucket
    requires Sane(rate, burst)
  {
    var tokens := Refilled(seen, rate, burst, call.now);
    Bucket(if tokens >= 1.0 then tokens - 1.0 else tokens, call.now, call.redisNow + Ttl(rate, burst))
  }

  class DomainRateLimiter {
    var buckets: map<string, Bucket>

    constructor ()
      ensures buckets == map[]
    {
      buckets := map[];
    }

    function Key(domain: string): Option<Bucket>
      reads this
    {
      if domain in buckets then Some(buckets[domain]) else None
    }

    /** The Lua script: refill, take a token when there is one, write back, renew the expiry. */
    method Acquire(domain: string, rate: real, burst: real, call: Call) returns (answer: Answer)
      requires Sane(rate, burst)
      modifies this
      ensures answer == Ask(Visible(old(Key(domain)), call.redisNow), rate, burst, call.now)
      ensures buckets == old(buckets)[domain := Written(Visible(old(Key(domain)), call.redisNow), rate, burst, call)]
      ensures buckets[domain].ts == call.now
      ensures burst / rate + 60.0 <= buckets[domain].expiresAt - call.redisNow < burst / rate + 61.0
    {
      TtlCoversRefill(rate, burst);
      var tokens, ts := burst, call.now;
      GainAdds(rate, 0.0, 0.0);
      if domain in buckets && call.redisNow < buckets[domain].expiresAt {
        tokens, ts := buckets[domain].tokens, buckets[domain].ts;
      }
      tokens := Min(burst, tokens + Gain(rate, call.now - ts));
      var allowed, wait := false, 0.0;
      if tokens >= 1.0 {
        tokens := tokens - 1.0;
        allowed := true;
      } else {
        wait := (1.0 - tokens) / rate;
      }
      buckets := buckets[domain := Bucket(tokens, call.now, call.redisNow + Ttl(rate, burst))];
      answer := Answer(allowed, wait);
    }

    /**
     * Peeking does not consume a token, and what it reports is what `Acquire` would answer at the
     * same instant: zero exactly when a token would be granted, otherwise the same wait.
     */
    method WaitTime(domain: string, rate: real, ghost burst: real, call: Call) returns (wait: real)
      requires Sane(rate, burst)
      ensures var answer := Ask(Visible(Key(domain), call.redisNow), rate, burst, call.now);
              wait == answer.wait && (wait == 0.0 <==> answer.allowed)
    {
      if domain !in buckets || call.redisNow >= buckets[domain].expiresAt {
        return 0.0;
      }
      var tokens := Min(buckets[domain].tokens + Gain(rate, call.now - buckets[domain].ts), 1.0);
      if tokens >= 1.0 {
        return 0.0;
      }
      wait := (1.0 - tokens) / rate;
      GainInverse(rate, 1.0 - tokens);
    }
  }

  // ---------- Runs on one key ----------

  /** The key after the first `n` calls, expiry included. */
  function KeyAfter(key: Option<Bucket>, rate: real, burst: real, calls: seq<Call>, n: nat): Option<Bucket>
    requires Sane(rate, burst) && n <= |calls|
  {
    if n == 0 then key
    else
      var seen := Visible(KeyAfter(key, rate, burst, calls, n - 1), calls[n - 1].redisNow);
      Some(Written(seen, rate, burst, calls[n - 1]))
  }

  function AnswerTo(key: Option<Bucket>, rate: real, burst: real, calls: seq<Call>, i: nat): Answer
    requires Sane(rate, burst) && i < |calls|
  {
    Ask(Visible(KeyAfter(key, rate, burst, calls, i), calls[i].redisNow), rate, burst, calls[i].now)
  }

  /** How many of the first `n` calls were granted a token. */
  function Grants(key: Option<Bucket>, rate: real, burst: real, calls: seq<Call>, n: nat): nat
    requires Sane(rate, burst) && n <= |calls|
  {
    if n == 0 then 0
    else Grants(key, rate, burst, calls, n - 1) + (if AnswerTo(key, rate, burst, calls, n - 1).allowed then 1 else 0)
  }

  /** After the first call, every call up to call `n` finds the bucket still stored. */
  ghost predicate StaysLive(key: Option<Bucket>, rate: real, burst: real, calls: seq<Call>, n: nat)
    requires Sane(rate, burst) && n <= |calls|
  {
    n <= 1 || (StaysLive(key, rate, burst, calls, n - 1)
               && calls[n - 1].redisNow < KeyAfter(key, rate, burst, calls, n - 1).value.expiresAt)
  }

  /**
   * Stored tokens plus tokens taken grow no faster than the callers' clock: this is the potential
   * `tokens - rate * ts`, which no call raises and which every grant lowers by one.
   */
  lemma TokensStep(bucket: Bucket, rate: real, burst: real, call: Call)
    requires Sane(rate, burst)
    ensures var granted := if Ask(Some(bucket), rate, burst, call.now).allowed then 1.0 else 0.0;
            Written(Some(bucket), rate, burst, call).tokens + granted
              <= bucket.tokens + Gain(rate, call.now - bucket.ts)
  {
    hide Gain;
  }

  lemma {:induction false} TokensRun(key: Option<Bucket>, rate: real, burst: real, calls: seq<Call>, n: nat)
    requires Sane(rate, burst) && 1 <= n <= |calls| && StaysLive(key, rate, burst, calls, n)
    ensures KeyAfter(key, rate, burst, calls, n).value.tokens + Grants(key, rate, burst, calls, n) as real
         <= burst + Gain(rate, calls[n - 1].now - calls[0].now)
  {
    hide Gain;
    GainAdds(rate, 0.0, 0.0);
    if n > 1 {
      TokensRun(key, rate, burst, calls, n - 1);
      TokensStep(KeyAfter(key, rate, burst, calls, n - 1).value, rate, burst, calls[n - 1]);
      GainAdds(rate, calls[n - 1].now - calls[n - 2].now, calls[n - 2].now - calls[0].now);
    } else {
      assert Grants(key, rate, burst, calls, 0) == 0;
    }
  }

  /**
   * The politeness guarantee: on a live bucket, the grants from the first call up to any granted call
   * number at most `burst + rate * elapsed`, for every sequence of worker clocks, ordered or not.
   */
  lemma RateBound(key: Option<Bucket>, rate: real, burst: real, calls: seq<Call>, k: nat)
    requires Sane(rate, burst) && k < |calls| && StaysLive(key, rate, burst, calls, k + 1)
    requires AnswerTo(key, rate, burst, calls, k).allowed
    ensures Grants(key, rate, burst, calls, k + 1) as real <= burst + Gain(rate, calls[k].now - calls[0].now)
  {
    hide Gain;
    TokensRun(key, rate, burst, calls, k + 1);
    assert KeyAfter(key, rate, burst, calls, k + 1).value.tokens >= 0.0;
  }

  /**
   * The bound is reached, so no smaller one holds: a full bucket asked `burst` times at one instant and
   * then once each time a token has come back stays live, and from the `burst`-th call on the grants equal
   * the bound at every call.
   */
  lemma RateBoundIsTight(rate: real, burst: nat, calls: seq<Call>, n: nat)
    requires Sane(rate, burst as real) && burst <= n <= |calls| && IsTightSchedule(rate, burst, calls)
    ensures StaysLive(None, rate, burst as real, calls, n)
    ensures AnswerTo(None, rate, burst as real, calls, n - 1).allowed
    ensures Grants(None, rate, burst as real, calls, n) as real
         == burst as real + Gain(rate, calls[n - 1].now - calls[0].now)
  {
    TightRun(rate, burst, calls, n);
    TightRun(rate, burst, calls, n - 1);
    GainInverse(rate, (n - burst) as real);
    GainAdds(rate, 0.0, 0.0);
    assert calls[n - 1].now - calls[0].now == (n - burst) as real / rate;
  }

  ghost predicate IsTightSchedule(rate: real, burst: nat, calls: seq<Call>)
    requires rate > 0.0
  {
    forall i :: 0 <= i < |calls| ==> calls[i] == Call(TightInstant(rate, burst, i), TightInstant(rate, burst, i))
  }

  /** Every call of the schedule is granted, and finds the key still stored. */
  lemma {:induction false} TightRun(rate: real, burst: nat, calls: seq<Call>, n: nat)
    requires Sane(rate, burst as real) && n <= |calls| && IsTightSchedule(rate, burst, calls)
    ensures Grants(None, rate, burst as real, calls, n) == n && StaysLive(None, rate, burst as real, calls, n)
    ensures n > 0 ==> KeyAfter(None, rate, burst as real, calls, n) == Some(TightBucket(rate, burst, n))
  {
    hide Gain, TightInstant;
    if n > 0 {
      TightRun(rate, burst, calls, n - 1);
      TightStep(rate, burst, n);
    }
  }

  /** When call `i` of the tight schedule is made. */
  function TightInstant(rate: real, burst: nat, i: nat): real
    requires rate > 0.0
  {
    if i < burst then 0.0 else (i - burst + 1) as real / rate
  }

  function TightBucket(rate: real, burst: nat, n: nat): Bucket
    requires Sane(rate, burst as real) && n > 0
  {
    var t := TightInstant(rate, burst, n - 1);
    Bucket(if n < burst then (burst - n) as real else 0.0, t, t + Ttl(rate, burst as real))
  }

  lemma TightStep(rate: real, burst: nat, n: nat)
    requires Sane(rate, burst as real) && n > 0
    ensures var before := if n == 1 then None else Some(TightBucket(rate, burst, n - 1));
            var t := TightInstant(rate, burst, n - 1);
            && (before.Some? ==> t < before.value.expiresAt) && Ask(Visible(before, t), rate, burst as real, t).allowed
            && Written(Visible(before, t), rate, burst as real, Call(t, t)) == TightBucket(rate, burst, n)
  {
    if n > 1 {
      TightGap(rate, burst, n - 1);
    }
    hide Gain, TightInstant, Ttl;
  }

  lemma TightGap(rate: real, burst: nat, i: nat)
    requires Sane(rate, burst as real) && i > 0
    ensures var gap := TightInstant(rate, burst, i) - TightInstant(rate, burst, i - 1);
            Gain(rate, gap) == (if i < burst then 0.0 else 1.0) && gap < Ttl(rate, burst as real)
  {
    TtlCoversRefill(rate, burst as real);
    var gap := TightInstant(rate, burst, i) - TightInstant(rate, burst, i - 1);
    if i >= burst {
      var m := (i - burst) as real;
      assert (m + 1.0) / rate - m / rate == 1.0 / rate;
      assert i == burst ==> m / rate == 0.0;
      assert gap == 1.0 / rate;
      assert burst as real / rate - 1.0 / rate == (burst as real - 1.0) / rate >= 0.0;
    }
  }

  // ---------- One nondecreasing clock ----------

  lemma TtlCoversRefill(rate: real, burst: real)
    requires Sane(rate, burst)
    ensures Gain(rate, Ttl(rate, burst)) >= burst && Ttl(rate, burst) > burst / rate > 0.0
    ensures burst / rate + 60.0 <= Ttl(rate, burst) < burst / rate + 61.0
  {
    var refill := burst / rate;
    GainInverse(rate, burst);
    assert Ttl(rate, burst) > refill;
    GainOrder(rate, refill, Ttl(rate, burst));
  }

  /** What a key looks like when all its writers shared one nondecreasing clock, now at `t`. */
  predicate Healthy(key: Option<Bucket>, rate: real, burst: real, t: real)
    requires Sane(rate, burst)
  {
    key.Some? ==>
      && 0.0 <= key.value.tokens <= burst
      && key.value.ts <= t
      && key.value.expiresAt == key.value.ts + Ttl(rate, burst)
  }

  /** A key that expired would have refilled completely: reading it as missing changes nothing. */
  lemma ExpiredIsFull(key: Option<Bucket>, rate: real, burst: real, now: real)
    requires Sane(rate, burst) && Healthy(key, rate, burst, now)
    ensures Refilled(Visible(key, now), rate, burst, now) == Refilled(key, rate, burst, now) >= 0.0
    ensures Healthy(Some(Written(Visible(key, now), rate, burst, Call(now, now))), rate, burst, now)
  {
    hide Gain, Ttl;
    if key.Some? {
      TtlCoversRefill(rate, burst);
      GainOrder(rate, 0.0, now - key.value.ts);
      GainOrder(rate, Ttl(rate, burst), now - key.value.ts);
    }
  }

  /** The same run on a server that never drops a key. */
  function KeyAfterForever(rate: real, burst: real, calls: seq<Call>, n: nat): Option<Bucket>
    requires Sane(rate, burst) && n <= |calls|
  {
    if n == 0 then None
    else Some(Written(KeyAfterForever(rate, burst, calls, n - 1), rate, burst, calls[n - 1]))
  }

  ghost predicate OneClock(calls: seq<Call>) {
    && (forall i :: 0 <= i < |calls| ==> calls[i].redisNow == calls[i].now)
    && (forall i, j :: 0 <= i < j < |calls| ==> calls[i].now <= calls[j].now)
  }

  lemma {:induction false} SameKey(rate: real, burst: real, calls: seq<Call>, n: nat)
    requires Sane(rate, burst) && OneClock(calls) && n <= |calls|
    ensures KeyAfter(None, rate, burst, calls, n) == KeyAfterForever(rate, burst, calls, n)
    ensures n > 0 ==> Healthy(KeyAfter(None, rate, burst, calls, n), rate, burst, calls[n - 1].now)
  {
    hide Gain, Ttl;
    if n > 0 {
      SameKey(rate, burst, calls, n - 1);
      ExpiredIsFull(KeyAfter(None, rate, burst, calls, n - 1), rate, burst, calls[n - 1].now);
    }
  }

  /** Dropping idle keys is invisible: every call gets the answer it would get if keys lived forever. */
  lemma ExpiryIsInvisible(rate: real, burst: real, calls: seq<Call>, i: nat)
    requires Sane(rate, burst) && OneClock(calls) && i < |calls|
    ensures AnswerTo(None, rate, burst, calls, i)
      == Ask(KeyAfterForever(rate, burst, calls, i), rate, burst, calls[i].now)
  {
    hide Gain, Ttl;
    SameKey(rate, burst, calls, i);
    ExpiredIsFull(KeyAfter(None, rate, burst, calls, i), rate, burst, calls[i].now);
  }

  /**
   * The rate bound without any hypothesis on the key: on one clock, however long the key was idle and
   * however often it expired, the grants of a run stay within `burst + rate * elapsed`.
   */
  lemma RateBoundOnOneClock(rate: real, burst: real, calls: seq<Call>, n: nat)
    requires Sane(rate, burst) && OneClock(calls) && 1 <= n <= |calls|
    ensures Grants(None, rate, burst, calls, n) as real <= burst + Gain(rate, calls[n - 1].now - calls[0].now)
  {
    hide Gain, Ttl;
    TokensThroughExpiry(rate, burst, calls, n);
    SameKey(rate, burst, calls, n);
  }

  lemma {:induction false} TokensThroughExpiry(rate: real, burst: real, calls: seq<Call>, n: nat)
    requires Sane(rate, burst) && OneClock(calls) && 1 <= n <= |calls|
    ensures KeyAfter(None, rate, burst, calls, n).value.tokens + Grants(None, rate, burst, calls, n) as real
         <= burst + Gain(rate, calls[n - 1].now - calls[0].now)
  {
    hide Gain, Ttl;
    GainAdds(rate, 0.0, 0.0);
    if n > 1 {
      var key, call := KeyAfter(None, rate, burst, calls, n - 1), calls[n - 1];
      TokensThroughExpiry(rate, burst, calls, n - 1);
      SameKey(rate, burst, calls, n - 1);
      ExpiredIsFull(key, rate, burst, call.now);
      TokensStep(key.value, rate, burst, call);
      GainAdds(rate, call.now - calls[n - 2].now, calls[n - 2].now - calls[0].now);
    } else {
      assert Grants(None, rate, burst, calls, 0) == 0;
    }
  }

  /**
   * The wait is exact: after a denial, with nobody else calling, a later call is granted if and only
   * if at least the advertised wait has passed.
   */
  lemma WaitIsExact(key: Option<Bucket>, rate: real, burst: real, now: real, later: real)
    requires Sane(rate, burst) && Healthy(key, rate, burst, now) && now <= later
    requires !Ask(Visible(key, now), rate, burst, now).allowed
    ensures var wait := Ask(Visible(key, now), rate, burst, now).wait;
            var next := Some(Written(Visible(key, now), rate, burst, Call(now, now)));
            wait > 0.0 && (Ask(Visible(next, later), rate, burst, later).allowed <==> later >= now + wait)
  {
    hide Gain, Ttl;
    var next := Written(Visible(key, now), rate, burst, Call(now, now));
    ExpiredIsFull(key, rate, burst, now);
    ExpiredIsFull(Some(next), rate, burst, later);
    GainInverse(rate, 1.0 - next.tokens);
    GainOrder(rate, (1.0 - next.tokens) / rate, later - now);
  }
}
