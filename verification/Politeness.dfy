/** The wait loop a crawl request goes through before it may be sent. */
module Politeness {
  import opened Wrappers
  import opened TokenBucket

  const MAX_POLITENESS_WAIT_SECONDS := 30.0

  type Duration = x: real | x >= 0.0

  /**
   * What happens during one sleep: other workers call `acquire` at the given gaps, and the sleeper
   * runs again `late` seconds after both its sleep and the last of those calls.
   */
  datatype Interlude = Interlude(gaps: seq<Duration>, late: Duration)

  datatype Outcome = Granted | GaveUp | NoDomain

  /** The key of `domain` after writes on one nondecreasing clock, now at `t`. */
  predicate OnTime(limiter: DomainRateLimiter, domain: string, rate: real, burst: real, t: real)
    requires Sane(rate, burst)
    reads limiter
  {
    Healthy(limiter.Key(domain), rate, burst, t)
  }

  /** Tokens in the bucket at `t`; a missing key counts as a full bucket. */
  function Level(limiter: DomainRateLimiter, domain: string, rate: real, burst: real, t: real): real
    requires Sane(rate, burst)
    reads limiter
  {
    Refilled(Visible(limiter.Key(domain), t), rate, burst, t)
  }

  /** A single call on the shared clock, in terms of the level of the bucket before and after. */
  method AcquireOnTime(limiter: DomainRateLimiter, domain: string, rate: real, burst: real, ghost from: real, t: real)
    returns (answer: Answer)
    requires Sane(rate, burst) && OnTime(limiter, domain, rate, burst, from) && from <= t
    modifies limiter
    ensures OnTime(limiter, domain, rate, burst, t)
    ensures forall other :: other != domain ==> limiter.Key(other) == old(limiter.Key(other))
    ensures answer.allowed <==> old(Level(limiter, domain, rate, burst, t)) >= 1.0
    ensures !answer.allowed ==> answer.wait == (1.0 - Level(limiter, domain, rate, burst, t)) / rate
    ensures Level(limiter, domain, rate, burst, t)
      == old(Level(limiter, domain, rate, burst, t)) - (if answer.allowed then 1.0 else 0.0) >= 0.0
  {
    hide Gain, Ttl;
    ExpiredIsFull(limiter.Key(domain), rate, burst, t);
    answer := limiter.Acquire(domain, rate, burst, Call(t, t));
    GainAdds(rate, 0.0, 0.0);
    TtlCoversRefill(rate, burst);
  }

  /** Between calls the level rises with the clock, up to `burst`. */
  lemma LevelRises(limiter: DomainRateLimiter, domain: string, rate: real, burst: real, from: real, t: real)
    requires Sane(rate, burst) && OnTime(limiter, domain, rate, burst, from) && from <= t
    ensures Level(limiter, domain, rate, burst, t)
      == Min(burst, Level(limiter, domain, rate, burst, from) + Gain(rate, t - from))
    ensures Level(limiter, domain, rate, burst, t) >= 0.0
  {
    hide Gain, Ttl;
    ExpiredIsFull(limiter.Key(domain), rate, burst, from);
    ExpiredIsFull(limiter.Key(domain), rate, burst, t);
    GainAdds(rate, 0.0, 0.0);
    GainOrder(rate, 0.0, t - from);
    if limiter.Key(domain).Some? {
      GainAdds(rate, from - limiter.Key(domain).value.ts, t - from);
    }
  }

  /** The calls of other workers during a sleep that started at `from`. */
  method OthersCall(
      limiter: DomainRateLimiter, domain: string, rate: real, burst: real, from: real, gaps: seq<Duration>)
    returns (t: real, granted: nat)
    requires Sane(rate, burst) && OnTime(limiter, domain, rate, burst, from)
    modifies limiter
    ensures t >= from && OnTime(limiter, domain, rate, burst, t) && granted <= |gaps|
    ensures gaps == [] ==> t == from
    ensures forall other :: other != domain ==> limiter.Key(other) == old(limiter.Key(other))
    ensures Level(limiter, domain, rate, burst, t) >= 0.0
    ensures Level(limiter, domain, rate, burst, t) + granted as real
      >= Min(burst, old(Level(limiter, domain, rate, burst, from)) + Gain(rate, t - from))
    ensures Level(limiter, domain, rate, burst, t) + granted as real
      <= old(Level(limiter, domain, rate, burst, from)) + Gain(rate, t - from)
    ensures granted == 0 ==>
      Level(limiter, domain, rate, burst, t)
        == Min(burst, old(Level(limiter, domain, rate, burst, from)) + Gain(rate, t - from))
  {
    hide Gain, Ttl;
    t, granted := from, 0;
    GainAdds(rate, 0.0, 0.0);
    LevelRises(limiter, domain, rate, burst, from, from);
    for i := 0 to |gaps|
      invariant t >= from && OnTime(limiter, domain, rate, burst, t) && granted <= i
      invariant i == 0 ==> t == from
      invariant forall other :: other != domain ==> limiter.Key(other) == old(limiter.Key(other))
      invariant Level(limiter, domain, rate, burst, t) >= 0.0
      invariant Level(limiter, domain, rate, burst, t) + granted as real
        >= Min(burst, old(Level(limiter, domain, rate, burst, from)) + Gain(rate, t - from))
      invariant Level(limiter, domain, rate, burst, t) + granted as real
        <= old(Level(limiter, domain, rate, burst, from)) + Gain(rate, t - from)
      invariant granted == 0 ==>
        Level(limiter, domain, rate, burst, t)
          == Min(burst, old(Level(limiter, domain, rate, burst, from)) + Gain(rate, t - from))
    {
      LevelRises(limiter, domain, rate, burst, t, t + gaps[i]);
      GainAdds(rate, t - from, gaps[i]);
      GainOrder(rate, 0.0, gaps[i]);
      var answer := AcquireOnTime(limiter, domain, rate, burst, t, t + gaps[i]);
      t := t + gaps[i];
      if answer.allowed {
        granted := granted + 1;
      }
    }
  }

  /** Sleep for `duration` while the others do what the interlude says. */
  method Sleep(
      limiter: DomainRateLimiter, domain: string, rate: real, burst: real, from: real, duration: real,
      interlude: Interlude)
    returns (t: real, granted: nat)
    requires Sane(rate, burst) && OnTime(limiter, domain, rate, burst, from) && duration >= 0.0
    modifies limiter
    ensures t >= from + duration && OnTime(limiter, domain, rate, burst, t)
    ensures forall other :: other != domain ==> limiter.Key(other) == old(limiter.Key(other))
    ensures interlude == Interlude([], 0.0) ==> t == from + duration && granted == 0
    ensures Level(limiter, domain, rate, burst, t) + granted as real
      >= Min(burst, old(Level(limiter, domain, rate, burst, from)) + Gain(rate, t - from))
    ensures Level(limiter, domain, rate, burst, t) + granted as real
      <= old(Level(limiter, domain, rate, burst, from)) + Gain(rate, t - from)
    ensures granted == 0 ==>
      Level(limiter, domain, rate, burst, t)
        == Min(burst, old(Level(limiter, domain, rate, burst, from)) + Gain(rate, t - from))
    ensures Level(limiter, domain, rate, burst, t) >= 0.0
  {
    hide Gain, Ttl;
    var last;
    last, granted := OthersCall(limiter, domain, rate, burst, from, interlude.gaps);
    t := (if last <= from + duration then from + duration else last) + interlude.late;
    LevelRises(limiter, domain, rate, burst, last, t);
    GainAdds(rate, last - from, t - last);
    GainOrder(rate, 0.0, t - last);
  }

  /** A sleep is worth no more than the token that is missing; what is missing afterwards, others took. */
  lemma NoOversleep(rate: real, burst: real, level: real, after: real, granted: nat, slept: real, elapsed: real)
    requires Sane(rate, burst) && 0.0 <= level < 1.0 && 0.0 <= slept <= elapsed && slept <= (1.0 - level) / rate
    requires after + granted as real >= Min(burst, level + Gain(rate, elapsed))
    ensures 0.0 <= Gain(rate, slept) <= 1.0 - level
    ensures Gain(rate, slept) + 1.0 - after <= 1.0 - level + granted as real
  {
    hide Gain;
    GainInverse(rate, 1.0 - level);
    GainOrder(rate, slept, (1.0 - level) / rate);
    GainOrder(rate, slept, elapsed);
    GainOrder(rate, 0.0, slept);
  }

  /** After a sleep without other grants there is a token exactly if the wait was slept out. */
  lemma SleptEnough(rate: real, burst: real, level: real, after: real, slept: real, elapsed: real)
    requires Sane(rate, burst) && 0.0 <= level < 1.0 && 0.0 <= slept <= elapsed
    requires after == Min(burst, level + Gain(rate, elapsed))
    ensures (1.0 - level) / rate > 0.0
    ensures slept >= (1.0 - level) / rate ==> after >= 1.0
    ensures elapsed == slept < (1.0 - level) / rate ==> after < 1.0
  {
    hide Gain;
    GainInverse(rate, 1.0 - level);
    GainOrder(rate, (1.0 - level) / rate, elapsed);
  }

  /**
   * One request: poll the bucket until a token comes or the politeness budget is spent.
   *
   * `env` scripts the sleeps in order; once it is used up nobody else calls and sleeps are punctual.
   * The request sleeps at most 30 seconds, and each call beyond the first two is paid for by a grant
   * another worker received meanwhile, which the rate bound limits in turn. When sleeps end on time the
   * number of calls is bounded by the rate alone, however long the script: the loop always ends. When nobody
   * else is granted a token, a denied request sleeps exactly the wait it was told, up to the 30 seconds; and
   * never does it sleep longer than its own token and those granted to others take to come back.
   */
  method ProcessRequest(
      limiter: DomainRateLimiter, domain: string, rate: real, burst: real, start: real, env: seq<Interlude>)
    returns (outcome: Outcome, calls: nat, waited: real, others: nat, finish: real)
    requires Sane(rate, burst) && OnTime(limiter, domain, rate, burst, start)
    modifies limiter
    ensures domain == "" <==> outcome.NoDomain?
    ensures domain == "" ==> calls == 0 && limiter.buckets == old(limiter.buckets)
    ensures domain != "" ==> OnTime(limiter, domain, rate, burst, finish) && calls >= 1
    ensures forall other :: other != domain ==> limiter.Key(other) == old(limiter.Key(other))
    ensures 0.0 <= waited <= 30.0 && finish >= start + waited
    ensures outcome.GaveUp? ==> waited == 30.0
    ensures calls <= 2 + others
    ensures old(Level(limiter, domain, rate, burst, start)) >= 1.0 && domain != "" ==>
      outcome.Granted? && calls == 1 && waited == 0.0
    ensures domain != "" ==>
      0.0 <= Level(limiter, domain, rate, burst, finish)
          <= old(Level(limiter, domain, rate, burst, start)) + Gain(rate, finish - start)
             - others as real - (if outcome.Granted? then 1.0 else 0.0)
    ensures calls > 1 ==> others as real < 1.0 + Gain(rate, finish - start)
    ensures finish == start + waited ==> calls as real < 3.0 + Gain(rate, 30.0)
    ensures env == [] ==> finish == start + waited && others == 0
    ensures domain != "" && old(Level(limiter, domain, rate, burst, start)) < 1.0 ==>
      0.0 <= Gain(rate, waited) <= 1.0 - old(Level(limiter, domain, rate, burst, start)) + others as real
    ensures domain != "" && others == 0 && old(Level(limiter, domain, rate, burst, start)) < 1.0 ==>
      var wait := (1.0 - old(Level(limiter, domain, rate, burst, start))) / rate;
      && calls == 2 && waited == (if wait <= 30.0 then wait else 30.0)
      && (wait <= 30.0 ==> outcome.Granted?) && (env == [] && wait > 30.0 ==> outcome.GaveUp?)
  {
    hide Gain, Ttl;
    calls, waited, others, finish := 0, 0.0, 0, start;
    GainAdds(rate, 0.0, 0.0);
    GainOrder(rate, 0.0, MAX_POLITENESS_WAIT_SECONDS);
    if domain == "" {
      return NoDomain, calls, waited, others, finish;
    }
    LevelRises(limiter, domain, rate, burst, start, start);
    ghost var wait := (1.0 - Level(limiter, domain, rate, burst, start)) / rate;
    // Grants to others up to the last sleep but one, and during the last sleep.
    ghost var before, latest := 0, 0;
    while true
      invariant 0.0 <= waited <= MAX_POLITENESS_WAIT_SECONDS && finish >= start + waited
      invariant OnTime(limiter, domain, rate, burst, finish)
      invariant forall other :: other != domain ==> limiter.Key(other) == old(limiter.Key(other))
      invariant calls <= |env| + 1 && others == before + latest
      invariant calls == 0 ==> waited == 0.0 && others == 0 && finish == start
      invariant calls == 0 ==>
        Level(limiter, domain, rate, burst, finish) == old(Level(limiter, domain, rate, burst, start))
      invariant calls > 0 ==> old(Level(limiter, domain, rate, burst, start)) < 1.0
      invariant calls > 0 ==> calls - 1 <= before
      invariant calls > 0 ==>
        waited == MAX_POLITENESS_WAIT_SECONDS || latest > 0 || Level(limiter, domain, rate, burst, finish) >= 1.0
      invariant calls == |env| + 1 ==> latest == 0
      invariant 0.0 <= Level(limiter, domain, rate, burst, finish)
                    <= old(Level(limiter, domain, rate, burst, start)) + Gain(rate, finish - start) - others as real
      invariant env == [] ==> finish == start + waited && others == 0
      invariant calls > 0 && others == 0 ==> calls == 1 && waited == Min(wait, MAX_POLITENESS_WAIT_SECONDS)
      invariant old(Level(limiter, domain, rate, burst, start)) < 1.0 ==>
        var owed := 1.0 - old(Level(limiter, domain, rate, burst, start)) + others as real;
        0.0 <= Gain(rate, waited) <= owed
        && Gain(rate, waited) + 1.0 - Level(limiter, domain, rate, burst, finish) <= owed
      invariant calls > 0 && others == 0 && wait <= MAX_POLITENESS_WAIT_SECONDS ==>
        Level(limiter, domain, rate, burst, finish) >= 1.0
      invariant calls > 0 && env == [] && wait > MAX_POLITENESS_WAIT_SECONDS ==>
        Level(limiter, domain, rate, burst, finish) < 1.0
      decreases |env| + 1 - calls
    {
      var answer := AcquireOnTime(limiter, domain, rate, burst, finish, finish);
      calls := calls + 1;
      GainOrder(rate, waited, MAX_POLITENESS_WAIT_SECONDS);
      if answer.allowed {
        return Granted, calls, waited, others, finish;
      }
      if waited >= MAX_POLITENESS_WAIT_SECONDS {
        return GaveUp, calls, waited, others, finish;
      }
      ghost var level := Level(limiter, domain, rate, burst, finish);
      GainInverse(rate, 1.0 - level);
      // The wait is positive, so the program's fallback to a tenth of a second never applies.
      assert answer.wait > 0.0;
      var sleepFor := Min(answer.wait, MAX_POLITENESS_WAIT_SECONDS - waited);
      var interlude := if calls <= |env| then env[calls - 1] else Interlude([], 0.0);
      var woke, granted := Sleep(limiter, domain, rate, burst, finish, sleepFor, interlude);
      NoOversleep(rate, burst, level, Level(limiter, domain, rate, burst, woke), granted, sleepFor, woke - finish);
      GainAdds(rate, waited, sleepFor);
      if granted == 0 {
        SleptEnough(rate, burst, level, Level(limiter, domain, rate, burst, woke), sleepFor, woke - finish);
      }
      GainAdds(rate, finish - start, woke - finish);
      before, latest := others, granted;
      waited, others, finish := waited + sleepFor, others + granted, woke;
    }
  }
}
