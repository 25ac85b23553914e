/**
 The per-client token bucket of the API. Tokens and time are real numbers; time is in
 milliseconds and the rate in tokens per second.
 */
module RateLimit {
  import opened Results

  type Key = string

  datatype Bucket = Bucket(tokens: real, updatedAt: real)

  datatype Decision = Allowed | Denied(retryAfterSeconds: int)

  /** `requestsPerSecond` and the whole number of tokens a full bucket holds. */
  datatype Config = Config(rate: real, capacity: int) {
    predicate Valid() {
      rate > 0.0 && capacity >= 1
    }
  }

  datatype Options = Options(requestsPerSecond: real, burst: Option<real>)

  /** The burst defaults to the rate rounded up; a rate of nothing and a burst below one are refused. */
  function Configure(options: Options): (cfg: Option<Config>)
    ensures cfg.Some? <==> options.requestsPerSecond > 0.0 && (options.burst.Some? ==> options.burst.value >= 1.0)
    ensures cfg.Some? ==> cfg.value.Valid() && cfg.value.rate == options.requestsPerSecond
    ensures cfg.Some? && options.burst.Some? ==> cfg.value.capacity as real <= options.burst.value < cfg.value.capacity as real + 1.0
    ensures cfg.Some? && options.burst.None? ==> cfg.value.rate <= cfg.value.capacity as real < cfg.value.rate + 1.0
  {
    var rounded := Ceil(options.requestsPerSecond);
    var burst := options.burst.GetOr(if rounded < 1 then 1.0 else rounded as real);
    if options.requestsPerSecond <= 0.0 || burst < 1.0 then None
    else Some(Config(options.requestsPerSecond, burst.Floor))
  }

  function Ceil(x: real): (c: int)
    ensures x <= c as real < x + 1.0
  {
    -((-x).Floor)
  }

  function MinReal(a: real, b: real): real { if a < b then a else b }

  function Elapsed(from: real, to: real): real { if to > from then (to - from) / 1000.0 else 0.0 }

  /** Tokens that flow in between two moments. */
  function Gain(cfg: Config, from: real, to: real): real {
    Elapsed(from, to) * cfg.rate
  }

  function Refilled(cfg: Config, b: Bucket, now: real): real {
    MinReal(cfg.capacity as real, b.tokens + Gain(cfg, b.updatedAt, now))
  }

  type Buckets = map<Key, Bucket>

  const SWEEP_EVERY: nat := 1024

  datatype State = State(buckets: Buckets, calls: nat)

  /** Tokens a key has at `now`; a key never seen has a full bucket. */
  function TokensAt(cfg: Config, buckets: Buckets, key: Key, now: real): real {
    if key in buckets then Refilled(cfg, buckets[key], now) else cfg.capacity as real
  }

  function Sweep(cfg: Config, buckets: Buckets, now: real): Buckets {
    map k | k in buckets && Refilled(cfg, buckets[k], now) < cfg.capacity as real :: buckets[k]
  }

  /** Spend a token if there is one. */
  function Spend(cfg: Config, buckets: Buckets, key: Key, now: real): (Buckets, Decision)
    requires cfg.Valid()
  {
    var tokens := TokensAt(cfg, buckets, key, now);
    if tokens >= 1.0 then (buckets[key := Bucket(tokens - 1.0, now)], Allowed)
    else
      var seconds := Ceil((1.0 - tokens) / cfg.rate);
      (buckets[key := Bucket(tokens, now)], Denied(if seconds < 1 then 1 else seconds))
  }

  /** `take`: every so many calls the full buckets are swept first. */
  function Take(cfg: Config, s: State, key: Key, now: real): (State, Decision)
    requires cfg.Valid()
  {
    var calls := s.calls + 1;
    var buckets := if calls % SWEEP_EVERY == 0 then Sweep(cfg, s.buckets, now) else s.buckets;
    var (after, decision) := Spend(cfg, buckets, key, now);
    (State(after, calls), decision)
  }

  // ---------------------------------------------------------------- the limiter, run

  class TokenBucketLimiter {
    const cfg: Config
    var buckets: Buckets
    var calls: nat

    ghost function View(): State
      reads this
    {
      State(buckets, calls)
    }

    constructor (cfg: Config)
      ensures this.cfg == cfg && View() == State(map[], 0)
    {
      this.cfg := cfg;
      buckets, calls := map[], 0;
    }

    /** A limiter for the options given, or None where the constructor throws. */
    static method Create(options: Options) returns (limiter: Option<TokenBucketLimiter>)
      ensures limiter.Some? <==> Configure(options).Some?
      ensures limiter.Some? ==>
        && fresh(limiter.value) && Some(limiter.value.cfg) == Configure(options)
        && limiter.value.cfg.Valid() && limiter.value.View() == State(map[], 0)
    {
      var cfg := Configure(options);
      if cfg.None? { return None; }
      var built := new TokenBucketLimiter(cfg.value);
      limiter := Some(built);
    }

    method SweepFull(now: real)
      modifies this`buckets
      ensures buckets == Sweep(cfg, old(buckets), now)
    {
      var left := buckets.Keys;
      while left != {}
        invariant left <= buckets.Keys
        invariant buckets == map k | k in old(buckets) &&
                    (k in left || Refilled(cfg, old(buckets)[k], now) < cfg.capacity as real) :: old(buckets)[k]
        decreases left
      {
        var key :| key in left;
        left := left - {key};
        if Refilled(cfg, buckets[key], now) >= cfg.capacity as real {
          buckets := map k | k in buckets && k != key :: buckets[k];
        }
      }
    }

    method TakeToken(key: Key, now: real) returns (decision: Decision)
      requires cfg.Valid()
      modifies this
      ensures (View(), decision) == Take(cfg, old(View()), key, now)
    {
      calls := calls + 1;
      if calls % SWEEP_EVERY == 0 { SweepFull(now); }
      var bucket := if key in buckets then buckets[key] else Bucket(cfg.capacity as real, now);
      var tokens := Refilled(cfg, bucket, now);
      if tokens >= 1.0 {
        buckets := buckets[key := Bucket(tokens - 1.0, now)];
        return Allowed;
      }
      buckets := buckets[key := Bucket(tokens, now)];
      var seconds := Ceil((1.0 - tokens) / cfg.rate);
      decision := Denied(if seconds < 1 then 1 else seconds);
    }
  }

  // ---------------------------------------------------------------- arithmetic

  lemma MulLe(a: real, b: real, c: real)
    requires a <= b && c >= 0.0
    ensures a * c <= b * c
  {
  }

  lemma DivMul(a: real, c: real)
    requires c > 0.0
    ensures (a / c) * c == a
  {
  }

  lemma GainAdds(cfg: Config, a: real, b: real, c: real)
    requires cfg.Valid() && a <= b <= c
    ensures Gain(cfg, a, c) == Gain(cfg, a, b) + Gain(cfg, b, c)
    ensures Gain(cfg, a, b) >= 0.0 && Gain(cfg, b, c) >= 0.0 && Gain(cfg, a, a) == 0.0
  {
    assert Elapsed(a, c) == Elapsed(a, b) + Elapsed(b, c);
    MulLe(0.0, Elapsed(a, b), cfg.rate);
    MulLe(0.0, Elapsed(b, c), cfg.rate);
  }

  /** A bucket last touched in the past, holding between no and all tokens. */
  ghost predicate SoundBucket(cfg: Config, b: Bucket, now: real) {
    0.0 <= b.tokens <= cfg.capacity as real && b.updatedAt <= now
  }

  ghost predicate Sound(cfg: Config, buckets: Buckets, now: real) {
    forall k | k in buckets :: SoundBucket(cfg, buckets[k], now)
  }

  /** Tokens grow with time, by at most the rate, and never past the capacity. */
  lemma RefillGrows(cfg: Config, b: Bucket, now: real, later: real)
    requires cfg.Valid() && SoundBucket(cfg, b, now) && now <= later
    ensures 0.0 <= Refilled(cfg, b, now) <= Refilled(cfg, b, later) <= cfg.capacity as real
    ensures Refilled(cfg, b, later) <= Refilled(cfg, b, now) + Gain(cfg, now, later)
    ensures b.updatedAt == now ==> Refilled(cfg, b, now) == b.tokens
  {
    hide Gain;
    GainAdds(cfg, b.updatedAt, now, later);
  }

  // ---------------------------------------------------------------- one call

  lemma SweepKeepsTokens(cfg: Config, buckets: Buckets, now: real, key: Key, later: real)
    requires cfg.Valid() && Sound(cfg, buckets, now) && now <= later
    ensures Sound(cfg, Sweep(cfg, buckets, now), now)
    ensures TokensAt(cfg, Sweep(cfg, buckets, now), key, later) == TokensAt(cfg, buckets, key, later)
  {
    hide Gain;
    if key in buckets { RefillGrows(cfg, buckets[key], now, later); }
  }

  lemma SpendFacts(cfg: Config, buckets: Buckets, key: Key, now: real, other: Key, later: real)
    requires cfg.Valid() && Sound(cfg, buckets, now) && now <= later
    ensures var (after, decision) := Spend(cfg, buckets, key, now);
            && Sound(cfg, after, now)
            && (other != key ==> TokensAt(cfg, after, other, later) == TokensAt(cfg, buckets, other, later))
            && TokensAt(cfg, after, key, now) == TokensAt(cfg, buckets, key, now) - (if decision.Allowed? then 1.0 else 0.0)
            && (decision.Allowed? <==> TokensAt(cfg, buckets, key, now) >= 1.0)
  {
    hide Refilled, Gain, Ceil;
    TokensInRange(cfg, buckets, key, now);
    var after := Spend(cfg, buckets, key, now).0;
    RefillGrows(cfg, after[key], now, now);
  }

  lemma TokensInRange(cfg: Config, buckets: Buckets, key: Key, now: real)
    requires cfg.Valid() && Sound(cfg, buckets, now)
    ensures 0.0 <= TokensAt(cfg, buckets, key, now) <= cfg.capacity as real
  {
    hide Gain;
    if key in buckets { RefillGrows(cfg, buckets[key], now, now); }
  }

  lemma TokensGrow(cfg: Config, buckets: Buckets, key: Key, now: real, later: real)
    requires cfg.Valid() && Sound(cfg, buckets, now) && now <= later
    ensures TokensAt(cfg, buckets, key, later) <= TokensAt(cfg, buckets, key, now) + Gain(cfg, now, later)
  {
    hide Refilled, Gain;
    GainAdds(cfg, now, now, later);
    if key in buckets { RefillGrows(cfg, buckets[key], now, later); }
  }

  lemma TakeFacts(cfg: Config, s: State, key: Key, now: real, other: Key, later: real)
    requires cfg.Valid() && Sound(cfg, s.buckets, now) && now <= later
    ensures var (t, decision) := Take(cfg, s, key, now);
            && Sound(cfg, t.buckets, now)
            && (other != key ==> TokensAt(cfg, t.buckets, other, later) == TokensAt(cfg, s.buckets, other, later))
            && TokensAt(cfg, t.buckets, key, now) == TokensAt(cfg, s.buckets, key, now) - (if decision.Allowed? then 1.0 else 0.0)
            && (decision.Allowed? <==> TokensAt(cfg, s.buckets, key, now) >= 1.0)
  {
    hide Refilled, Gain, Spend, Sweep;
    var swept := if (s.calls + 1) % SWEEP_EVERY == 0 then Sweep(cfg, s.buckets, now) else s.buckets;
    if (s.calls + 1) % SWEEP_EVERY == 0 {
      SweepKeepsTokens(cfg, s.buckets, now, key, now);
      SweepKeepsTokens(cfg, s.buckets, now, other, later);
    }
    SpendFacts(cfg, swept, key, now, other, later);
  }

  // ---------------------------------------------------------------- runs

  datatype Call = Call(key: Key, now: real)

  ghost predicate ClockFrom(calls: seq<Call>, start: real) {
    (calls != [] ==> start <= calls[0].now) && forall i | 0 <= i < |calls| - 1 :: calls[i].now <= calls[i + 1].now
  }

  function Run(cfg: Config, s: State, calls: seq<Call>): (State, seq<Decision>)
    requires cfg.Valid()
    decreases |calls|
  {
    if calls == [] then (s, [])
    else
      var (t, decision) := Take(cfg, s, calls[0].key, calls[0].now);
      var (end, rest) := Run(cfg, t, calls[1..]);
      (end, [decision] + rest)
  }

  /** The same calls on a limiter that never sweeps. */
  function RunUnswept(cfg: Config, buckets: Buckets, calls: seq<Call>): seq<Decision>
    requires cfg.Valid()
    decreases |calls|
  {
    if calls == [] then []
    else
      var (after, decision) := Spend(cfg, buckets, calls[0].key, calls[0].now);
      [decision] + RunUnswept(cfg, after, calls[1..])
  }

  /** The swept limiter misses only buckets that are full. */
  ghost predicate SweptFrom(cfg: Config, swept: Buckets, full: Buckets, now: real) {
    && (forall k | k in swept :: k in full && full[k] == swept[k])
    && (forall k | k in full && k !in swept :: Refilled(cfg, full[k], now) == cfg.capacity as real)
  }

  /** Sweeping is invisible: every call is decided as by a limiter that never sweeps. */
  lemma {:induction false} SweepInvisible(cfg: Config, s: State, full: Buckets, calls: seq<Call>, start: real)
    requires cfg.Valid() && ClockFrom(calls, start)
    requires Sound(cfg, full, start) && SweptFrom(cfg, s.buckets, full, start)
    ensures Run(cfg, s, calls).1 == RunUnswept(cfg, full, calls)
    decreases |calls|
  {
    hide Gain, Ceil, Refilled, Spend, SweptFrom, Sound, Sweep;
    if calls != [] {
      var Call(key, now) := calls[0];
      SweptLater(cfg, s.buckets, full, start, now);
      var swept := if (s.calls + 1) % SWEEP_EVERY == 0 then Sweep(cfg, s.buckets, now) else s.buckets;
      SweepSwept(cfg, s.buckets, full, now);
      SpendAlike(cfg, swept, full, key, now);
      SweepInvisible(cfg, Take(cfg, s, key, now).0, Spend(cfg, full, key, now).0, calls[1..], now);
    }
  }

  /** A call is decided alike, and what it leaves is related as before. */
  lemma SpendAlike(cfg: Config, swept: Buckets, full: Buckets, key: Key, now: real)
    requires cfg.Valid() && Sound(cfg, full, now) && SweptFrom(cfg, swept, full, now)
    ensures var (buckets, decision) := Spend(cfg, full, key, now);
            && Spend(cfg, swept, key, now).1 == decision
            && Sound(cfg, buckets, now) && SweptFrom(cfg, Spend(cfg, swept, key, now).0, buckets, now)
  {
    hide Gain, Ceil, Refilled;
    SpendFacts(cfg, full, key, now, key, now);
  }

  lemma SweptLater(cfg: Config, swept: Buckets, full: Buckets, start: real, now: real)
    requires cfg.Valid() && Sound(cfg, full, start) && SweptFrom(cfg, swept, full, start) && start <= now
    ensures Sound(cfg, full, now) && SweptFrom(cfg, swept, full, now)
  {
    hide Gain, Refilled;
    forall k | k in full && k !in swept ensures Refilled(cfg, full[k], now) == cfg.capacity as real {
      RefillGrows(cfg, full[k], start, now);
    }
  }

  lemma SweepSwept(cfg: Config, swept: Buckets, full: Buckets, now: real)
    requires cfg.Valid() && Sound(cfg, full, now) && SweptFrom(cfg, swept, full, now)
    ensures SweptFrom(cfg, Sweep(cfg, swept, now), full, now)
  {
    hide Gain, Refilled;
    forall k | k in full && k !in Sweep(cfg, swept, now) ensures Refilled(cfg, full[k], now) == cfg.capacity as real {
      RefillGrows(cfg, full[k], now, now);
    }
  }

  /** From an empty limiter the premises of `SweepInvisible` hold. */
  lemma SweepInvisibleFromEmpty(cfg: Config, calls: seq<Call>, start: real)
    requires cfg.Valid() && ClockFrom(calls, start)
    ensures Run(cfg, State(map[], 0), calls).1 == RunUnswept(cfg, map[], calls)
  {
    SweepInvisible(cfg, State(map[], 0), map[], calls, start);
  }

  function AllowedFor(calls: seq<Call>, decisions: seq<Decision>, key: Key): nat
    requires |calls| == |decisions|
  {
    if calls == [] then 0
    else (if calls[0].key == key && decisions[0].Allowed? then 1 else 0) + AllowedFor(calls[1..], decisions[1..], key)
  }

  lemma {:induction false} RunLength(cfg: Config, s: State, calls: seq<Call>)
    requires cfg.Valid()
    ensures |Run(cfg, s, calls).1| == |calls|
    decreases |calls|
  {
    hide Take;
    if calls != [] { RunLength(cfg, Take(cfg, s, calls[0].key, calls[0].now).0, calls[1..]); }
  }

  lemma RunStep(cfg: Config, s: State, calls: seq<Call>, key: Key)
    requires cfg.Valid() && calls != []
    ensures var (t, decision) := Take(cfg, s, calls[0].key, calls[0].now);
            && |Run(cfg, s, calls).1| == |calls| && |Run(cfg, t, calls[1..]).1| == |calls| - 1
            && Run(cfg, s, calls).0 == Run(cfg, t, calls[1..]).0
            && AllowedFor(calls, Run(cfg, s, calls).1, key) ==
               (if calls[0].key == key && decision.Allowed? then 1 else 0) +
               AllowedFor(calls[1..], Run(cfg, t, calls[1..]).1, key)
  {
    hide Take;
    RunLength(cfg, s, calls);
    var t := Take(cfg, s, calls[0].key, calls[0].now).0;
    RunLength(cfg, t, calls[1..]);
    assert Run(cfg, s, calls).1[1..] == Run(cfg, t, calls[1..]).1;
  }

  /** Tokens are conserved: what a key spends, it had at the start or was refilled since. */
  lemma {:induction false} TokensConserved(cfg: Config, s: State, calls: seq<Call>, key: Key, start: real, end: real)
    requires cfg.Valid() && ClockFrom(calls, start) && Sound(cfg, s.buckets, start)
    requires if calls == [] then start <= end else calls[|calls| - 1].now <= end
    ensures |Run(cfg, s, calls).1| == |calls|
    ensures start <= end
    ensures AllowedFor(calls, Run(cfg, s, calls).1, key) as real + TokensAt(cfg, Run(cfg, s, calls).0.buckets, key, end)
            <= TokensAt(cfg, s.buckets, key, start) + Gain(cfg, start, end)
    ensures TokensAt(cfg, Run(cfg, s, calls).0.buckets, key, end) >= 0.0
    decreases |calls|
  {
    hide Take, Gain, TokensAt;
    if calls == [] {
      TokensGrow(cfg, s.buckets, key, start, end);
      assert Sound(cfg, s.buckets, end);
      TokensInRange(cfg, s.buckets, key, end);
    } else {
      var Call(k, now) := calls[0];
      var (t, decision) := Take(cfg, s, k, now);
      assert Sound(cfg, s.buckets, now);
      TakeFacts(cfg, s, k, now, key, now);
      TokensConserved(cfg, t, calls[1..], key, now, end);
      TokensGrow(cfg, s.buckets, key, start, now);
      GainAdds(cfg, start, now, end);
      RunStep(cfg, s, calls, key);
    }
  }

  /** In any stretch of calls a key is allowed at most the burst plus the rate times its duration. */
  lemma RateCeiling(cfg: Config, s: State, calls: seq<Call>, key: Key)
    requires cfg.Valid() && calls != [] && ClockFrom(calls, calls[0].now) && Sound(cfg, s.buckets, calls[0].now)
    ensures |Run(cfg, s, calls).1| == |calls|
    ensures AllowedFor(calls, Run(cfg, s, calls).1, key) as real <=
            cfg.capacity as real + Elapsed(calls[0].now, calls[|calls| - 1].now) * cfg.rate
  {
    hide Run, TokensAt;
    var start, end := calls[0].now, calls[|calls| - 1].now;
    TokensConserved(cfg, s, calls, key, start, end);
    TokensInRange(cfg, s.buckets, key, start);
  }

  /** Every state a limiter reaches is sound, so the ceiling holds from any point of any run. */
  lemma {:induction false} RunSound(cfg: Config, s: State, calls: seq<Call>, start: real)
    requires cfg.Valid() && ClockFrom(calls, start) && Sound(cfg, s.buckets, start)
    ensures Sound(cfg, Run(cfg, s, calls).0.buckets, if calls == [] then start else calls[|calls| - 1].now)
    decreases |calls|
  {
    hide Take, Gain, TokensAt;
    if calls != [] {
      var Call(k, now) := calls[0];
      TakeFacts(cfg, s, k, now, k, now);
      RunSound(cfg, Take(cfg, s, k, now).0, calls[1..], now);
    }
  }

  lemma {:induction false} OthersKeepTokens(cfg: Config, s: State, calls: seq<Call>, key: Key, start: real, later: real)
    requires cfg.Valid() && ClockFrom(calls, start) && Sound(cfg, s.buckets, start)
    requires forall i | 0 <= i < |calls| :: calls[i].key != key && calls[i].now <= later
    requires start <= later
    ensures TokensAt(cfg, Run(cfg, s, calls).0.buckets, key, later) == TokensAt(cfg, s.buckets, key, later)
    decreases |calls|
  {
    hide Take, Gain, TokensAt;
    if calls != [] {
      var Call(k, now) := calls[0];
      assert Sound(cfg, s.buckets, now);
      TakeFacts(cfg, s, k, now, key, later);
      OthersKeepTokens(cfg, Take(cfg, s, k, now).0, calls[1..], key, now, later);
    }
  }

  /** A denied key that nobody else spends from is allowed once `retryAfterSeconds` have passed. */
  lemma RetryAfterSuffices(cfg: Config, s: State, key: Key, now: real, others: seq<Call>, later: real)
    requires cfg.Valid() && Sound(cfg, s.buckets, now)
    requires Take(cfg, s, key, now).1.Denied?
    requires ClockFrom(others, now) && forall i | 0 <= i < |others| :: others[i].key != key && others[i].now <= later
    requires later >= now + 1000.0 * Take(cfg, s, key, now).1.retryAfterSeconds as real
    ensures Take(cfg, Run(cfg, Take(cfg, s, key, now).0, others).0, key, later).1.Allowed?
  {
    hide Run, TokensAt, Take;
    var (t, denied) := Take(cfg, s, key, now);
    DeniedTokens(cfg, s, key, now, later);
    OthersKeepTokens(cfg, t, others, key, now, later);
    RunSound(cfg, t, others, now);
    TakeFacts(cfg, Run(cfg, t, others).0, key, later, key, later);
  }

  /** After a denial the bucket is full enough once the seconds named have passed. */
  lemma DeniedTokens(cfg: Config, s: State, key: Key, now: real, later: real)
    requires cfg.Valid() && Sound(cfg, s.buckets, now)
    requires Take(cfg, s, key, now).1.Denied?
    requires later >= now + 1000.0 * Take(cfg, s, key, now).1.retryAfterSeconds as real
    ensures now <= later
    ensures Sound(cfg, Take(cfg, s, key, now).0.buckets, now)
    ensures TokensAt(cfg, Take(cfg, s, key, now).0.buckets, key, later) >= 1.0
  {
    hide Gain, Refilled;
    var (t, denied) := Take(cfg, s, key, now);
    TakeFacts(cfg, s, key, now, key, now);
    var tokens, seconds := t.buckets[key].tokens, denied.retryAfterSeconds;
    assert t.buckets[key].updatedAt == now;
    RefillGrows(cfg, t.buckets[key], now, now);
    assert seconds as real >= (1.0 - tokens) / cfg.rate && seconds >= 1;
    EnoughAfter(cfg, tokens, now, later, seconds as real);
    FilledAfter(cfg, t.buckets[key], now, later);
  }

  lemma FilledAfter(cfg: Config, b: Bucket, now: real, later: real)
    requires cfg.Valid() && b.updatedAt == now && b.tokens + Gain(cfg, now, later) >= 1.0
    ensures Refilled(cfg, b, later) >= 1.0
  {
    hide Gain;
  }

  lemma EnoughAfter(cfg: Config, tokens: real, now: real, later: real, seconds: real)
    requires cfg.Valid() && seconds >= (1.0 - tokens) / cfg.rate && seconds >= 0.0
    requires later >= now + 1000.0 * seconds
    ensures tokens + Gain(cfg, now, later) >= 1.0
  {
    MulLe((1.0 - tokens) / cfg.rate, seconds, cfg.rate);
    DivMul(1.0 - tokens, cfg.rate);
    MulLe(seconds, Elapsed(now, later), cfg.rate);
  }
}
