/**
 The webhook rate limiters: one per subscription and one per target host, shared by every
 subscription on that host. `throttle` waits until both have a token and then spends from
 both. Time is in milliseconds and never runs backwards; tokens are real numbers.
 */
module Throttle {
  import R = RateLimit

  /** Whose limiter: a subscription's own, or the one its host shares. */
  datatype Owner = Subscription(id: nat) | Host(name: string)

  /** Allowances per minute for every owner, and the host each subscription targets. */
  datatype Config = Config(perMinute: Owner -> real, hostOf: nat -> string)

  ghost predicate ValidConfig(cfg: Config) {
    forall owner: Owner :: cfg.perMinute(owner) > 0.0
  }

  /** The burst is a tenth of a minute's allowance, at least one. */
  function Capacity(perMinute: real): (c: int)
    ensures c >= 1
  {
    var tenth := R.Ceil(perMinute / 10.0);
    if tenth < 1 then 1 else tenth
  }

  datatype Limiter = Limiter(tokens: real, last: real)

  function Refill(perMinute: real, l: Limiter, now: real): Limiter {
    Limiter(R.MinReal(Capacity(perMinute) as real, l.tokens + ((now - l.last) * perMinute) / 60000.0), now)
  }

  /** Milliseconds until a token is available; does not consume. */
  function WaitMs(perMinute: real, l: Limiter): int
    requires perMinute > 0.0
  {
    if l.tokens >= 1.0 then 0 else R.Ceil(((1.0 - l.tokens) * 60000.0) / perMinute)
  }

  class RateLimiter {
    const perMinute: real
    const capacity: int
    var tokens: real
    var last: real

    ghost function View(): Limiter
      reads this
    {
      Limiter(tokens, last)
    }

    constructor (perMinute: real, now: real)
      ensures this.perMinute == perMinute && capacity == Capacity(perMinute)
      ensures View() == Limiter(Capacity(perMinute) as real, now)
    {
      this.perMinute, this.capacity := perMinute, Capacity(perMinute);
      tokens, last := Capacity(perMinute) as real, now;
    }

    method RefillTo(now: real)
      requires capacity == Capacity(perMinute)
      modifies this
      ensures View() == Refill(perMinute, old(View()), now)
    {
      tokens := R.MinReal(capacity as real, tokens + ((now - last) * perMinute) / 60000.0);
      last := now;
    }

    method Wait(now: real) returns (ms: int)
      requires perMinute > 0.0 && capacity == Capacity(perMinute)
      modifies this
      ensures View() == Refill(perMinute, old(View()), now) && ms == WaitMs(perMinute, View())
    {
      RefillTo(now);
      if tokens >= 1.0 { return 0; }
      ms := R.Ceil(((1.0 - tokens) * 60000.0) / perMinute);
    }

    method Consume(now: real)
      requires capacity == Capacity(perMinute)
      modifies this
      ensures View() == Spent(perMinute, old(View()), now)
    {
      RefillTo(now);
      tokens := tokens - 1.0;
    }
  }

  function Spent(perMinute: real, l: Limiter, now: real): Limiter {
    var full := Refill(perMinute, l, now);
    full.(tokens := full.tokens - 1.0)
  }

  // ---------------------------------------------------------------- one limiter

  /** A limiter is a token bucket refilled at a sixtieth of the allowance per second. */
  function Bucket(perMinute: real): R.Config {
    R.Config(perMinute / 60.0, Capacity(perMinute))
  }

  function AsBucket(l: Limiter): R.Bucket {
    R.Bucket(l.tokens, l.last)
  }

  ghost predicate Sound(perMinute: real, l: Limiter, now: real) {
    R.SoundBucket(Bucket(perMinute), AsBucket(l), now)
  }

  function TokensAt(perMinute: real, l: Limiter, now: real): real {
    R.Refilled(Bucket(perMinute), AsBucket(l), now)
  }

  function Gain(perMinute: real, from: real, to: real): real {
    R.Gain(Bucket(perMinute), from, to)
  }

  lemma RefillIsBucketRefill(perMinute: real, l: Limiter, now: real)
    requires perMinute > 0.0 && l.last <= now
    ensures Refill(perMinute, l, now).tokens == TokensAt(perMinute, l, now)
  {
    var d := now - l.last;
    assert (d / 1000.0) * (perMinute / 60.0) == (d * perMinute) / 60000.0;
  }

  lemma BucketValid(perMinute: real)
    requires perMinute > 0.0
    ensures Bucket(perMinute).Valid()
  {
  }

  /** Refilling changes nothing about the tokens available later. */
  lemma RefillKeepsTokens(perMinute: real, l: Limiter, now: real, later: real)
    requires perMinute > 0.0 && Sound(perMinute, l, now) && now <= later
    ensures Sound(perMinute, Refill(perMinute, l, now), now)
    ensures TokensAt(perMinute, Refill(perMinute, l, now), later) == TokensAt(perMinute, l, later)
  {
    hide R.Gain, Refill;
    BucketValid(perMinute);
    RefillIsBucketRefill(perMinute, l, now);
    RefillLast(perMinute, l, now);
    R.RefillGrows(Bucket(perMinute), AsBucket(l), now, later);
    R.GainAdds(Bucket(perMinute), l.last, now, later);
  }

  lemma RefillLast(perMinute: real, l: Limiter, now: real)
    ensures Refill(perMinute, l, now).last == now
  {
  }

  /** Spending when a token is there takes exactly one and leaves none below zero. */
  lemma SpentFacts(perMinute: real, l: Limiter, now: real)
    requires perMinute > 0.0 && Sound(perMinute, l, now) && TokensAt(perMinute, l, now) >= 1.0
    ensures Sound(perMinute, Spent(perMinute, l, now), now)
    ensures TokensAt(perMinute, Spent(perMinute, l, now), now) == TokensAt(perMinute, l, now) - 1.0
  {
    hide R.Gain, Refill;
    BucketValid(perMinute);
    RefillIsBucketRefill(perMinute, l, now);
    RefillLast(perMinute, l, now);
    R.RefillGrows(Bucket(perMinute), AsBucket(l), now, now);
    R.RefillGrows(Bucket(perMinute), AsBucket(Spent(perMinute, l, now)), now, now);
  }

  lemma TokensGrow(perMinute: real, l: Limiter, now: real, later: real)
    requires perMinute > 0.0 && Sound(perMinute, l, now) && now <= later
    ensures Sound(perMinute, l, later)
    ensures TokensAt(perMinute, l, now) <= TokensAt(perMinute, l, later) <= TokensAt(perMinute, l, now) + Gain(perMinute, now, later)
    ensures 0.0 <= TokensAt(perMinute, l, now) <= Capacity(perMinute) as real
  {
    hide R.Gain, R.Refilled;
    BucketValid(perMinute);
    R.RefillGrows(Bucket(perMinute), AsBucket(l), now, later);
  }

  lemma WaitCovers(perMinute: real, l: Limiter)
    requires perMinute > 0.0 && l.tokens < 1.0
    ensures WaitMs(perMinute, l) as real * perMinute >= (1.0 - l.tokens) * 60000.0
    ensures WaitMs(perMinute, l) > 0
  {
    var need, ms := (1.0 - l.tokens) * 60000.0, WaitMs(perMinute, l) as real;
    R.DivMul(need, perMinute);
    assert need / perMinute <= ms;
    R.MulLe(need / perMinute, ms, perMinute);
    if ms <= 0.0 { R.MulLe(ms, 0.0, perMinute); }
  }

  /** With no other spender, sleeping for the wait that was returned makes a token available. */
  lemma WaitSuffices(perMinute: real, l: Limiter, now: real, later: real)
    requires perMinute > 0.0 && Sound(perMinute, l, now)
    requires later >= now + WaitMs(perMinute, Refill(perMinute, l, now)) as real
    ensures now <= later && TokensAt(perMinute, l, later) >= 1.0
    ensures WaitMs(perMinute, Refill(perMinute, l, now)) > 0 <==> TokensAt(perMinute, l, now) < 1.0
  {
    hide Refill, R.Refilled, R.Gain;
    var full := Refill(perMinute, l, now);
    RefillIsBucketRefill(perMinute, l, now);
    RefillLast(perMinute, l, now);
    if full.tokens < 1.0 {
      WaitCovers(perMinute, full);
      EnoughLater(perMinute, full, now, later, WaitMs(perMinute, full) as real);
      RefillKeepsTokens(perMinute, l, now, later);
    } else {
      assert WaitMs(perMinute, full) == 0;
      TokensGrow(perMinute, l, now, later);
    }
  }

  lemma EnoughLater(perMinute: real, l: Limiter, now: real, later: real, ms: real)
    requires perMinute > 0.0 && l.last == now && ms >= 0.0 && later >= now + ms
    requires ms * perMinute >= (1.0 - l.tokens) * 60000.0
    ensures TokensAt(perMinute, l, later) >= 1.0
  {
    R.MulLe(ms, later - now, perMinute);
    RefillIsBucketRefill(perMinute, l, later);
    assert ((later - now) * perMinute) / 60000.0 >= 1.0 - l.tokens;
  }

  // ---------------------------------------------------------------- throttling, shared

  /** Limiters by owner; a host's is made when first needed, with a full bucket. */
  type Limiters = map<Owner, Limiter>

  function Of(cfg: Config, limiters: Limiters, owner: Owner, now: real): Limiter {
    if owner in limiters then limiters[owner] else Limiter(Capacity(cfg.perMinute(owner)) as real, now)
  }

  /** One pass of the loop in `throttle`, with the clock read before each of its four calls. */
  datatype Pass = Pass(sub: nat, t1: real, t2: real, t3: real, t4: real)

  ghost predicate Ticks(p: Pass, start: real) {
    start <= p.t1 <= p.t2 <= p.t3 <= p.t4
  }

  /** Look at both budgets; when neither asks to wait, spend from both. */
  function Try(cfg: Config, limiters: Limiters, p: Pass): (Limiters, bool)
    requires cfg.perMinute(Subscription(p.sub)) > 0.0 && cfg.perMinute(Host(cfg.hostOf(p.sub))) > 0.0
  {
    var own, host := Subscription(p.sub), Host(cfg.hostOf(p.sub));
    var a := Refill(cfg.perMinute(own), Of(cfg, limiters, own, p.t1), p.t1);
    var b := Refill(cfg.perMinute(host), Of(cfg, limiters, host, p.t1), p.t2);
    if WaitMs(cfg.perMinute(own), a) <= 0 && WaitMs(cfg.perMinute(host), b) <= 0 then
      (limiters[own := Spent(cfg.perMinute(own), a, p.t3)][host := Spent(cfg.perMinute(host), b, p.t4)], true)
    else (limiters[own := a][host := b], false)
  }

  predicate Uses(cfg: Config, p: Pass, owner: Owner) {
    owner == Subscription(p.sub) || owner == Host(cfg.hostOf(p.sub))
  }

  ghost predicate AllSound(cfg: Config, limiters: Limiters, now: real) {
    forall owner | owner in limiters :: Sound(cfg.perMinute(owner), limiters[owner], now)
  }

  /** Tokens an owner has at `now`. */
  ghost function Available(cfg: Config, limiters: Limiters, owner: Owner, now: real): real {
    TokensAt(cfg.perMinute(owner), Of(cfg, limiters, owner, now), now)
  }

  lemma WaitIff(perMinute: real, l: Limiter)
    requires perMinute > 0.0
    ensures WaitMs(perMinute, l) <= 0 <==> l.tokens >= 1.0
  {
    if l.tokens < 1.0 { WaitCovers(perMinute, l); }
  }

  /** A limiter looked at and possibly spent from, one call after the other. */
  lemma LookThenSpend(perMinute: real, l: Limiter, start: real, look: real, spend: real, end: real)
    requires perMinute > 0.0 && Sound(perMinute, l, start) && start <= look <= spend <= end
    ensures var seen := Refill(perMinute, l, look);
            && Sound(perMinute, seen, end) && TokensAt(perMinute, seen, end) == TokensAt(perMinute, l, end)
            && (seen.tokens >= 1.0 ==>
                  && Sound(perMinute, Spent(perMinute, seen, spend), end)
                  && TokensAt(perMinute, Spent(perMinute, seen, spend), end) + 1.0 <=
                     TokensAt(perMinute, l, start) + Gain(perMinute, start, end))
  {
    hide Refill, Spent, TokensAt, Gain, Sound, R.Gain;
    var seen := Refill(perMinute, l, look);
    TokensGrow(perMinute, l, start, look);
    RefillKeepsTokens(perMinute, l, look, end);
    RefillKeepsTokens(perMinute, l, look, spend);
    RefillIsBucket(perMinute, l, look);
    TokensGrow(perMinute, seen, look, end);
    TokensGrow(perMinute, seen, look, spend);
    if seen.tokens >= 1.0 {
      SeenTokens(perMinute, l, look);
      SpentFacts(perMinute, seen, spend);
      TokensGrow(perMinute, Spent(perMinute, seen, spend), spend, end);
      TokensGrow(perMinute, l, start, spend);
      GainSplits(perMinute, start, spend, end);
    }
  }

  lemma RefillIsBucket(perMinute: real, l: Limiter, now: real)
    requires perMinute > 0.0 && Sound(perMinute, l, now)
    ensures Refill(perMinute, l, now).tokens == TokensAt(perMinute, l, now)
  {
    RefillIsBucketRefill(perMinute, l, now);
  }

  lemma SeenTokens(perMinute: real, l: Limiter, now: real)
    requires perMinute > 0.0 && Sound(perMinute, l, now)
    ensures TokensAt(perMinute, Refill(perMinute, l, now), now) == Refill(perMinute, l, now).tokens
  {
    RefillIsBucket(perMinute, l, now);
    RefillKeepsTokens(perMinute, l, now, now);
  }

  lemma GainSplits(perMinute: real, a: real, b: real, c: real)
    requires perMinute > 0.0 && a <= b <= c
    ensures Gain(perMinute, a, c) == Gain(perMinute, a, b) + Gain(perMinute, b, c)
    ensures Gain(perMinute, a, b) >= 0.0 && Gain(perMinute, b, c) >= 0.0
  {
    BucketValid(perMinute);
    R.GainAdds(Bucket(perMinute), a, b, c);
  }

  /** What one pass does to one of its two limiters. */
  lemma OwnerPass(cfg: Config, limiters: Limiters, owner: Owner, start: real, made: real, look: real, spend: real, end: real)
    requires ValidConfig(cfg) && AllSound(cfg, limiters, start)
    requires start <= made <= look <= spend <= end
    ensures var perMinute := cfg.perMinute(owner);
            var seen := Refill(perMinute, Of(cfg, limiters, owner, made), look);
            && Sound(perMinute, seen, end)
            && TokensAt(perMinute, seen, end) <= Available(cfg, limiters, owner, start) + Gain(perMinute, start, end)
            && (seen.tokens >= 1.0 ==>
                  && Sound(perMinute, Spent(perMinute, seen, spend), end)
                  && TokensAt(perMinute, Spent(perMinute, seen, spend), end) + 1.0 <=
                     Available(cfg, limiters, owner, start) + Gain(perMinute, start, end))
  {
    hide Refill, Spent, TokensAt, Gain, R.Gain;
    var perMinute, l := cfg.perMinute(owner), Of(cfg, limiters, owner, made);
    GainSplits(perMinute, start, made, end);
    if owner in limiters {
      LookThenSpend(perMinute, l, start, look, spend, end);
      TokensGrow(perMinute, l, start, end);
    } else {
      LookThenSpend(perMinute, l, made, look, spend, end);
      TokensGrow(perMinute, l, made, end);
      FullTokens(perMinute, made);
      FullTokens(perMinute, start);
    }
  }

  lemma FullTokens(perMinute: real, now: real)
    requires perMinute > 0.0
    ensures TokensAt(perMinute, Limiter(Capacity(perMinute) as real, now), now) == Capacity(perMinute) as real
  {
    BucketValid(perMinute);
    R.GainAdds(Bucket(perMinute), now, now, now);
  }

  lemma OthersKeep(cfg: Config, limiters: Limiters, owner: Owner, start: real, end: real)
    requires ValidConfig(cfg) && AllSound(cfg, limiters, start) && start <= end
    ensures Available(cfg, limiters, owner, end) <= Available(cfg, limiters, owner, start) + Gain(cfg.perMinute(owner), start, end)
    ensures Available(cfg, limiters, owner, end) >= 0.0
    ensures Available(cfg, limiters, owner, start) <= Capacity(cfg.perMinute(owner)) as real
  {
    hide TokensAt, Gain;
    var perMinute := cfg.perMinute(owner);
    GainSplits(perMinute, start, start, end);
    if owner in limiters {
      TokensGrow(perMinute, limiters[owner], start, end);
      TokensGrow(perMinute, limiters[owner], end, end);
    } else {
      FullTokens(perMinute, start);
      FullTokens(perMinute, end);
    }
  }

  lemma LaterSound(cfg: Config, limiters: Limiters, start: real, end: real)
    requires AllSound(cfg, limiters, start) && start <= end
    ensures AllSound(cfg, limiters, end)
  {
  }

  /** One pass conserves the tokens of every owner: an attempt costs one of each it uses. */
  lemma TryFacts(cfg: Config, limiters: Limiters, p: Pass, owner: Owner, start: real)
    requires ValidConfig(cfg) && AllSound(cfg, limiters, start) && Ticks(p, start)
    ensures var (after, attempted) := Try(cfg, limiters, p);
            && AllSound(cfg, after, p.t4)
            && Available(cfg, after, owner, p.t4) + (if attempted && Uses(cfg, p, owner) then 1.0 else 0.0) <=
               Available(cfg, limiters, owner, start) + Gain(cfg.perMinute(owner), start, p.t4)
  {
    hide Refill, Spent, TokensAt, Gain, WaitMs, Sound;
    var own, host := Subscription(p.sub), Host(cfg.hostOf(p.sub));
    OwnerPass(cfg, limiters, own, start, p.t1, p.t1, p.t3, p.t4);
    OwnerPass(cfg, limiters, host, start, p.t1, p.t2, p.t4, p.t4);
    OthersKeep(cfg, limiters, owner, start, p.t4);
    LaterSound(cfg, limiters, start, p.t4);
    WaitIff(cfg.perMinute(own), Refill(cfg.perMinute(own), Of(cfg, limiters, own, p.t1), p.t1));
    WaitIff(cfg.perMinute(host), Refill(cfg.perMinute(host), Of(cfg, limiters, host, p.t1), p.t2));
  }

  // ---------------------------------------------------------------- any number of pumps

  /** Passes of any number of pumps, one after another as the event loop runs them. */
  ghost predicate Clock(passes: seq<Pass>, start: real)
    decreases |passes|
  {
    passes != [] ==> Ticks(passes[0], start) && Clock(passes[1..], passes[0].t4)
  }

  function End(passes: seq<Pass>, start: real): real {
    if passes == [] then start else passes[|passes| - 1].t4
  }

  /** How many of the passes spent a token of `owner`. */
  ghost function Attempts(cfg: Config, limiters: Limiters, passes: seq<Pass>, owner: Owner): nat
    requires ValidConfig(cfg)
    decreases |passes|
  {
    if passes == [] then 0
    else
      var (after, attempted) := Try(cfg, limiters, passes[0]);
      (if attempted && Uses(cfg, passes[0], owner) then 1 else 0) + Attempts(cfg, after, passes[1..], owner)
  }

  ghost function After(cfg: Config, limiters: Limiters, passes: seq<Pass>): Limiters
    requires ValidConfig(cfg)
    decreases |passes|
  {
    if passes == [] then limiters else After(cfg, Try(cfg, limiters, passes[0]).0, passes[1..])
  }

  lemma {:induction false} AttemptsConserve(cfg: Config, limiters: Limiters, passes: seq<Pass>, owner: Owner, start: real)
    requires ValidConfig(cfg) && AllSound(cfg, limiters, start) && Clock(passes, start)
    ensures start <= End(passes, start) && AllSound(cfg, After(cfg, limiters, passes), End(passes, start))
    ensures Attempts(cfg, limiters, passes, owner) as real +
            Available(cfg, After(cfg, limiters, passes), owner, End(passes, start)) <=
            Available(cfg, limiters, owner, start) + Gain(cfg.perMinute(owner), start, End(passes, start))
    decreases |passes|
  {
    hide Try, TokensAt, Gain;
    if passes == [] {
      GainSplits(cfg.perMinute(owner), start, start, start);
    } else {
      var p := passes[0];
      var after := Try(cfg, limiters, p).0;
      TryFacts(cfg, limiters, p, owner, start);
      AttemptsConserve(cfg, after, passes[1..], owner, p.t4);
      assert End(passes, start) == End(passes[1..], p.t4);
      GainSplits(cfg.perMinute(owner), start, p.t4, End(passes, start));
    }
  }

  /**
   Attempts to one subscription, and to all subscriptions sharing a host, in any stretch of
   time are at most the burst plus the allowance for its length, however many pumps run.
   */
  lemma SharedCeiling(cfg: Config, limiters: Limiters, passes: seq<Pass>, owner: Owner, start: real)
    requires ValidConfig(cfg) && AllSound(cfg, limiters, start) && Clock(passes, start)
    ensures Attempts(cfg, limiters, passes, owner) as real <=
            Capacity(cfg.perMinute(owner)) as real + Gain(cfg.perMinute(owner), start, End(passes, start))
  {
    hide TokensAt, Gain, Attempts, After;
    AttemptsConserve(cfg, limiters, passes, owner, start);
    var end := End(passes, start);
    OthersKeep(cfg, limiters, owner, start, end);
    OthersKeep(cfg, After(cfg, limiters, passes), owner, end, end);
  }

  /** The gain is the allowance per minute for the time that passed. */
  lemma GainIsAllowance(perMinute: real, from: real, to: real)
    requires from <= to
    ensures Gain(perMinute, from, to) == ((to - from) * perMinute) / 60000.0
  {
    var d := to - from;
    assert (d / 1000.0) * (perMinute / 60.0) == (d * perMinute) / 60000.0;
  }

  /** No limiter ever holds less than no tokens, whatever passes ran before. */
  lemma NeverNegative(cfg: Config, passes: seq<Pass>, owner: Owner, start: real)
    requires ValidConfig(cfg) && Clock(passes, start)
    requires owner in After(cfg, map[], passes)
    ensures 0.0 <= After(cfg, map[], passes)[owner].tokens <= Capacity(cfg.perMinute(owner)) as real
  {
    AttemptsConserve(cfg, map[], passes, owner, start);
  }
}
