/** src/jibit/retry.py and the retry part of src/jibit/config.py. */
module Retry {
  import opened PyValues

  datatype OperationSafety = ReadOnly | Idempotent | IdempotencyProtected | Unsafe

  const TRANSIENT_STATUS_CODES: set<int> := {408, 425, 429, 500, 502, 503, 504}

  datatype RetryConfig = RetryConfig(maxAttempts: int, baseDelay: real, maxDelay: real, jitterRatio: real)
  {
    /** The field bounds and the validator of the configuration model. */
    predicate Valid() {
      && 1 <= maxAttempts <= 10
      && 0.0 <= baseDelay <= maxDelay
      && 0.0 <= jitterRatio <= 1.0
    }
  }

  datatype Reason =
    | AttemptLimit | UnsafeOperation | MissingIdempotencyKey | NonTransientResponse
    | TransportErrorReason | HttpStatus(status: int)

  datatype RetryDecision = RetryDecision(shouldRetry: bool, delay: real, reason: Reason)

  /** How one attempt ended: an HTTP status, or a transport failure. */
  datatype Ending = HttpEnding(status: int) | TransportEnding

  function MinReal(a: real, b: real): real { if b < a then b else a }

  /** 2 to the power `n`. */
  function Pow2(n: nat): (r: real)
    ensures r >= 1.0
  {
    if n == 0 then 1.0 else 2.0 * Pow2(n - 1)
  }

  /** `draw` is the value the random source returns when it is asked. */
  function Decide(config: RetryConfig, attempt: int, safety: OperationSafety, ending: Ending, hasIdempotencyKey: bool,
      draw: real): RetryDecision
    requires attempt >= 1
  {
    if attempt >= config.maxAttempts then RetryDecision(false, 0.0, AttemptLimit)
    else if safety == Unsafe then RetryDecision(false, 0.0, UnsafeOperation)
    else if safety == IdempotencyProtected && !hasIdempotencyKey then RetryDecision(false, 0.0, MissingIdempotencyKey)
    else if ending.HttpEnding? && ending.status !in TRANSIENT_STATUS_CODES then
      RetryDecision(false, 0.0, NonTransientResponse)
    else
      var base := MinReal(config.maxDelay, config.baseDelay * Pow2(attempt - 1));
      var jitter := base * config.jitterRatio * draw;
      var reason := if ending.TransportEnding? then TransportErrorReason else HttpStatus(ending.status);
      RetryDecision(true, MinReal(config.maxDelay, base + jitter), reason)
  }

  // ----- Reference notions -----

  /** The operations the retry documentation allows to be sent again. */
  predicate Repeatable(safety: OperationSafety, hasIdempotencyKey: bool) {
    match safety
    case ReadOnly => true
    case Idempotent => true
    case IdempotencyProtected => hasIdempotencyKey
    case Unsafe => false
  }

  predicate TransientEnding(ending: Ending) {
    ending.TransportEnding? || ending.status in TRANSIENT_STATUS_CODES
  }

  /** A base delay with jitter on top, both capped. */
  function Jittered(base: real, ratio: real, draw: real): real {
    base + Share(Share(base, ratio), draw)
  }

  function Share(amount: real, share: real): real {
    amount * share
  }

  /** The delay chosen after attempt `attempt` when a retry is scheduled. */
  function Delay(config: RetryConfig, attempt: int, draw: real): real
    requires attempt >= 1
  {
    var base := MinReal(config.maxDelay, config.baseDelay * Pow2(attempt - 1));
    MinReal(config.maxDelay, Jittered(base, config.jitterRatio, draw))
  }

  /** A retry happens exactly for an unused attempt of an operation that may be repeated, after a transport failure
      or one of seven statuses. */
  lemma DecideExactly(config: RetryConfig, attempt: int, safety: OperationSafety, ending: Ending, hasKey: bool,
      draw: real)
    requires attempt >= 1
    ensures var d := Decide(config, attempt, safety, ending, hasKey, draw);
      && (d.shouldRetry <==>
            && attempt < config.maxAttempts
            && (safety == ReadOnly || safety == Idempotent || (safety == IdempotencyProtected && hasKey))
            && (ending.TransportEnding? || ending.status in {408, 425, 429, 500, 502, 503, 504}))
      && (d.shouldRetry ==> d.delay == Delay(config, attempt, draw))
      && (d.shouldRetry ==>
            d.reason == if ending.TransportEnding? then TransportErrorReason else HttpStatus(ending.status))
  {
  }

  /** What may be repeated, and which endings are transient. */
  lemma RepeatableExactly(safety: OperationSafety, hasKey: bool, ending: Ending)
    ensures Repeatable(safety, hasKey)
      <==> safety == ReadOnly || safety == Idempotent || (safety == IdempotencyProtected && hasKey)
    ensures TransientEnding(ending)
      <==> ending.TransportEnding? || ending.status in {408, 425, 429, 500, 502, 503, 504}
  {
  }

  // ----- Backoff arithmetic -----

  lemma MulMonotone(x: real, y: real, c: real)
    requires x <= y && 0.0 <= c
    ensures x * c <= y * c && c * x <= c * y
  {
  }

  lemma Distributes(a: real, b: real, c: real)
    ensures a * (b + c) == a * b + a * c
  {
  }

  lemma JitterBounds(base: real, ratio: real, draw: real)
    requires 0.0 <= base && 0.0 <= ratio <= 1.0 && 0.0 <= draw <= 1.0
    ensures base <= Jittered(base, ratio, draw) <= base * (1.0 + ratio)
    ensures Jittered(base, ratio, draw) <= 2.0 * base
  {
    hide Jittered;
    JitterAdds(base, ratio, draw);
    FullJitter(base, ratio);
  }

  /** Jitter adds at most the ratio's share of the base. */
  lemma JitterAdds(base: real, ratio: real, draw: real)
    requires 0.0 <= base && 0.0 <= ratio <= 1.0 && 0.0 <= draw <= 1.0
    ensures base <= Jittered(base, ratio, draw) <= base + Share(base, ratio)
  {
    hide Share;
    ShareBounds(base, ratio);
    ShareBounds(Share(base, ratio), draw);
  }

  lemma FullJitter(base: real, ratio: real)
    requires 0.0 <= base && 0.0 <= ratio <= 1.0
    ensures base * (1.0 + ratio) == base + Share(base, ratio) <= 2.0 * base
  {
    ShareBounds(base, ratio);
    Distributes(base, 1.0, ratio);
  }

  /** A share of an amount lies between nothing and the amount. */
  lemma ShareBounds(amount: real, share: real)
    requires 0.0 <= amount && 0.0 <= share <= 1.0
    ensures 0.0 <= Share(amount, share) <= amount
  {
    MulMonotone(0.0, share, amount);
    MulMonotone(share, 1.0, amount);
  }

  lemma Reordered(x: real, y: real, z: real)
    ensures x * y * z == z * (y * x)
  {
  }

  /** The delay before the cap: the base doubled for every attempt already made. */
  function Uncapped(config: RetryConfig, attempt: int): (full: real)
    requires config.Valid() && attempt >= 1
    ensures 0.0 <= full
  {
    MulMonotone(0.0, config.baseDelay, Pow2(attempt - 1));
    config.baseDelay * Pow2(attempt - 1)
  }

  lemma UncappedDoubles(config: RetryConfig, attempt: int)
    requires config.Valid() && attempt >= 1
    ensures Uncapped(config, attempt + 1) == 2.0 * Uncapped(config, attempt)
  {
    assert Pow2(attempt) == 2.0 * Pow2(attempt - 1);
  }

  /** The delay in terms of the delay before the cap. */
  lemma DelayByBase(config: RetryConfig, attempt: int, draw: real)
    requires config.Valid() && attempt >= 1
    ensures Delay(config, attempt, draw)
      == var base := MinReal(config.maxDelay, Uncapped(config, attempt));
         MinReal(config.maxDelay, Jittered(base, config.jitterRatio, draw))
  {
    hide Jittered, Pow2;
  }

  /** Every delay lies between zero and the configured maximum. */
  lemma DelayBounded(config: RetryConfig, attempt: int, draw: real)
    requires config.Valid() && attempt >= 1 && 0.0 <= draw <= 1.0
    ensures 0.0 <= Delay(config, attempt, draw) <= config.maxDelay
    ensures Delay(config, attempt, draw) <= Uncapped(config, attempt) * (1.0 + config.jitterRatio)
  {
    hide Delay, Uncapped, Jittered;
    DelayByBase(config, attempt, draw);
    var full := Uncapped(config, attempt);
    var base := MinReal(config.maxDelay, full);
    JitterBounds(base, config.jitterRatio, draw);
    MulMonotone(base, full, 1.0 + config.jitterRatio);
  }

  /** The powers are those of two. */
  lemma PowersOfTwo(n: nat)
    ensures Pow2(0) == 1.0 && Pow2(n + 1) == 2.0 * Pow2(n)
  {
  }

  lemma UncappedIs(config: RetryConfig, attempt: int)
    requires config.Valid() && attempt >= 1
    ensures Uncapped(config, attempt) == config.baseDelay * Pow2(attempt - 1)
  {
    hide Pow2;
  }

  /** The delay itself: the base delay doubled for every attempt before this one and capped, raised by the drawn
      share of the jitter ratio, and capped again. So it is never below the capped base, and equal to it for the
      draw zero. */
  lemma DelayExactly(config: RetryConfig, attempt: int, draw: real)
    requires config.Valid() && attempt >= 1 && 0.0 <= draw <= 1.0
    ensures
      var doubled := config.baseDelay * Pow2(attempt - 1);
      var base := if doubled < config.maxDelay then doubled else config.maxDelay;
      var jittered := base + draw * (config.jitterRatio * base);
      && Delay(config, attempt, draw) == (if jittered < config.maxDelay then jittered else config.maxDelay)
      && base <= Delay(config, attempt, draw)
      && (draw == 0.0 ==> Delay(config, attempt, draw) == base)
  {
    hide Delay, Uncapped, Pow2, Jittered, Share;
    DelayByBase(config, attempt, draw);
    UncappedIs(config, attempt);
    var base := MinReal(config.maxDelay, Uncapped(config, attempt));
    JitterAdds(base, config.jitterRatio, draw);
    JitterIs(base, config.jitterRatio, draw);
  }

  lemma JitterIs(base: real, ratio: real, draw: real)
    ensures Jittered(base, ratio, draw) == base + draw * (ratio * base)
    ensures draw == 0.0 ==> Jittered(base, ratio, draw) == base
  {
    Reordered(base, ratio, draw);
  }

  /** Whatever the two draws, the next delay is never shorter: the base doubles while jitter adds at most the base. */
  lemma DelayNeverDecreases(config: RetryConfig, attempt: int, draw: real, nextDraw: real)
    requires config.Valid() && attempt >= 1 && 0.0 <= draw <= 1.0 && 0.0 <= nextDraw <= 1.0
    ensures Delay(config, attempt, draw) <= Delay(config, attempt + 1, nextDraw)
  {
    hide Delay, Uncapped, Jittered;
    DelayByBase(config, attempt, draw);
    DelayByBase(config, attempt + 1, nextDraw);
    UncappedDoubles(config, attempt);
    var base := MinReal(config.maxDelay, Uncapped(config, attempt));
    var next := MinReal(config.maxDelay, Uncapped(config, attempt + 1));
    JitterBounds(base, config.jitterRatio, draw);
    JitterBounds(next, config.jitterRatio, nextDraw);
    assert Delay(config, attempt, draw) <= MinReal(config.maxDelay, 2.0 * base) <= next;
    assert next <= Delay(config, attempt + 1, nextDraw);
  }

  /** The delays of a run that was retried `n` times. */
  function Delays(config: RetryConfig, draws: nat -> real, first: nat, n: nat): (delays: seq<real>)
    ensures |delays| == n
  {
    seq(n, i requires 0 <= i => Delay(config, i + 1, draws(first + i)))
  }

  lemma {:induction false} DelaysGrow(config: RetryConfig, draws: nat -> real, first: nat, n: nat, i: nat, j: nat)
    requires config.Valid() && UnitDraws(draws) && i <= j < n
    ensures var delays := Delays(config, draws, first, n);
      0.0 <= delays[i] <= delays[j] <= config.maxDelay
    decreases j - i
  {
    DelayBounded(config, i + 1, draws(first + i));
    if i < j {
      DelayNeverDecreases(config, i + 1, draws(first + i), draws(first + i + 1));
      DelaysGrow(config, draws, first, n, i + 1, j);
    }
  }

  function Sum(xs: seq<real>): real {
    if xs == [] then 0.0 else Sum(xs[..|xs| - 1]) + xs[|xs| - 1]
  }

  lemma SumOfOne(x: real)
    ensures Sum([]) == 0.0 && Sum([x]) == x
  {
    assert [x][..0] == [];
  }

  ghost predicate UnitDraws(draws: nat -> real) {
    forall i: nat :: 0.0 <= draws(i) <= 1.0
  }

  /** `n` delays of the maximal length. */
  function FlatBound(config: RetryConfig, n: nat): real {
    n as real * config.maxDelay
  }

  /** The sum of the first `n` uncapped delays under full jitter. */
  function GeometricBound(config: RetryConfig, n: nat): real {
    config.baseDelay * (1.0 + config.jitterRatio) * (Pow2(n) - 1.0)
  }

  lemma BoundsStep(config: RetryConfig, n: nat)
    requires config.Valid() && n > 0
    ensures FlatBound(config, n) == FlatBound(config, n - 1) + config.maxDelay
    ensures GeometricBound(config, n) == GeometricBound(config, n - 1)
        + Uncapped(config, n) * (1.0 + config.jitterRatio)
  {
    Distributes(config.maxDelay, (n - 1) as real, 1.0);
    var a, p, c := config.baseDelay, Pow2(n - 1), 1.0 + config.jitterRatio;
    GeometricIdentity(a, p, c);
    assert Pow2(n) == 2.0 * p;
  }

  lemma GeometricIdentity(a: real, p: real, c: real)
    ensures a * c * (2.0 * p - 1.0) == a * c * (p - 1.0) + (a * p) * c
  {
    assert (a * p) * c == (a * c) * p;
  }

  /** A run with `n` retries sleeps at most `n` maximal delays, and at most the geometric sum of the jittered base. */
  lemma {:induction false} TotalDelayBounds(config: RetryConfig, draws: nat -> real, first: nat, n: nat)
    requires config.Valid() && UnitDraws(draws)
    ensures 0.0 <= Sum(Delays(config, draws, first, n)) <= FlatBound(config, n)
    ensures Sum(Delays(config, draws, first, n)) <= GeometricBound(config, n)
  {
    var all := Delays(config, draws, first, n);
    if n == 0 {
      assert all == [];
    } else {
      TotalDelayBounds(config, draws, first, n - 1);
      assert all[..n - 1] == Delays(config, draws, first, n - 1);
      DelayBounded(config, n, draws(first + n - 1));
      BoundsStep(config, n);
    }
  }
}
