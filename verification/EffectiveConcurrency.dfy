/**
 The concurrency a model is allowed right now: the request rate its limits imply times its
 latency (Little's law), scaled by the backoff factor and clamped to the ceiling. The program
 derives it twice, in TypeScript and in Lua.
 */
module EffectiveConcurrency {
  import opened Wrappers
  import opened RealFacts
  import opened Adaptive

  const BIG: real := 1000000000000000.0

  function Ceil(x: real): int { -((-x).Floor) }
  function RoundHalfUp(x: real): int { (x + 0.5).Floor }

  function RpmRate(rpmLimit: int): real {
    if rpmLimit > 0 then Over(rpmLimit as real, 60.0) else BIG
  }

  function TpmRate(tpmLimit: int, tokens: real): real
    requires tokens > 0.0
  {
    if tpmLimit > 0 then Over(Over(tpmLimit as real, tokens), 60.0) else BIG
  }

  function Budget(rpmLimit: int, tpmLimit: int, tokens: real): real
    requires tokens > 0.0
  {
    Min(RpmRate(rpmLimit), TpmRate(tpmLimit, tokens))
  }

  function Target(budget: real, ceiling: int, latencyMs: real): int {
    if budget >= BIG then ceiling else Ceil(Times(budget, Over(latencyMs, 1000.0)))
  }

  function Clamp(effective: int, ceiling: int): int {
    var atLeastOne := if effective < 1 then 1 else effective;
    if atLeastOne > ceiling then ceiling else atLeastOne
  }

  /** A rate budget turned into slots. */
  function Slots(budget: real, ceiling: int, latencyMs: real, backoff: real): int {
    Clamp(RoundHalfUp(Times(Target(budget, ceiling, latencyMs) as real, backoff)), ceiling)
  }

  /** deriveEffectiveConcurrency, the TypeScript form. */
  function Derive(rpmLimit: int, tpmLimit: int, ceiling: int, latencyMs: real, tokensEwma: real, backoff: real): int {
    var safeTokens := if tokensEwma > 0.0 then tokensEwma else 1.0;
    Slots(Budget(rpmLimit, tpmLimit, safeTokens), ceiling, latencyMs, backoff)
  }

  datatype Derived = Derived(effective: int, bf: real, lat: real)

  /** compute_effective, the Lua form: reads the hash and supplies its own defaults. */
  function Compute(stored: Option<Hash>, rpmLimit: int, tpmLimit: int, ceiling: int, requested: nat,
      defaultLatency: real): Derived {
    var h := Load(stored);
    var lat := h.lat.GetOr(defaultLatency);
    var tok := if h.tok.None? || h.tok.value <= 0.0 then Max(1.0, requested as real) else h.tok.value;
    var rpsRpm := if rpmLimit > 0 then Over(rpmLimit as real, 60.0) else BIG;
    var rpsTpm := if tpmLimit > 0 then Over(Over(tpmLimit as real, tok), 60.0) else BIG;
    var rpsBudget := Min(rpsRpm, rpsTpm);
    var target := if rpsBudget >= BIG then ceiling else Ceil(Times(rpsBudget, Over(lat, 1000.0)));
    var scaled := (Times(target as real, h.bf) + 0.5).Floor;
    var effective := if scaled < 1 then 1 else scaled;
    Derived(if effective > ceiling then ceiling else effective, h.bf, lat)
  }

  /** The two derivations agree on every stored hash with a positive token average; with none,
      Lua behaves like TypeScript given the requested tokens (at least one) as the average. */
  lemma DerivationsAgree(stored: Option<Hash>, rpmLimit: int, tpmLimit: int, ceiling: int, requested: nat,
      defaultLatency: real)
    ensures
      var h := Load(stored);
      var c := Compute(stored, rpmLimit, tpmLimit, ceiling, requested, defaultLatency);
      var tokens := if h.tok.Some? && h.tok.value > 0.0 then h.tok.value else Max(1.0, requested as real);
      && c.effective == Derive(rpmLimit, tpmLimit, ceiling, c.lat, tokens, c.bf)
      && c.lat == (if h.lat.Some? then h.lat.value else defaultLatency) && c.bf == h.bf
      && (stored.None? ==> h.lat == None && h.tok == None && h.bf == 1.0)
  {
  }

  /** A ceiling of at least one always leaves between one slot and the ceiling. */
  lemma ComputeInRange(stored: Option<Hash>, rpmLimit: int, tpmLimit: int, ceiling: int, requested: nat,
      defaultLatency: real)
    ensures ceiling >= 1 ==>
        1 <= Compute(stored, rpmLimit, tpmLimit, ceiling, requested, defaultLatency).effective <= ceiling
    ensures ceiling < 1 ==> Compute(stored, rpmLimit, tpmLimit, ceiling, requested, defaultLatency).effective == ceiling
  {
  }

  lemma TargetMonotone(budget: real, ceiling: int, latency: real, budget': real, ceiling': int, latency': real)
    requires 0.0 <= budget <= budget' && 0.0 <= latency <= latency' && 1 <= ceiling <= ceiling'
    requires (budget >= BIG) == (budget' >= BIG)
    ensures 0 <= Target(budget, ceiling, latency) <= Target(budget', ceiling', latency')
  {
    hide Times, Over;
    var l, l' := Over(latency, 1000.0), Over(latency', 1000.0);
    OverMonotone(latency, latency', 1000.0, 1000.0);
    TimesMonotone(budget, budget', l, l');
    FloorMonotone(-Times(budget', l'), -Times(budget, l));
    FloorMonotone(-Times(budget, l), 0.0);
  }

  /** The slots only depend monotonically on budget, latency, backoff and ceiling, as long as
      both budgets are on the same side of the unlimited mark. */
  lemma SlotsMonotone(budget: real, ceiling: int, latency: real, backoff: real,
                      budget': real, ceiling': int, latency': real, backoff': real)
    requires 0.0 <= budget <= budget' && 1 <= ceiling <= ceiling'
    requires 0.0 <= latency <= latency' && 0.0 <= backoff <= backoff'
    requires (budget >= BIG) == (budget' >= BIG)
    ensures Slots(budget, ceiling, latency, backoff) <= Slots(budget', ceiling', latency', backoff')
  {
    hide Times, Over;
    var target, target' := Target(budget, ceiling, latency), Target(budget', ceiling', latency');
    TargetMonotone(budget, ceiling, latency, budget', ceiling', latency');
    TimesMonotone(target as real, target' as real, backoff, backoff');
    FloorMonotone(Times(target as real, backoff) + 0.5, Times(target' as real, backoff') + 0.5);
  }

  /** Looser limits and cheaper calls never lower the rate budget. */
  lemma BudgetMonotone(rpm: int, tpm: int, tokens: real, rpm': int, tpm': int, tokens': real)
    requires 0 < rpm <= rpm' && 0 < tpm <= tpm' && 0.0 < tokens' <= tokens
    ensures 0.0 <= Budget(rpm, tpm, tokens) <= Budget(rpm', tpm', tokens')
  {
    hide Times, Over;
    OverMonotone(rpm as real, rpm' as real, 60.0, 60.0);
    OverMonotone(tpm as real, tpm' as real, tokens', tokens);
    OverMonotone(Over(tpm as real, tokens), Over(tpm' as real, tokens'), 60.0, 60.0);
  }

  lemma BudgetNonNegative(rpm: int, tpm: int, tokens: real)
    requires tokens > 0.0
    ensures 0.0 <= Budget(rpm, tpm, tokens)
  {
    hide Times, Over;
    if rpm > 0 {
      OverMonotone(rpm as real, rpm as real, 60.0, 60.0);
    }
    if tpm > 0 {
      OverMonotone(tpm as real, tpm as real, tokens, tokens);
      OverMonotone(Over(tpm as real, tokens), Over(tpm as real, tokens), 60.0, 60.0);
    }
  }

  /** More backoff headroom, slower calls and a higher ceiling never lower the allowance. */
  lemma EffectiveMonotone(rpm: int, tpm: int, tokens: real,
                          ceiling: int, latency: real, backoff: real,
                          ceiling': int, latency': real, backoff': real)
    requires tokens > 0.0 && 1 <= ceiling <= ceiling' && 0.0 <= latency <= latency' && 0.0 <= backoff <= backoff'
    ensures Derive(rpm, tpm, ceiling, latency, tokens, backoff) <= Derive(rpm, tpm, ceiling', latency', tokens,
        backoff')
  {
    hide Times, Over, Slots, Budget;
    BudgetNonNegative(rpm, tpm, tokens);
    var b := Budget(rpm, tpm, tokens);
    SlotsMonotone(b, ceiling, latency, backoff, b, ceiling', latency', backoff');
  }

  /** It is monotone in positive limits and antitone in tokens as long as the rate stays below BIG. */
  lemma EffectiveFollowsBudget(rpm: int, tpm: int, tokens: real, rpm': int, tpm': int, tokens': real,
                               ceiling: int, latency: real, backoff: real)
    requires 0 < rpm <= rpm' && 0 < tpm <= tpm' && 0.0 < tokens' <= tokens
    requires 1 <= ceiling && 0.0 <= latency && 0.0 <= backoff
    requires Budget(rpm', tpm', tokens') < BIG
    ensures Derive(rpm, tpm, ceiling, latency, tokens, backoff) <= Derive(rpm', tpm', ceiling, latency, tokens',
        backoff)
  {
    hide Times, Over, Slots, Budget;
    BudgetMonotone(rpm, tpm, tokens, rpm', tpm', tokens');
    SlotsMonotone(Budget(rpm, tpm, tokens), ceiling, latency, backoff, Budget(rpm', tpm', tokens'), ceiling, latency,
        backoff);
  }

  /** Little's law: without backoff and away from the clamp, it is the least number of slots
      that sustains the budgeted rate at the measured latency. */
  lemma SustainsTheBudget(rpm: int, tpm: int, ceiling: int, latency: real, tokens: real)
    requires tokens > 0.0 && Budget(rpm, tpm, tokens) < BIG
    ensures
      var load := Times(Budget(rpm, tpm, tokens), Over(latency, 1000.0));
      var effective := Derive(rpm, tpm, ceiling, latency, tokens, 1.0);
      1 < effective < ceiling ==> effective as real >= load > effective as real - 1.0
  {
    hide Times, Over, Budget, Ceil, RoundHalfUp;
    var load := Times(Budget(rpm, tpm, tokens), Over(latency, 1000.0));
    TimesOne(Ceil(load) as real);
    CeilBounds(load);
    RoundInteger(Ceil(load));
  }

  /** Requests per minute that the positive limits allow, with calls of this many tokens. */
  predicate AllowedRate(rpm: int, tpm: int, tokens: real, perMinute: real) {
    && 0.0 <= perMinute
    && (rpm > 0 ==> perMinute <= rpm as real)
    && (tpm > 0 ==> Times(perMinute, tokens) <= tpm as real)
  }

  /** So many slots, each busy for a latency per request, carry every allowed rate (a minute has
      60000 ms), and one slot fewer does not. */
  ghost predicate LeastCarrying(rpm: int, tpm: int, tokens: real, latency: real, slots: int) {
    && (forall rate :: AllowedRate(rpm, tpm, tokens, rate) ==> Times(rate, latency) <= Times(slots as real, 60000.0))
    && (exists rate :: AllowedRate(rpm, tpm, tokens, rate)
          && Times(rate, latency) > Times(slots as real - 1.0, 60000.0))
  }

  lemma AllowedIsBudgeted(rpm: int, tpm: int, tokens: real, rate: real)
    requires tokens > 0.0 && 0.0 <= rate && (rpm > 0 || tpm > 0)
    requires Budget(rpm, tpm, tokens) < BIG
    ensures AllowedRate(rpm, tpm, tokens, rate) ==> rate <= Times(60.0, Budget(rpm, tpm, tokens))
    ensures rate == Times(60.0, Budget(rpm, tpm, tokens)) ==> AllowedRate(rpm, tpm, tokens, rate)
  {
    if tpm > 0 {
      var perMinute := Over(tpm as real, tokens);
      assert Times(perMinute, tokens) == tpm as real;
      if Times(rate, tokens) <= tpm as real && rate > perMinute {
        StrictlyMore(perMinute, rate, tokens);
        assert false;
      }
      if rate <= perMinute {
        TimesLeftMonotone(rate, perMinute, tokens);
      }
    }
  }

  lemma Scaled(budget: real, latency: real)
    ensures Times(Times(60.0, budget), latency) == Times(Times(budget, Over(latency, 1000.0)), 60000.0)
  {
  }

  lemma TargetCarriesTheRate(rpm: int, tpm: int, tokens: real, ceiling: int, latency: real)
    requires tokens > 0.0 && 0.0 <= latency && Budget(rpm, tpm, tokens) < BIG
    ensures LeastCarrying(rpm, tpm, tokens, latency, Target(Budget(rpm, tpm, tokens), ceiling, latency))
  {
    assert rpm > 0 || tpm > 0;
    hide Times, Over, Budget, Ceil, AllowedRate;
    BudgetNonNegative(rpm, tpm, tokens);
    var b := Budget(rpm, tpm, tokens);
    var load, target := Times(b, Over(latency, 1000.0)), Target(b, ceiling, latency);
    CeilBounds(load);
    Scaled(b, latency);
    TimesLeftMonotone(load, target as real, 60000.0);
    forall rate | AllowedRate(rpm, tpm, tokens, rate) ensures Times(rate, latency) <= Times(target as real, 60000.0) {
      assert 0.0 <= rate by { AllowedIsPositive(rpm, tpm, tokens, rate); }
      AllowedIsBudgeted(rpm, tpm, tokens, rate);
      TimesLeftMonotone(rate, Times(60.0, b), latency);
    }
    var most := Times(60.0, b);
    assert 0.0 <= most by { TimesMonotone(0.0, 60.0, 0.0, b); TimesOne(0.0); }
    AllowedIsBudgeted(rpm, tpm, tokens, most);
    StrictlyMore(target as real - 1.0, load, 60000.0);
  }

  lemma AllowedIsPositive(rpm: int, tpm: int, tokens: real, rate: real)
    requires AllowedRate(rpm, tpm, tokens, rate)
    ensures 0.0 <= rate
  {
  }

  lemma StrictlyMore(a: real, b: real, m: real)
    requires a < b && 0.0 < m
    ensures Times(a, m) < Times(b, m)
  {
    assert 0.0 < (b - a) * m;
  }

  /** An average that is not positive counts as one token. */
  lemma NoTokensCountAsOne(rpm: int, tpm: int, ceiling: int, latency: real, tokens: real, backoff: real)
    requires tokens <= 0.0
    ensures Derive(rpm, tpm, ceiling, latency, tokens, backoff) == Derive(rpm, tpm, ceiling, latency, 1.0, backoff)
  {
  }

  lemma UnlimitedIff(rpm: int, tpm: int, tokens: real)
    requires tokens > 0.0
    ensures Budget(rpm, tpm, tokens) < BIG
       <==> 0 < rpm < 60_000_000_000_000_000 || (tpm > 0 && Times(tokens, 60_000_000_000_000_000.0) > tpm as real)
  {
    if tpm > 0 {
      var perMinute := Over(tpm as real, tokens);
      assert Times(perMinute, tokens) == tpm as real;
      var most := 60_000_000_000_000_000.0;
      if perMinute < most {
        StrictlyMore(perMinute, most, tokens);
      } else {
        TimesLeftMonotone(most, perMinute, tokens);
      }
    }
  }

  /** The allowance is the least number of slots that carries the rate the limits allow, scaled by
      the backoff factor, rounded to the nearest slot (halves up) and kept between one and the
      ceiling; with limits that are absent or beyond 10^15 a second it is the ceiling, scaled alike. */
  lemma AllowanceCarriesTheRate(rpm: int, tpm: int, ceiling: int, latency: real, tokens: real, backoff: real)
      returns (slots: int)
    requires tokens > 0.0 && 0.0 <= latency && ceiling >= 1
    ensures if 0 < rpm < 60_000_000_000_000_000 || (tpm > 0 && Times(tokens, 60_000_000_000_000_000.0) > tpm as real)
            then LeastCarrying(rpm, tpm, tokens, latency, slots)
            else slots == ceiling
    ensures
      var effective := Derive(rpm, tpm, ceiling, latency, tokens, backoff);
      var scaled := Times(slots as real, backoff);
      && 1 <= effective <= ceiling
      && (effective > 1 ==> scaled >= effective as real - 0.5)
      && (effective < ceiling ==> scaled < effective as real + 0.5)
  {
    hide Times, Over;
    slots := Target(Budget(rpm, tpm, tokens), ceiling, latency);
    UnlimitedIff(rpm, tpm, tokens);
    if Budget(rpm, tpm, tokens) < BIG {
      TargetCarriesTheRate(rpm, tpm, tokens, ceiling, latency);
    }
  }

  lemma CeilBounds(x: real)
    ensures Ceil(x) as real >= x > Ceil(x) as real - 1.0
  {
  }

  lemma RoundInteger(n: int)
    ensures RoundHalfUp(n as real) == n
  {
  }

  /** A throttle reported while the allowance sits at a ceiling above one lowers the allowance
      exactly when the scaled target falls below the ceiling by more than half a slot. */
  lemma ThrottleBites(stored: Option<Hash>, t: Tuning, rpm: int, tpm: int, ceiling: int, requested: nat)
    requires ceiling > 1
    requires Compute(stored, rpm, tpm, ceiling, requested, t.defaultLatency).effective == ceiling
    ensures
      var h := Load(stored);
      var tokens := if h.tok.Some? && h.tok.value > 0.0 then h.tok.value else Max(1.0, requested as real);
      var target := Target(Budget(rpm, tpm, tokens), ceiling, h.lat.GetOr(t.defaultLatency));
      Compute(Some(Reported(stored, UpstreamThrottle, t)), rpm, tpm, ceiling, requested,
          t.defaultLatency).effective < ceiling
      <==> Times(target as real, Max(t.floor, Times(h.bf, t.mult))) < ceiling as real - 0.5
  {
    hide Times, Over;
  }

  /** So a throttle need not lower anything: 600 requests a minute at one second under a ceiling of 4. */
  lemma ThrottleCanLeaveTheCeiling()
    ensures
      var t := Tuning(0.3, 0.05, 0.5, 0.1, 1000.0);
      var before := Compute(None, 600, 0, 4, 1, t.defaultLatency);
      var after := Compute(Some(Reported(None, UpstreamThrottle, t)), 600, 0, 4, 1, t.defaultLatency);
      before.effective == 4 && after.effective == 4 && after.bf == 0.5
  {
    assert Budget(600, 0, 1.0) == 10.0;
    assert Target(10.0, 4, 1000.0) == 10;
  }
}
