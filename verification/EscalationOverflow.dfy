/**
 * When the backoff of pkg/apis/runtime_state.go under a whole multiplier overflows, told from the
 * exact power alone: float64 rounding decides only within 2^15 of the greatest int64.
 */
module EscalationOverflow {
  import opened GoInt
  import opened Escalation
  import opened FractionalEscalation

  const SLACK: int := 0x8000

  /** What a step keeps at least: two roundings and, beyond 2^53, a nanosecond that no longer matters. */
  const KEPT: real := 1.0 - 3.0 * U

  ghost predicate StepKeeps(step: int -> int, lower: real, d: nat) {
    0.0 <= d as real * lower <= step(d) as real
  }

  ghost predicate StepsKeep(step: int -> int, lower: real) {
    forall d: nat :: StepKeeps(step, lower, d)
  }

  lemma LargeLoss(p: real)
    requires p >= EXACT as real
    ensures p * KEPT <= p * LOW - 1.0
  {
    RealProductOrder(EXACT as real, p, U);
    assert p * LOW == p - 2.0 * (p * U) + p * U * U;
    assert p * KEPT == p - 3.0 * (p * U);
    ProductSign(p, U);
    ProductSign(p * U, U);
  }

  lemma SmallLoss(p: real)
    requires p >= 0.0
    ensures 0.0 <= p * KEPT <= p
  {
    RealProductOrder(KEPT, 1.0, p);
    ProductSign(p, KEPT);
  }

  lemma Lowered(d: nat, m: nat, f: real, lower: real)
    requires lower == m as real * f
    ensures d as real * lower == (d * m) as real * f
  {
    WholeProduct(d, m);
    assert d as real * (m as real * f) == d as real * m as real * f;
  }

  lemma SmallStepKeeps(round: real -> real, m: nat, d: nat, lower: real)
    requires Rounds(round) && m >= 1 && d * m <= EXACT && lower == m as real * KEPT
    ensures StepKeeps(Unbounded(round, m as real), lower, d)
  {
    Lowered(d, m, KEPT, lower);
    SmallLoss((d * m) as real);
    GrowsBy(d, m);
    SmallStep(round, d, m);
  }

  lemma LargeStepKeeps(round: real -> real, m: nat, d: nat, lower: real, low: real)
    requires Errs(round, DOWN, UP) && d * m >= EXACT && lower == m as real * KEPT && low == m as real * LOW
    ensures StepKeeps(Unbounded(round, m as real), lower, d)
  {
    LossIsCovered(m, d, lower, low);
    StepNotBelow(round, m as real, DOWN, UP, low, d);
  }

  lemma LossIsCovered(m: nat, d: nat, lower: real, low: real)
    requires d * m >= EXACT && lower == m as real * KEPT && low == m as real * LOW
    ensures 0.0 <= d as real * lower <= d as real * low - 1.0
  {
    Lowered(d, m, KEPT, lower);
    Lowered(d, m, LOW, low);
    SmallLoss((d * m) as real);
    LargeLoss((d * m) as real);
  }

  lemma AllStepsKeep(round: real -> real, m: nat, lower: real)
    requires Rounds(round) && m >= 1 && lower == m as real * KEPT
    ensures StepsKeep(Unbounded(round, m as real), lower)
  {
    var step := Unbounded(round, m as real);
    RoundingErrs(round);
    forall d: nat ensures StepKeeps(step, lower, d) {
      if d * m <= EXACT {
        SmallStepKeeps(round, m, d, lower);
      } else {
        LargeStepKeeps(round, m, d, lower, m as real * LOW);
      }
    }
  }

  lemma {:induction false} IteratesKeep(step: int -> int, lower: real, lo: real, d: nat, k: nat)
    requires StepsKeep(step, lower) && lower >= 0.0 && lo <= d as real
    ensures Raised(lo, lower, k) <= Iterate(step, d, k) as real
    decreases k
  {
    if k > 0 {
      assert StepKeeps(step, lower, d);
      RealProductOrder(lo, d as real, lower);
      IteratesKeep(step, lower, lo * lower, step(d), k - 1);
    }
  }

  // The powers of the factors.

  lemma Same(a: real, b: real, c: real)
    requires a == b
    ensures a * c == b * c && c * a == c * b
  {
  }

  lemma RaisedOnce(x: real, factor: real, k: nat, next: real)
    requires k > 0 && next == x * factor
    ensures Raised(x, factor, k) == Raised(next, factor, k - 1)
  {
  }

  lemma ScaledOnce(c: real, x: real, y: real, factor: real)
    requires y == c * x
    ensures y * factor == c * (x * factor)
  {
  }

  lemma {:induction false} RaisedScales(c: real, x: real, y: real, factor: real, k: nat)
    requires y == c * x
    ensures Raised(y, factor, k) == c * Raised(x, factor, k)
    decreases k, 1
  {
    if k > 0 {
      RaisedScalesOn(c, x, y, factor, k, x * factor, y * factor);
    }
  }

  lemma {:induction false} RaisedScalesOn(c: real, x: real, y: real, factor: real, k: nat, nextX: real, nextY: real)
    requires k > 0 && y == c * x && nextX == x * factor && nextY == y * factor
    ensures Raised(y, factor, k) == c * Raised(x, factor, k)
    decreases k, 0
  {
    ScaledOnce(c, x, y, factor);
    Same(nextX, x * factor, c);
    RaisedOnce(x, factor, k, nextX);
    RaisedOnce(y, factor, k, nextY);
    RaisedScales(c, nextX, nextY, factor, k - 1);
    Same(Raised(x, factor, k), Raised(nextX, factor, k - 1), c);
  }

  /** 1 x factor^k, one factor at a time. */
  lemma RaisedFromOne(factor: real, k: nat)
    requires k > 0
    ensures Raised(1.0, factor, k) == factor * Raised(1.0, factor, k - 1)
  {
    RaisedScales(factor, 1.0, 1.0 * factor, factor, k - 1);
  }

  lemma {:induction false} WholeRaised(d: nat, m: nat, k: nat)
    ensures Raised(d as real, m as real, k) == Grown(d, m, k) as real
    decreases k
  {
    if k > 0 {
      WholeProduct(d, m);
      RaisedOnce(d as real, m as real, k, (d * m) as real);
      WholeRaised(d * m, m, k - 1);
    }
  }

  lemma OneMoreError(f: real, power: real, scaled: real, errors: real, more: real)
    requires scaled == f * power && more == f * errors
    ensures scaled * errors == power * more
  {
  }

  /** The errors of all steps taken together. */
  lemma {:induction false} ErrorsTogether(x: real, m: real, f: real, g: real, k: nat)
    requires g == m * f
    ensures Raised(x, g, k) == Raised(x, m, k) * Raised(1.0, f, k)
    decreases k, 1
  {
    if k > 0 {
      ErrorsTogetherOn(x, m, f, g, k, x * m, x * g);
    }
  }

  lemma MovedOut(x: real, m: real, f: real, g: real)
    requires g == m * f
    ensures x * g == f * (x * m)
  {
  }

  lemma {:induction false} ErrorsTogetherOn(x: real, m: real, f: real, g: real, k: nat, nextM: real, nextG: real)
    requires k > 0 && g == m * f && nextM == x * m && nextG == x * g
    ensures Raised(x, g, k) == Raised(x, m, k) * Raised(1.0, f, k)
    decreases k, 0
  {
    RaisedOnce(x, m, k, nextM);
    RaisedOnce(x, g, k, nextG);
    ErrorsTogether(nextG, m, f, g, k - 1);
    MovedOut(x, m, f, g);
    Same(nextM, x * m, f);
    RaisedScales(f, nextM, nextG, m, k - 1);
    Same(Raised(x, m, k), Raised(nextM, m, k - 1), f);
    RaisedFromOne(f, k);
    OneMoreError(f, Raised(x, m, k), Raised(nextG, m, k - 1), Raised(1.0, f, k - 1), Raised(1.0, f, k));
  }

  lemma PowerWithErrors(base: nat, m: nat, f: real, g: real, k: nat)
    requires g == m as real * f
    ensures Raised(base as real, g, k) == Grown(base, m, k) as real * Raised(1.0, f, k)
  {
    ErrorsTogether(base as real, m as real, f, g, k);
    WholeRaised(base, m, k);
    Same(Raised(base as real, m as real, k), Grown(base, m, k) as real, Raised(1.0, f, k));
  }

  lemma {:induction false} AtMostAllLosses(f: real, u: real, k: nat)
    requires 0.0 <= u <= 1.0 && f == 1.0 - u
    ensures Raised(1.0, f, k) >= 1.0 - k as real * u
    decreases k
  {
    if k > 0 {
      AtMostAllLosses(f, u, k - 1);
      RaisedFromOne(f, k);
      OneMoreLoss(Raised(1.0, f, k - 1), f, u, (k - 1) as real);
    }
  }

  lemma OneMoreLoss(power: real, f: real, u: real, j: real)
    requires 0.0 <= u <= 1.0 && f == 1.0 - u && power >= 1.0 - j * u && j >= 0.0
    ensures f * power >= 1.0 - (j + 1.0) * u
  {
    RealProductOrder(1.0 - j * u, power, f);
    ProductSign(u, u);
    ProductSign(j, u * u);
    assert (1.0 - j * u) * (1.0 - u) == 1.0 - (j + 1.0) * u + j * (u * u);
  }

  /** Gains of v a step come to k x w at most, if w leaves room for their compounding. */
  lemma {:induction false} AtMostAllGains(f: real, v: real, w: real, k: nat, j: real)
    requires f == 1.0 + v && 0.0 <= v && 0.0 <= w && (1.0 + 9.0 * w) * v <= w
    requires j == k as real <= 9.0
    ensures Raised(1.0, f, k) <= 1.0 + j * w
    decreases k
  {
    if k > 0 {
      AtMostAllGains(f, v, w, k - 1, j - 1.0);
      RaisedFromOne(f, k);
      OneMoreGain(Raised(1.0, f, k - 1), f, v, w, j);
    }
  }

  lemma GainHasRoom(gained: real, most: real, v: real, w: real)
    requires gained <= most && 0.0 <= v && most * v <= w
    ensures gained + gained * v <= gained + w
  {
    RealProductOrder(gained, most, v);
  }

  lemma OneMoreGain(power: real, f: real, v: real, w: real, j: real)
    requires f == 1.0 + v && 0.0 <= v && 0.0 <= w && (1.0 + 9.0 * w) * v <= w && 1.0 <= j <= 9.0
    requires power <= 1.0 + (j - 1.0) * w
    ensures f * power <= 1.0 + j * w
  {
    var gained := 1.0 + (j - 1.0) * w;
    RealProductOrder(j - 1.0, 9.0, w);
    GainHasRoom(gained, 1.0 + 9.0 * w, v, w);
    GainIs(gained, v, w, j);
    RealProductOrder(power, gained, f);
  }

  lemma GainIs(gained: real, v: real, w: real, j: real)
    requires gained == 1.0 + (j - 1.0) * w
    ensures gained * (1.0 + v) == gained + gained * v && gained + w == 1.0 + j * w
  {
  }

  // The two bounds.

  lemma {:induction false} LastIsInt64(step: int -> int, d: int, k: nat)
    requires IsInt64(d) && StaysInt64(step, d, k)
    ensures IsInt64(Iterate(step, d, k))
    decreases k
  {
    if k > 0 {
      LastIsInt64(step, step(d), k - 1);
    }
  }

  lemma AllLosses(k: nat, kept: real)
    requires k <= 9 && kept == 1.0 - 3.0 * U
    ensures Raised(1.0, kept, k) >= 1.0 - 27.0 * U
  {
    AtMostAllLosses(kept, 3.0 * U, k);
  }

  lemma AllGains(k: nat, high: real)
    requires k <= 9 && high == HIGH
    ensures 0.0 <= Raised(1.0, high, k) <= 1.0 + 27.0 * U
  {
    AtMostAllGains(high, high - 1.0, 3.0 * U, k, k as real);
    RaisedIsMore(1.0, high, k);
  }

  lemma FarAbove(power: nat, kept: real)
    requires power >= MAX_INT64 + SLACK && kept >= 1.0 - 27.0 * U
    ensures power as real * kept > MAX_INT64 as real
  {
    RealProductOrder(1.0 - 27.0 * U, kept, power as real);
    RealProductOrder((MAX_INT64 + SLACK) as real, power as real, 1.0 - 27.0 * U);
  }

  lemma FarBelow(power: nat, gained: real)
    requires power <= MAX_INT64 - SLACK && 0.0 <= gained <= 1.0 + 27.0 * U
    ensures power as real * gained <= MAX_INT64 as real
  {
    FactorsOrder(power as real, gained, (MAX_INT64 - SLACK) as real, 1.0 + 27.0 * U);
  }

  lemma IteratesKeepPower(step: int -> int, base: nat, m: nat, k: nat, f: real, lower: real)
    requires StepsKeep(step, lower) && lower >= 0.0 && lower == m as real * f
    ensures Grown(base, m, k) as real * Raised(1.0, f, k) <= Iterate(step, base, k) as real
  {
    PowerWithErrors(base, m, f, lower, k);
    IteratesKeep(step, lower, base as real, base, k);
  }

  lemma PowerTooGreat(step: int -> int, base: nat, m: nat, k: nat, kept: real, lower: real)
    requires StepsKeep(step, lower) && lower >= 0.0 && lower == m as real * kept && kept == 1.0 - 3.0 * U
    requires k <= 9 && IsInt64(base) && Grown(base, m, k) >= MAX_INT64 + SLACK
    ensures !StaysInt64(step, base, k)
  {
    IteratesKeepPower(step, base, m, k, kept, lower);
    AllLosses(k, kept);
    FarAbove(Grown(base, m, k), Raised(1.0, kept, k));
    if StaysInt64(step, base, k) {
      LastIsInt64(step, base, k);
    }
  }

  lemma GainedPower(base: nat, m: nat, k: nat, high: real, upper: real)
    requires k <= 9 && Grown(base, m, k) <= MAX_INT64 - SLACK && upper == m as real * high && high == HIGH
    ensures Raised(base as real, upper, k) <= MAX_INT64 as real
  {
    PowerWithErrors(base, m, high, upper, k);
    AllGains(k, high);
    FarBelow(Grown(base, m, k), Raised(1.0, high, k));
  }

  lemma PowerSmallEnough(step: int -> int, base: nat, m: nat, k: nat, lower: real, high: real, upper: real)
    requires StepsWithin(step, lower, upper) && upper >= 1.0 && upper == m as real * high && high == HIGH
    requires k <= 9 && Grown(base, m, k) <= MAX_INT64 - SLACK
    ensures StaysInt64(step, base, k)
  {
    GainedPower(base, m, k, high, upper);
    StaysWithin(step, lower, upper, upper, base, base as real, k);
  }

  lemma FactorSigns(m: nat, lower: real, upper: real)
    requires m >= 1 && lower == m as real * KEPT && upper == m as real * HIGH
    ensures lower >= 0.0 && upper >= 1.0
  {
    ProductSign(m as real, KEPT);
    FactorsOrder(1.0, 1.0, m as real, HIGH);
  }

  lemma StepsOf(round: real -> real, m: nat, kept: real, lower: real, upper: real)
    requires Rounds(round) && m >= 1
    requires kept == m as real * KEPT && lower == m as real * LOW && upper == m as real * HIGH
    ensures StepsKeep(Unbounded(round, m as real), kept) && StepsWithin(Unbounded(round, m as real), lower, upper)
    ensures kept >= 0.0 && upper >= 1.0
  {
    AllStepsKeep(round, m, kept);
    RoundingErrs(round);
    AllStepsStayWithin(round, m as real, DOWN, UP, lower, upper);
    FactorSigns(m, kept, upper);
  }

  /**
   * Whether the backoff under a whole multiplier overflows, from its exact power: never when that is
   * at most 2^63 - 1 - 2^15, and always from 2^63 - 1 + 2^15.
   */
  lemma FitsByPower(round: real -> real, base: nat, m: nat, hits: nat)
    requires Rounds(round) && hits >= 1 && IsInt64(base)
    ensures var k := Min(hits, 10) - 1;
            && (Grown(base, m, k) <= MAX_INT64 - SLACK ==> Fits(round, base, m as real, k))
            && (Grown(base, m, k) >= MAX_INT64 + SLACK ==> !Fits(round, base, m as real, k))
  {
    var k := Min(hits, 10) - 1;
    if m == 0 {
      StepIsZero(round);
      ZeroIterates(Unbounded(round, 0.0), base, k);
    } else {
      var step, kept, upper := Unbounded(round, m as real), m as real * KEPT, m as real * HIGH;
      StepsOf(round, m, kept, m as real * LOW, upper);
      if Grown(base, m, k) <= MAX_INT64 - SLACK {
        PowerSmallEnough(step, base, m, k, m as real * LOW, HIGH, upper);
      } else if Grown(base, m, k) >= MAX_INT64 + SLACK {
        PowerTooGreat(step, base, m, k, KEPT, kept);
      }
    }
  }
}
