/**
 * The backoff of pkg/apis/runtime_state.go under a multiplier that need not be whole: when the
 * capped result is exact, and how far it may be off.
 */
module FractionalEscalation {
  import opened GoInt
  import opened Escalation

  // Exactness. Every positive float64 is an odd number over a power of two, or that times one.

  lemma {:induction false} GrownSplits(c: nat, d: nat, m: nat, k: nat)
    ensures Grown(c * d, m, k) == c * Grown(d, m, k)
    decreases k
  {
    if k > 0 {
      assert c * d * m == c * (d * m);
      GrownSplits(c, d * m, m, k - 1);
    }
  }

  /** d x m^k, with the base taken out. */
  lemma GrownFrom(d: nat, m: nat, k: nat)
    ensures Grown(d, m, k) == d * Grown(1, m, k) == Grown(1, m, k) * d
    ensures k > 0 ==> Grown(1, m, k) == m * Grown(1, m, k - 1)
  {
    GrownSplits(d, 1, m, k);
    if k > 0 {
      GrownSplits(m, 1, m, k - 1);
    }
  }

  lemma OddProduct(x: nat, y: nat)
    requires x % 2 == 1 && y % 2 == 1
    ensures x * y % 2 == 1
  {
    var p, q := x / 2, y / 2;
    assert x * y == (2 * p + 1) * (2 * q + 1) == 2 * (2 * p * q + p + q) + 1;
  }

  lemma Halve(x: nat, y: nat)
    requires y % 2 == 1 && x * y % 2 == 0
    ensures x % 2 == 0
  {
    if x % 2 == 1 {
      OddProduct(x, y);
    }
  }

  lemma {:induction false} OddPower(a: nat, k: nat)
    requires a % 2 == 1
    ensures Grown(1, a, k) % 2 == 1
    decreases k
  {
    if k > 0 {
      GrownFrom(1, a, k);
      OddPower(a, k - 1);
      OddProduct(a, Grown(1, a, k - 1));
    }
  }

  lemma Regroup(a: nat, b: nat, c: nat)
    ensures a * (b * c) == a * b * c
  {
  }

  lemma Cancel(b: nat, x: nat, y: nat)
    requires b >= 1 && b * x == b * y
    ensures x == y
  {
    assert b * (x - y) == 0;
  }

  lemma CancelFactor(x: nat, y: nat, b: nat, z: nat, v: nat)
    requires b >= 1 && x == b * v && x * y == b * z
    ensures v * y == z
  {
    Regroup(b, v, y);
    Cancel(b, v * y, z);
  }

  lemma Half(x: nat, y: nat, z: nat) returns (half: nat)
    requires y % 2 == 1 && x * y == 2 * z
    ensures x == 2 * half && half * y == z
  {
    Halve(x, y);
    half := x / 2;
    CancelFactor(x, y, 2, z, half);
  }

  /** An odd factor is no help in being a multiple of 2^s. */
  lemma {:induction false} OddFactorDrops(x: nat, y: nat, s: nat, z: nat) returns (w: nat)
    requires y % 2 == 1 && x * y == Grown(1, 2, s) * z
    ensures x == Grown(1, 2, s) * w
    decreases s
  {
    if s == 0 {
      w := x;
    } else {
      var t := Grown(1, 2, s - 1);
      GrownFrom(1, 2, s);
      Regroup(2, t, z);
      var half := Half(x, y, t * z);
      w := OddFactorDrops(half, y, s - 1, z);
      Regroup(2, t, w);
    }
  }

  /** Nor in being a multiple of (2^s)^k. */
  lemma {:induction false} OddFactorDropsFromPower(x: nat, y: nat, s: nat, k: nat, z: nat) returns (w: nat)
    requires y % 2 == 1 && x * y == Grown(1, Grown(1, 2, s), k) * z
    ensures x == Grown(1, Grown(1, 2, s), k) * w
    decreases k
  {
    if k == 0 {
      w := x;
    } else {
      var b := Grown(1, 2, s);
      var t := Grown(1, b, k - 1);
      GrownFrom(1, b, k);
      Regroup(b, t, z);
      var v := OddFactorDrops(x, y, s, t * z);
      GrownIsMore(1, 2, s);
      CancelFactor(x, y, b, t * z, v);
      w := OddFactorDropsFromPower(v, y, s, k - 1, z);
      Regroup(b, t, w);
    }
  }

  lemma {:induction false} GrownOrder(d: nat, c: nat, m: nat, n: nat, k: nat)
    requires d <= c && m <= n
    ensures Grown(d, m, k) <= Grown(c, n, k)
    decreases k
  {
    if k > 0 {
      ProductOrder(d, m, c, n);
      GrownOrder(d * m, c * n, m, n, k - 1);
    }
  }

  /** A step by a / b takes a multiple of b where it should. */
  ghost predicate FractionStep(step: int -> int, a: nat, b: nat, x: nat) {
    x * b <= EXACT && x * a <= EXACT ==> step(x * b) == x * a
  }

  ghost predicate FractionSteps(step: int -> int, a: nat, b: nat) {
    forall x: nat :: FractionStep(step, a, b, x)
  }

  lemma GrownLast(q: nat, m: nat, k: nat)
    requires k > 0
    ensures Grown(q, m, k) == Grown(q, m, k - 1) * m
  {
    GrownSplits(m, q, m, k - 1);
  }

  /** With one of the factors exchanged a power is still no more than the greater of the two. */
  lemma MixedPower(q: nat, a: nat, b: nat, k: nat, bound: nat)
    requires k > 0 && Grown(q, b, k) <= bound && Grown(q, a, k) <= bound
    ensures Grown(q, b, k - 1) * a <= bound
  {
    GrownLast(q, b, k);
    GrownLast(q, a, k);
    var x, y := Grown(q, b, k - 1), Grown(q, a, k - 1);
    if a <= b {
      ProductOrder(x, a, x, b);
    } else {
      GrownOrder(q, q, b, a, k - 1);
      ProductOrder(x, a, y, a);
    }
  }

  /** From q x b^k, k steps by a / b lead to q x a^k. */
  lemma {:induction false} FractionIterates(step: int -> int, q: nat, a: nat, b: nat, k: nat)
    requires FractionSteps(step, a, b)
    requires Grown(q, b, k) <= EXACT && Grown(q, a, k) <= EXACT
    ensures StaysInt64(step, Grown(q, b, k), k) && Iterate(step, Grown(q, b, k), k) == Grown(q, a, k)
    decreases k
  {
    if k > 0 {
      var x := Grown(q, b, k - 1);
      GrownLast(q, b, k);
      MixedPower(q, a, b, k, EXACT);
      assert FractionStep(step, a, b, x);
      MovedFactor(q, a, b, k - 1);
      FractionIterates(step, q * a, a, b, k - 1);
    }
  }

  lemma MovedFactor(q: nat, a: nat, b: nat, k: nat)
    ensures Grown(q * a, b, k) == Grown(q, b, k) * a
  {
    GrownSplits(a, q, b, k);
  }

  lemma ScaledProduct(x: nat, a: nat, b: nat, multiplier: real)
    requires multiplier * b as real == a as real
    ensures (x * b) as real * multiplier == (x * a) as real
  {
    WholeProduct(x, b);
    WholeProduct(x, a);
    assert x as real * b as real * multiplier == x as real * (multiplier * b as real);
  }

  lemma FractionProduct(round: real -> real, a: nat, b: nat, multiplier: real, x: nat)
    requires Rounds(round) && multiplier * b as real == a as real
    requires x * b <= EXACT && x * a <= EXACT
    ensures Unbounded(round, multiplier)(x * b) == x * a
  {
    ScaledProduct(x, a, b, multiplier);
    ExactStep(round, x * b, multiplier, x * a);
  }

  lemma StepIsFraction(round: real -> real, a: nat, b: nat, multiplier: real)
    requires Rounds(round) && multiplier * b as real == a as real
    ensures FractionSteps(Unbounded(round, multiplier), a, b)
  {
    var step := Unbounded(round, multiplier);
    forall x: nat | x * b <= EXACT && x * a <= EXACT ensures step(x * b) == x * a {
      FractionProduct(round, a, b, multiplier, x);
    }
    assert forall x: nat :: FractionStep(step, a, b, x);
  }

  /** A base that every power divides comes out as the power, as long as that is below 2^53. */
  lemma DivisibleEscalates(fp: Floats, q: nat, a: nat, b: nat, multiplier: real, k: nat)
    requires Rounds(fp.round) && Converts(fp.convert) && multiplier * b as real == a as real
    requires Grown(q, b, k) <= EXACT && Grown(q, a, k) <= EXACT
    ensures Escalated(fp, Grown(q, b, k), multiplier, k) == Grown(q, a, k)
  {
    StepIsFraction(fp.round, a, b, multiplier);
    FractionIterates(Unbounded(fp.round, multiplier), q, a, b, k);
    EscalatedWithoutOverflow(fp, Grown(q, b, k), multiplier, k);
  }

  lemma Below(power: nat, x: nat, y: nat)
    requires power >= 1 && power * x <= power * y
    ensures x <= y
  {
    if x > y {
      ProductOrder(power, y + 1, power, x);
    }
  }

  /** What the power of a multiple is a multiple of. */
  lemma QuotientPower(base: nat, a: nat, q: nat, power: nat, k: nat, bound: nat)
    requires power >= 1 && base == power * q && Grown(base, a, k) <= power * bound
    ensures Grown(base, a, k) == power * Grown(q, a, k) && Grown(q, a, k) <= bound
  {
    GrownSplits(power, q, a, k);
    Below(power, Grown(q, a, k), bound);
  }

  /** b^k for b = 2^s: what the base must be a multiple of. */
  function Divisor(s: nat, k: nat): (p: nat)
    ensures p >= 1
  {
    GrownIsMore(1, 2, s);
    GrownIsMore(1, Grown(1, 2, s), k);
    Grown(1, Grown(1, 2, s), k)
  }

  ghost predicate IsMultiple(x: nat, p: nat) {
    exists w: nat :: x == p * w
  }

  lemma Signed(r: int, p: nat)
    requires p >= 1 && p * r >= 0
    ensures r >= 0
  {
  }

  lemma ExactIsDivisible(base: nat, a: nat, s: nat, k: nat, r: int)
    requires a % 2 == 1 && Divisor(s, k) * r == Grown(base, a, k)
    ensures IsMultiple(base, Divisor(s, k))
  {
    Signed(r, Divisor(s, k));
    OddPower(a, k);
    GrownFrom(base, a, k);
    var w := OddFactorDropsFromPower(base, Grown(1, a, k), s, k, r);
  }

  lemma PowerTimes(q: nat, b: nat, k: nat)
    ensures Grown(q, b, k) == Grown(1, b, k) * q
  {
    GrownFrom(q, b, k);
  }

  lemma MultipleIsExact(fp: Floats, base: nat, a: nat, s: nat, multiplier: real, k: nat) returns (exact: nat)
    requires Rounds(fp.round) && Converts(fp.convert) && multiplier * Grown(1, 2, s) as real == a as real
    requires base <= EXACT && Grown(base, a, k) <= Divisor(s, k) * MAX_BACKOFF && IsMultiple(base, Divisor(s, k))
    ensures Escalated(fp, base, multiplier, k) == exact <= MAX_BACKOFF
    ensures Divisor(s, k) * exact == Grown(base, a, k)
  {
    var q: nat :| base == Divisor(s, k) * q;
    QuotientPower(base, a, q, Divisor(s, k), k, MAX_BACKOFF);
    exact := Grown(q, a, k);
    PowerTimes(q, Grown(1, 2, s), k);
    DivisibleEscalates(fp, q, a, Grown(1, 2, s), multiplier, k);
  }

  /**
   * For every multiplier a / 2^s with a odd, as long as the exact base x multiplier^k is five minutes
   * or less: the backoff is exactly that if and only if the base is a multiple of 2^(s k).
   */
  lemma BackoffExactIff(fp: Floats, base: nat, a: nat, s: nat, multiplier: real, hits: nat)
    requires Rounds(fp.round) && Converts(fp.convert) && hits >= 1
    requires a % 2 == 1 && multiplier * Grown(1, 2, s) as real == a as real
    requires base <= EXACT && Grown(base, a, Min(hits, 10) - 1) <= Divisor(s, Min(hits, 10) - 1) * MAX_BACKOFF
    ensures var k := Min(hits, 10) - 1;
            Divisor(s, k) * Backoff(fp, base, multiplier, hits) == Grown(base, a, k)
            <==> IsMultiple(base, Divisor(s, k))
  {
    var k := Min(hits, 10) - 1;
    if IsMultiple(base, Divisor(s, k)) {
      var exact := MultipleIsExact(fp, base, a, s, multiplier, k);
    }
    var r := Backoff(fp, base, multiplier, hits);
    if Divisor(s, k) * r == Grown(base, a, k) {
      ExactIsDivisible(base, a, s, k, r);
    }
  }

  /** An instance: of 1ns escalated twice by 3/2 nothing is left of the growth. */
  lemma HalvesAreLost(fp: Floats)
    requires Rounds(fp.round) && Converts(fp.convert)
    ensures Backoff(fp, 1, 1.5, 3) == 1 && Grown(1, 3, 2) == 9 && Divisor(1, 2) == 4
  {
    HalfIsCut(fp);
    var step := ScaleBy(fp, 1.5);
    assert Iterate(step, 1, 2) == Iterate(step, 1, 1) == Iterate(step, 1, 0) == 1;
    assert Grown(1, 3, 2) == Grown(3, 3, 1) == Grown(9, 3, 0);
    assert Grown(1, 2, 1) == Grown(2, 2, 0) == 2;
    assert Grown(1, 2, 2) == Grown(2, 2, 1) == Grown(4, 2, 0);
  }

  lemma HalfIsCut(fp: Floats)
    requires Rounds(fp.round) && Converts(fp.convert)
    ensures Scale(fp, 1, 1.5) == 1
  {
    assert ExactAt(fp.round, 1);
    RoundedAbove(fp.round, 1.5, 1);
    assert fp.round(1.5) <= 1.5 * (1.0 + U) < 2.0;
  }

  // How far off: for any multiplier and any conforming rounding.

  /** x grown by the factor, less one nanosecond, k times. */
  function Shrunk(x: real, factor: real, k: nat): real
    decreases k
  {
    if k == 0 then x else Shrunk(x * factor - 1.0, factor, k - 1)
  }

  /** x x factor^k */
  function Raised(x: real, factor: real, k: nat): real
    decreases k
  {
    if k == 0 then x else Raised(x * factor, factor, k - 1)
  }

  /** What a step keeps to: never above its product by the upper factor, nor a nanosecond below the lower. */
  ghost predicate StepWithin(step: int -> int, lower: real, upper: real, d: nat) {
    d as real * lower - 1.0 <= step(d) as real <= d as real * upper && step(d) >= 0
  }

  ghost predicate StepsWithin(step: int -> int, lower: real, upper: real) {
    forall d: nat :: StepWithin(step, lower, upper, d)
  }

  lemma ProductSign(a: real, b: real)
    requires a >= 0.0 && b >= 0.0
    ensures a * b >= 0.0
  {
  }

  lemma RealProductOrder(a: real, b: real, c: real)
    requires a <= b && c >= 0.0
    ensures a * c <= b * c
  {
    assert (b - a) * c >= 0.0;
  }

  lemma FactorsOrder(a: real, b: real, c: real, d: real)
    requires 0.0 <= a <= c && 0.0 <= b <= d
    ensures a * b <= c * d
  {
    RealProductOrder(a, c, b);
    RealProductOrder(b, d, c);
  }

  lemma {:induction false} IteratesWithin(
      step: int -> int, lower: real, upper: real, lo: real, d: nat, hi: real, k: nat)
    requires StepsWithin(step, lower, upper) && lower >= 0.0 && upper >= 0.0
    requires lo <= d as real <= hi
    ensures Shrunk(lo, lower, k) <= Iterate(step, d, k) as real <= Raised(hi, upper, k)
    decreases k
  {
    if k > 0 {
      assert StepWithin(step, lower, upper, d);
      RealProductOrder(lo, d as real, lower);
      RealProductOrder(d as real, hi, upper);
      IteratesWithin(step, lower, upper, lo * lower - 1.0, step(d), hi * upper, k - 1);
    }
  }

  lemma {:induction false} RaisedIsMore(x: real, factor: real, k: nat)
    requires x >= 0.0 && factor >= 1.0
    ensures Raised(x, factor, k) >= x
    decreases k
  {
    if k > 0 {
      RealProductOrder(1.0, factor, x);
      RaisedIsMore(x * factor, factor, k - 1);
    }
  }

  /** Nothing overflows when growth by the upper factor, or by one if that is more, stays in an int64. */
  lemma {:induction false} StaysWithin(
      step: int -> int, lower: real, upper: real, factor: real, d: nat, hi: real, k: nat)
    requires StepsWithin(step, lower, upper) && factor >= upper >= 0.0 && factor >= 1.0
    requires d as real <= hi && Raised(hi, factor, k) <= MAX_INT64 as real
    ensures StaysInt64(step, d, k)
    decreases k
  {
    if k > 0 {
      assert StepWithin(step, lower, upper, d);
      FactorsOrder(d as real, upper, hi, factor);
      RaisedIsMore(hi * factor, factor, k - 1);
      StaysWithin(step, lower, upper, factor, step(d), hi * factor, k - 1);
    }
  }

  // One step of the escalation.

  const DOWN: real := 1.0 - U
  const UP: real := 1.0 + U

  /** What rounding twice may do to a product: (1 - 2^-53)^2 and (1 + 2^-53)^2. */
  const LOW: real := DOWN * DOWN
  const HIGH: real := UP * UP

  lemma RoundedDuration(round: real -> real, d: nat)
    requires Rounds(round)
    ensures d as real * DOWN <= round(d as real) <= d as real * UP
  {
    if d == 0 {
      assert ExactAt(round, 0);
    }
  }

  /** Rounded and cut, a product is less than a nanosecond below the rounding error. */
  lemma RoundedProduct(round: real -> real, p: real)
    requires Rounds(round) && p >= 0.0
    ensures p * DOWN - 1.0 <= Truncated(round(p)) as real <= p * UP
    ensures Truncated(round(p)) >= 0
  {
    assert ExactAt(round, 0);
    if p < 0.5 {
      assert round(0.0) <= round(p) <= round(0.5) <= 0.5 * (1.0 + U) < 1.0;
    }
  }

  lemma Regrouped(d: real, m: real, u: real)
    ensures d * u * m * u == d * (m * (u * u))
  {
  }

  /** A product rounded before and after, and cut: t is d x m but for two rounding errors and the cut. */
  lemma NotBelow(d: real, m: real, down: real, lower: real, x: real, t: real)
    requires m >= 0.0 && down >= 0.0 && lower == m * (down * down)
    requires d * down <= x && x * m * down - 1.0 <= t
    ensures d * lower - 1.0 <= t
  {
    Regrouped(d, m, down);
    RealProductOrder(d * down, x, m);
    RealProductOrder(d * down * m, x * m, down);
  }

  lemma NotAbove(d: real, m: real, up: real, upper: real, x: real, t: real)
    requires m >= 0.0 && up >= 0.0 && upper == m * (up * up)
    requires x <= d * up && t <= x * m * up
    ensures t <= d * upper
  {
    Regrouped(d, m, up);
    RealProductOrder(x, d * up, m);
    RealProductOrder(x * m, d * up * m, up);
  }

  /** What is used of the rounding: both of its errors, for durations and for products. */
  ghost predicate Errs(round: real -> real, down: real, up: real) {
    && (forall d: nat :: DurationErrs(round, down, up, d))
    && (forall p: real :: ProductErrs(round, down, up, p))
  }

  ghost predicate DurationErrs(round: real -> real, down: real, up: real, d: nat) {
    0.0 <= d as real * down <= round(d as real) <= d as real * up
  }

  ghost predicate ProductErrs(round: real -> real, down: real, up: real, p: real) {
    p >= 0.0 ==> p * down - 1.0 <= Truncated(round(p)) as real <= p * up && Truncated(round(p)) >= 0
  }

  lemma RoundingErrs(round: real -> real)
    requires Rounds(round)
    ensures Errs(round, DOWN, UP)
  {
    forall d: nat ensures DurationErrs(round, DOWN, UP, d) {
      RoundedDuration(round, d);
      ProductSign(d as real, DOWN);
    }
    forall p: real ensures ProductErrs(round, DOWN, UP, p) {
      if p >= 0.0 {
        RoundedProduct(round, p);
      }
    }
  }

  lemma StepUnfolded(round: real -> real, m: real, d: int)
    ensures Unbounded(round, m)(d) == Truncated(round(round(d as real) * m))
  {
    assert Product(round, d, m) == round(round(d as real) * m);
  }

  lemma OneStep(round: real -> real, m: real, down: real, up: real, d: nat)
    requires Errs(round, down, up) && m >= 0.0 && 0.0 <= down <= up
    ensures d as real * down <= round(d as real) <= d as real * up
    ensures var t := Unbounded(round, m)(d);
            round(d as real) * m * down - 1.0 <= t as real <= round(d as real) * m * up && t >= 0
  {
    assert DurationErrs(round, down, up, d);
    ProductSign(round(d as real), m);
    assert ProductErrs(round, down, up, round(d as real) * m);
    StepUnfolded(round, m, d);
  }

  lemma StepNotBelow(round: real -> real, m: real, down: real, up: real, lower: real, d: nat)
    requires Errs(round, down, up) && m >= 0.0 && 0.0 <= down <= up && lower == m * (down * down)
    ensures d as real * lower - 1.0 <= Unbounded(round, m)(d) as real && Unbounded(round, m)(d) >= 0
  {
    OneStep(round, m, down, up, d);
    NotBelow(d as real, m, down, lower, round(d as real), Unbounded(round, m)(d) as real);
  }

  lemma StepNotAbove(round: real -> real, m: real, down: real, up: real, upper: real, d: nat)
    requires Errs(round, down, up) && m >= 0.0 && 0.0 <= down <= up && upper == m * (up * up)
    ensures Unbounded(round, m)(d) as real <= d as real * upper
  {
    OneStep(round, m, down, up, d);
    NotAbove(d as real, m, up, upper, round(d as real), Unbounded(round, m)(d) as real);
  }

  lemma AllStepsStayWithin(round: real -> real, m: real, down: real, up: real, lower: real, upper: real)
    requires Errs(round, down, up) && m >= 0.0 && 0.0 <= down <= up
    requires lower == m * (down * down) && upper == m * (up * up)
    ensures StepsWithin(Unbounded(round, m), lower, upper) && lower >= 0.0 && upper >= 0.0
  {
    var step := Unbounded(round, m);
    forall d: nat ensures StepWithin(step, lower, upper, d) {
      StepNotBelow(round, m, down, up, lower, d);
      StepNotAbove(round, m, down, up, upper, d);
    }
    ProductSign(down, down);
    ProductSign(up, up);
    ProductSign(m, down * down);
    ProductSign(m, up * up);
  }

  lemma EscalatedWithin(fp: Floats, base: nat, multiplier: real, lower: real, upper: real, factor: real, k: nat)
    requires Converts(fp.convert) && StepsWithin(Unbounded(fp.round, multiplier), lower, upper)
    requires lower >= 0.0 && factor >= upper >= 0.0 && factor >= 1.0
    requires Raised(base as real, factor, k) <= MAX_INT64 as real
    ensures Shrunk(base as real, lower, k)
         <= Escalated(fp, base, multiplier, k) as real
         <= Raised(base as real, upper, k)
  {
    var step := Unbounded(fp.round, multiplier);
    StaysWithin(step, lower, upper, factor, base, base as real, k);
    IteratesWithin(step, lower, upper, base as real, base, base as real, k);
    EscalatedWithoutOverflow(fp, base, multiplier, k);
  }

  function Capped(x: real): real {
    if x > MAX_BACKOFF as real then MAX_BACKOFF as real else x
  }

  lemma CappedBetween(lo: real, e: int, hi: real)
    requires lo <= e as real <= hi
    ensures Capped(lo) <= Min(MAX_BACKOFF, e) as real <= Capped(hi)
  {
  }

  /**
   * For every multiplier, every rounding and every conversion: as long as the growth by
   * multiplier x (1 + 2^-53)^2 stays in an int64, the backoff lies between that growth and the growth by
   * multiplier x (1 - 2^-53)^2 less one nanosecond a step, both capped at five minutes.
   */
  lemma BackoffWithin(fp: Floats, base: nat, multiplier: real, factor: real, hits: nat)
    requires Rounds(fp.round) && Converts(fp.convert) && multiplier >= 0.0 && hits >= 1
    requires factor >= 1.0 && factor >= multiplier * HIGH
    requires Raised(base as real, factor, Min(hits, 10) - 1) <= MAX_INT64 as real
    ensures var k := Min(hits, 10) - 1;
            Capped(Shrunk(base as real, multiplier * LOW, k))
            <= Backoff(fp, base, multiplier, hits) as real
            <= Capped(Raised(base as real, multiplier * HIGH, k))
  {
    var k := Min(hits, 10) - 1;
    var lower, upper := multiplier * LOW, multiplier * HIGH;
    RoundingErrs(fp.round);
    AllStepsStayWithin(fp.round, multiplier, DOWN, UP, lower, upper);
    EscalatedWithin(fp, base, multiplier, lower, upper, factor, k);
    CappedBetween(Shrunk(base as real, lower, k), Escalated(fp, base, multiplier, k), Raised(base as real, upper, k));
  }

  /** Where the lower growth reaches five minutes the backoff is five minutes, whatever was lost. */
  lemma CertainlyCapped(fp: Floats, base: nat, multiplier: real, factor: real, hits: nat)
    requires Rounds(fp.round) && Converts(fp.convert) && multiplier >= 0.0 && hits >= 1
    requires factor >= 1.0 && factor >= multiplier * HIGH
    requires Raised(base as real, factor, Min(hits, 10) - 1) <= MAX_INT64 as real
    requires Shrunk(base as real, multiplier * LOW, Min(hits, 10) - 1) >= MAX_BACKOFF as real
    ensures Backoff(fp, base, multiplier, hits) == MAX_BACKOFF
  {
    BackoffWithin(fp, base, multiplier, factor, hits);
  }

  /** Where the upper growth stays below five minutes so does the backoff. */
  lemma CertainlyBelowCap(fp: Floats, base: nat, multiplier: real, factor: real, hits: nat)
    requires Rounds(fp.round) && Converts(fp.convert) && multiplier >= 0.0 && hits >= 1
    requires factor >= 1.0 && factor >= multiplier * HIGH
    requires Raised(base as real, factor, Min(hits, 10) - 1) <= MAX_INT64 as real
    requires Raised(base as real, multiplier * HIGH, Min(hits, 10) - 1) < MAX_BACKOFF as real
    ensures Backoff(fp, base, multiplier, hits) < MAX_BACKOFF
  {
    BackoffWithin(fp, base, multiplier, factor, hits);
  }
}
