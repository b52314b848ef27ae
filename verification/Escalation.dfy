/**
 * The backoff of pkg/apis/runtime_state.go: a duration multiplied by a float again and again. What
 * float64 rounding and the conversion back to int64 do is given by two functions, of which only
 * what IEEE 754 and the Go specification promise is used.
 */
module Escalation {
  import opened GoInt

  const MAX_BACKOFF: int := 300_000_000_000
  const EXACT: int := 0x20_0000_0000_0000  // 2^53
  const MIN_INT64: int := -0x8000_0000_0000_0000
  const MAX_INT64: int := 0x7fff_ffff_ffff_ffff

  predicate IsInt64(n: int) {
    MIN_INT64 <= n <= MAX_INT64
  }

  /** How a real is rounded to a float64, and what converting a float64 to an int64 gives. */
  datatype Floats = Floats(round: real -> real, convert: real -> int)

  function Truncated(x: real): int {
    if x >= 0.0 then x.Floor else -(-x).Floor
  }

  /** Half a unit in the last place, relative: 2^-53. */
  const U: real := 1.0 / 9007199254740992.0

  predicate ExactAt(round: real -> real, n: int) {
    -EXACT <= n <= EXACT ==> round(n as real) == n as real
  }

  /** Rounding keeps whole numbers up to 2^53, keeps order, and errs by 2^-53 of the value at most. */
  ghost predicate Rounds(round: real -> real) {
    && (forall n: int :: ExactAt(round, n))
    && (forall x: real, y: real :: x <= y ==> round(x) <= round(y))
    && (forall x: real :: x >= 0.5 ==> x * (1.0 - U) <= round(x) <= x * (1.0 + U))
  }

  /** Conversion truncates what fits in an int64; of what does not, only the type is known. */
  ghost predicate Converts(convert: real -> int) {
    forall x: real :: IsInt64(convert(x)) && (IsInt64(Truncated(x)) ==> convert(x) == Truncated(x))
  }

  /** The product of a duration and a factor, as rounded but not converted yet. */
  function Product(round: real -> real, duration: int, factor: real): real {
    round(round(duration as real) * factor)
  }

  /** time.Duration(float64(duration) * factor) */
  function Scale(fp: Floats, duration: int, factor: real): int {
    fp.convert(Product(fp.round, duration, factor))
  }

  function ScaleBy(fp: Floats, factor: real): int -> int {
    (d: int) => Scale(fp, d, factor)
  }

  function Iterate(step: int -> int, d: int, steps: nat): int
    decreases steps
  {
    if steps == 0 then d else Iterate(step, step(d), steps - 1)
  }

  /** The loop of triggerBackoff. */
  function Escalated(fp: Floats, base: int, multiplier: real, steps: nat): int {
    Iterate(ScaleBy(fp, multiplier), base, steps)
  }

  /** The backoff after so many rate limit hits. */
  function Backoff(fp: Floats, base: int, multiplier: real, hits: nat): int
    requires hits >= 1
  {
    Min(MAX_BACKOFF, Escalated(fp, base, multiplier, Min(hits, 10) - 1))
  }

  // The escalation without the bounds of an int64.

  function Unbounded(round: real -> real, multiplier: real): int -> int {
    (d: int) => Truncated(Product(round, d, multiplier))
  }

  /** Every result on the way is an int64. */
  predicate StaysInt64(step: int -> int, d: int, steps: nat)
    decreases steps
  {
    steps > 0 ==> IsInt64(step(d)) && StaysInt64(step, step(d), steps - 1)
  }

  /** Every product on the way, rounded and cut, is an int64. */
  predicate Fits(round: real -> real, base: int, multiplier: real, steps: nat) {
    StaysInt64(Unbounded(round, multiplier), base, steps)
  }

  lemma {:induction false} SameIterates(f: int -> int, g: int -> int, d: int, steps: nat)
    requires forall x: int :: IsInt64(f(x)) ==> g(x) == f(x)
    requires StaysInt64(f, d, steps)
    ensures Iterate(g, d, steps) == Iterate(f, d, steps)
    decreases steps
  {
    if steps > 0 {
      SameIterates(f, g, f(d), steps - 1);
    }
  }

  lemma EscalatedWithoutOverflow(fp: Floats, base: int, multiplier: real, steps: nat)
    requires Converts(fp.convert) && Fits(fp.round, base, multiplier, steps)
    ensures Escalated(fp, base, multiplier, steps) == Iterate(Unbounded(fp.round, multiplier), base, steps)
  {
    SameIterates(Unbounded(fp.round, multiplier), ScaleBy(fp, multiplier), base, steps);
  }

  // Whole multipliers.

  /** d x m^k */
  function Grown(d: nat, m: nat, k: nat): nat
    decreases k
  {
    if k == 0 then d else Grown(d * m, m, k - 1)
  }

  /** What a step of a whole escalation is to do: exact up to 2^53, and not back below it. */
  ghost predicate WholeStep(step: int -> int, m: nat, d: nat) {
    && (d <= EXACT && d * m <= EXACT ==> step(d) == d * m)
    && (d * m >= EXACT ==> step(d) >= EXACT)
  }

  ghost predicate WholeSteps(step: int -> int, m: nat) {
    forall d: nat :: WholeStep(step, m, d)
  }

  lemma GrowsBy(d: nat, m: nat)
    requires m >= 1
    ensures d * m >= d
  {
  }

  lemma {:induction false} GrownIsMore(d: nat, m: nat, k: nat)
    requires m >= 1
    ensures Grown(d, m, k) >= d
    decreases k
  {
    if k > 0 {
      GrowsBy(d, m);
      GrownIsMore(d * m, m, k - 1);
    }
  }

  lemma {:induction false} BigStaysBig(step: int -> int, d: int, m: nat, k: nat)
    requires m >= 1 && d >= EXACT && WholeSteps(step, m)
    ensures Iterate(step, d, k) >= EXACT
    decreases k
  {
    if k > 0 {
      GrowsBy(d, m);
      assert WholeStep(step, m, d);
      BigStaysBig(step, step(d), m, k - 1);
    }
  }

  /** Up to 2^53 the escalation is the power; beyond, it at least stays beyond. */
  lemma {:induction false} WholeIterates(step: int -> int, d: nat, m: nat, k: nat)
    requires m >= 1 && WholeSteps(step, m)
    ensures Grown(d, m, k) <= EXACT ==> Iterate(step, d, k) == Grown(d, m, k) && StaysInt64(step, d, k)
    ensures Grown(d, m, k) >= EXACT ==> Iterate(step, d, k) >= EXACT
    decreases k
  {
    if k > 0 {
      GrowsBy(d, m);
      GrownIsMore(d * m, m, k - 1);
      assert WholeStep(step, m, d);
      if d * m <= EXACT {
        WholeIterates(step, d * m, m, k - 1);
      } else {
        BigStaysBig(step, step(d), m, k - 1);
      }
    }
  }

  lemma {:induction false} ZeroIterates(step: int -> int, d: nat, k: nat)
    requires forall x: int :: step(x) == 0
    ensures StaysInt64(step, d, k)
    ensures k > 0 ==> Iterate(step, d, k) == 0 && Grown(d, 0, k) == 0
    decreases k
  {
    if k > 0 {
      ZeroIterates(step, 0, k - 1);
    }
  }

  /** The step of a whole escalation does what it is to do. */
  lemma {:induction false} WholeProduct(d: int, m: nat)
    ensures d as real * m as real == (d * m) as real
    decreases m
  {
    if m > 0 {
      WholeProduct(d, m - 1);
    }
  }

  lemma RoundedAbove(round: real -> real, x: real, n: int)
    requires Rounds(round) && x >= n as real && -EXACT <= n <= EXACT
    ensures round(x) >= n as real
  {
    assert ExactAt(round, n);
    assert round(n as real) <= round(x);
  }

  lemma RoundedBelow(round: real -> real, x: real, n: int)
    requires Rounds(round) && x <= n as real && -EXACT <= n <= EXACT
    ensures round(x) <= n as real
  {
    assert ExactAt(round, n);
    assert round(x) <= round(n as real);
  }

  lemma CutAbove(x: real, n: nat)
    requires x >= n as real
    ensures Truncated(x) >= n
  {
  }

  lemma CutBelow(x: real, n: int)
    requires x <= n as real && n <= 0
    ensures Truncated(x) <= n
  {
  }

  lemma ProductGrows(x: real, m: nat, n: int)
    requires m >= 1
    ensures x >= n as real >= 0.0 ==> x * m as real >= n as real
    ensures x <= n as real <= 0.0 ==> x * m as real <= n as real
  {
    var extra := (m - 1) as real;
    assert x * m as real == x + x * extra;
    if x >= 0.0 {
      assert x * extra >= 0.0;
    } else {
      assert x * extra <= 0.0;
    }
  }

  lemma ExactStep(round: real -> real, d: int, factor: real, p: int)
    requires Rounds(round) && -EXACT <= d <= EXACT && -EXACT <= p <= EXACT
    requires d as real * factor == p as real
    ensures Product(round, d, factor) == p as real && Truncated(Product(round, d, factor)) == p
  {
    assert ExactAt(round, d) && ExactAt(round, p);
  }

  lemma LargeGrows(round: real -> real, d: nat, m: nat)
    requires Rounds(round) && m >= 1 && d >= EXACT
    ensures round(d as real) * m as real >= EXACT as real
  {
    RoundedAbove(round, d as real, EXACT);
    ProductGrows(round(d as real), m, EXACT);
  }

  lemma SmallIsExact(round: real -> real, d: nat, m: nat)
    requires Rounds(round) && d <= EXACT
    ensures round(d as real) * m as real == (d * m) as real
  {
    assert ExactAt(round, d);
    WholeProduct(d, m);
  }

  lemma BigStep(round: real -> real, d: nat, m: nat)
    requires Rounds(round) && m >= 1 && d * m >= EXACT
    ensures Truncated(Product(round, d, m as real)) >= EXACT
  {
    if d >= EXACT {
      LargeGrows(round, d, m);
    } else {
      SmallIsExact(round, d, m);
    }
    RoundedAbove(round, round(d as real) * m as real, EXACT);
    CutAbove(Product(round, d, m as real), EXACT);
  }

  lemma SmallStep(round: real -> real, d: nat, m: nat)
    requires Rounds(round) && d <= EXACT && d * m <= EXACT
    ensures Truncated(Product(round, d, m as real)) == d * m
  {
    WholeProduct(d, m);
    ExactStep(round, d, m as real, d * m);
  }

  lemma StepIsWhole(round: real -> real, m: nat)
    requires Rounds(round) && m >= 1
    ensures WholeSteps(Unbounded(round, m as real), m)
  {
    var step := Unbounded(round, m as real);
    forall d: nat ensures WholeStep(step, m, d) {
      if d * m >= EXACT {
        BigStep(round, d, m);
      }
      if d <= EXACT && d * m <= EXACT {
        SmallStep(round, d, m);
      }
    }
  }

  lemma StepIsZero(round: real -> real)
    requires Rounds(round)
    ensures forall d: int :: Unbounded(round, 0.0)(d) == 0
  {
    forall d: int ensures Unbounded(round, 0.0)(d) == 0 {
      assert round(d as real) * 0.0 == 0.0;
      assert ExactAt(round, 0);
    }
  }

  lemma WholeCapped(round: real -> real, base: nat, m: nat, k: nat)
    requires Rounds(round)
    ensures Min(MAX_BACKOFF, Iterate(Unbounded(round, m as real), base, k)) == Min(MAX_BACKOFF, Grown(base, m, k))
  {
    if m >= 1 {
      StepIsWhole(round, m);
      WholeIterates(Unbounded(round, m as real), base, m, k);
    } else {
      StepIsZero(round);
      ZeroIterates(Unbounded(round, 0.0), base, k);
    }
  }

  /** Without overflow the backoff under a whole multiplier is the capped exponential. */
  lemma WholeBackoff(fp: Floats, base: nat, m: nat, hits: nat)
    requires Rounds(fp.round) && Converts(fp.convert) && hits >= 1
    requires Fits(fp.round, base, m as real, Min(hits, 10) - 1)
    ensures Backoff(fp, base, m as real, hits) == Min(MAX_BACKOFF, Grown(base, m, Min(hits, 10) - 1))
  {
    EscalatedWithoutOverflow(fp, base, m as real, Min(hits, 10) - 1);
    WholeCapped(fp.round, base, m, Min(hits, 10) - 1);
  }

  /** A conversion that Go allows: what does not fit becomes the least int64, as on amd64. */
  function Amd64(x: real): int {
    if IsInt64(Truncated(x)) then Truncated(x) else MIN_INT64
  }

  function Amd64Step(round: real -> real, multiplier: real): int -> int {
    (d: int) => Amd64(Product(round, d, multiplier))
  }

  lemma NegativeProduct(round: real -> real, d: int, m: nat)
    requires Rounds(round) && m >= 1 && d <= -EXACT
    ensures Product(round, d, m as real) <= -EXACT as real
  {
    RoundedBelow(round, d as real, -EXACT);
    ProductGrows(round(d as real), m, -EXACT);
    RoundedBelow(round, round(d as real) * m as real, -EXACT);
  }

  lemma NegativeStep(round: real -> real, d: int, m: nat)
    requires Rounds(round) && m >= 1 && d <= -EXACT
    ensures Amd64Step(round, m as real)(d) <= -EXACT
  {
    NegativeProduct(round, d, m);
    CutBelow(Product(round, d, m as real), -EXACT);
  }

  lemma {:induction false} NegativeIterates(step: int -> int, d: int, k: nat)
    requires d <= -EXACT && forall x: int :: x <= -EXACT ==> step(x) <= -EXACT
    ensures Iterate(step, d, k) <= -EXACT
    decreases k
  {
    if k > 0 {
      NegativeIterates(step, step(d), k - 1);
    }
  }

  lemma {:induction false} OverflowGoesNegative(f: int -> int, g: int -> int, d: int, k: nat)
    requires forall x: int :: g(x) == if IsInt64(f(x)) then f(x) else MIN_INT64
    requires forall x: int :: x <= -EXACT ==> g(x) <= -EXACT
    requires !StaysInt64(f, d, k)
    ensures Iterate(g, d, k) <= -EXACT
    decreases k
  {
    if IsInt64(f(d)) {
      OverflowGoesNegative(f, g, f(d), k - 1);
    } else {
      NegativeIterates(g, MIN_INT64, k - 1);
    }
  }

  lemma OverflowIsSeen(round: real -> real, base: nat, m: nat, k: nat)
    requires Rounds(round) && !Fits(round, base, m as real, k)
    ensures Escalated(Floats(round, Amd64), base, m as real, k) < 0
  {
    if m == 0 {
      StepIsZero(round);
      ZeroIterates(Unbounded(round, 0.0), base, k);
    } else {
      var step := Amd64Step(round, m as real);
      forall x: int | x <= -EXACT ensures step(x) <= -EXACT {
        NegativeStep(round, x, m);
      }
      OverflowGoesNegative(Unbounded(round, m as real), step, base, k);
      SameStepsIterate(step, ScaleBy(Floats(round, Amd64), m as real), base, k);
    }
  }

  lemma {:induction false} SameStepsIterate(f: int -> int, g: int -> int, d: int, k: nat)
    requires forall x: int :: f(x) == g(x)
    ensures Iterate(f, d, k) == Iterate(g, d, k)
    decreases k
  {
    if k > 0 {
      SameStepsIterate(f, g, f(d), k - 1);
    }
  }

  /**
   * For every whole multiplier: the backoff is min(5 minutes, base x multiplier^(min(hits, 10) - 1))
   * whatever conversion Go makes, if and only if no product on the way overflows an int64.
   */
  lemma WholeBackoffIffFits(round: real -> real, base: nat, m: nat, hits: nat)
    requires Rounds(round) && hits >= 1
    ensures var k := Min(hits, 10) - 1;
            (forall convert: real -> int :: Converts(convert) ==>
               Backoff(Floats(round, convert), base, m as real, hits) == Min(MAX_BACKOFF, Grown(base, m, k)))
            <==> Fits(round, base, m as real, k)
  {
    var k := Min(hits, 10) - 1;
    if Fits(round, base, m as real, k) {
      forall convert: real -> int | Converts(convert)
        ensures Backoff(Floats(round, convert), base, m as real, hits) == Min(MAX_BACKOFF, Grown(base, m, k))
      {
        WholeBackoff(Floats(round, convert), base, m, hits);
      }
    } else {
      OverflowIsSeen(round, base, m, k);
      assert Converts(Amd64);
      assert Backoff(Floats(round, Amd64), base, m as real, hits) < 0;
    }
  }

  /** Nine doublings are a factor of 512 at most. */
  lemma {:induction false} Doublings(d: nat, k: nat, n: nat)
    requires k <= n
    ensures Grown(d, 2, k) <= Grown(d, 2, n)
    decreases k
  {
    if k == 0 {
      GrownIsMore(d, 2, n);
    } else {
      Doublings(d * 2, k - 1, n - 1);
    }
  }

  lemma PowersOfTwo(k: nat)
    requires k <= 9
    ensures Grown(1_000_000_000, 2, k) <= EXACT
  {
    Doublings(1_000_000_000, k, 9);
    assert Grown(1_000_000_000, 2, 9) == Grown(8_000_000_000, 2, 6) == Grown(64_000_000_000, 2, 3) == 512_000_000_000;
  }

  /** The default limiter: one second, doubled at each of the first nine hits, five minutes at most. */
  lemma DefaultBackoff(fp: Floats, hits: nat)
    requires Rounds(fp.round) && Converts(fp.convert) && hits >= 1
    ensures Backoff(fp, 1_000_000_000, 2.0, hits)
         == Min(300_000_000_000, Grown(1_000_000_000, 2, Min(hits, 10) - 1))
  {
    var k := Min(hits, 10) - 1;
    PowersOfTwo(k);
    StepIsWhole(fp.round, 2);
    WholeIterates(Unbounded(fp.round, 2 as real), 1_000_000_000, 2, k);
    WholeBackoff(fp, 1_000_000_000, 2, hits);
  }
}
