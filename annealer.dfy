/** Linear annealing of a scalar from a start value to an end value over a fixed number of
    steps (class LinearAnneaer in fqf_iqn/utils.py; the class keeps the source's spelling).
    Values are reals: the source divides with Python's true division. */
module Annealer {

  function Min(x: nat, y: nat): nat
  {
    if x <= y then x else y
  }

  /** How far along the schedule `steps` is: steps / numSteps. */
  function Fraction(steps: nat, numSteps: nat): real
    requires numSteps > 0
  {
    (steps as real) / (numSteps as real)
  }

  /** The reference schedule: the point Fraction(steps, numSteps) of the way from start to end. */
  function Interpolate(start: real, end: real, numSteps: nat, steps: nat): real
    requires numSteps > 0
  {
    start + (end - start) * Fraction(steps, numSteps)
  }

  /** The fraction is 0 at step 0 and 1 at numSteps. */
  lemma FractionEnds(numSteps: nat)
    requires numSteps > 0
    ensures Fraction(0, numSteps) == 0.0 && Fraction(numSteps, numSteps) == 1.0
  {
    var k := numSteps as real;
    assert 0.0 / k == 0.0;
    assert k / k == 1.0;
  }

  /** The fraction grows with steps. */
  lemma FractionMonotone(s1: nat, s2: nat, numSteps: nat)
    requires numSteps > 0 && s1 <= s2
    ensures Fraction(s1, numSteps) <= Fraction(s2, numSteps)
  {
    var k := numSteps as real;
    var f1, f2 := Fraction(s1, numSteps), Fraction(s2, numSteps);
    assert f1 * k == s1 as real;
    assert f2 * k == s2 as real;
    ScaleStrict(f2, f1, k);
  }

  /** Up to numSteps the fraction stays in [0, 1]. */
  lemma FractionInUnit(steps: nat, numSteps: nat)
    requires numSteps > 0 && steps <= numSteps
    ensures 0.0 <= Fraction(steps, numSteps) <= 1.0
  {
    FractionEnds(numSteps);
    FractionMonotone(0, steps, numSteps);
    FractionMonotone(steps, numSteps, numSteps);
  }

  /** Multiplying by a positive k keeps a strict order. */
  lemma ScaleStrict(x: real, y: real, k: real)
    requires 0.0 < k
    ensures x < y ==> x * k < y * k
  {
    assert y * k - x * k == (y - x) * k;
  }

  /** The sign of d * g for a non-negative g follows the sign of d. */
  lemma MulSigns(d: real, g: real)
    requires 0.0 <= g
    ensures 0.0 <= d ==> 0.0 <= d * g
    ensures d <= 0.0 ==> d * g <= 0.0
  {
    if d < 0.0 {
      assert d * g == -((-d) * g);
    }
  }

  /** Scaling d by a fraction f in [0, 1] lands between 0 and d. */
  lemma ScaleBetween(d: real, f: real)
    requires 0.0 <= f <= 1.0
    ensures 0.0 <= d ==> 0.0 <= d * f <= d
    ensures d <= 0.0 ==> d <= d * f <= 0.0
  {
    var g := 1.0 - f;
    assert d == d * f + d * g;
    MulSigns(d, f);
    MulSigns(d, g);
  }

  /** The schedule starts at the start value and reaches the end value at numSteps. */
  lemma InterpolateEndpoints(start: real, end: real, numSteps: nat)
    requires numSteps > 0
    ensures Interpolate(start, end, numSteps, 0) == start
    ensures Interpolate(start, end, numSteps, numSteps) == end
  {
    FractionEnds(numSteps);
  }

  /** Between step 0 and numSteps the value never leaves the range spanned by start and end. */
  lemma InterpolateInRange(start: real, end: real, numSteps: nat, steps: nat)
    requires numSteps > 0 && steps <= numSteps
    ensures start <= end ==> start <= Interpolate(start, end, numSteps, steps) <= end
    ensures end <= start ==> end <= Interpolate(start, end, numSteps, steps) <= start
  {
    var d, f := end - start, Fraction(steps, numSteps);
    FractionInUnit(steps, numSteps);
    ScaleBetween(d, f);
    assert Interpolate(start, end, numSteps, steps) == start + d * f;
  }

  /** The value moves monotonically towards the end value as steps grows. */
  lemma InterpolateMonotone(start: real, end: real, numSteps: nat, s1: nat, s2: nat)
    requires numSteps > 0 && s1 <= s2
    ensures start <= end ==> Interpolate(start, end, numSteps, s1) <= Interpolate(start, end, numSteps, s2)
    ensures end <= start ==> Interpolate(start, end, numSteps, s2) <= Interpolate(start, end, numSteps, s1)
  {
    FractionMonotone(s1, s2, numSteps);
    var d, f1, f2 := end - start, Fraction(s1, numSteps), Fraction(s2, numSteps);
    var g := f2 - f1;
    assert d * f2 == d * f1 + d * g;
    MulSigns(d, g);
    assert Interpolate(start, end, numSteps, s1) == start + d * f1;
    assert Interpolate(start, end, numSteps, s2) == start + d * f2;
  }

  /** The slope-intercept form a * steps + b of the source is the reference schedule. */
  lemma SlopeForm(start: real, end: real, numSteps: nat, steps: nat)
    requires numSteps > 0
    ensures ((end - start) / (numSteps as real)) * (steps as real) + start
         == Interpolate(start, end, numSteps, steps)
  {
    var k, s := numSteps as real, steps as real;
    var u, v := (end - start) / k, Fraction(steps, numSteps);
    assert u * k == end - start && v * k == s;
    assert u * s == u * (v * k) == (u * k) * v;
  }

  /** The step counter after k calls of step, starting from `steps`. */
  function StepsAfter(steps: nat, numSteps: nat, k: nat): nat
  {
    if k == 0 then steps else Min(numSteps, StepsAfter(steps, numSteps, k - 1) + 1)
  }

  /** k calls of step from `steps` leave the counter at min(numSteps, steps + k). */
  lemma {:induction false} StepsAfterIsClamped(steps: nat, numSteps: nat, k: nat)
    requires steps <= numSteps
    ensures StepsAfter(steps, numSteps, k) == Min(numSteps, steps + k)
  {
    if k > 0 {
      StepsAfterIsClamped(steps, numSteps, k - 1);
    }
  }

  /** From a fresh annealer, once numSteps calls of step have been made, get returns the
      end value, however many further calls follow. */
  lemma {:induction false} EndValueIsKept(start: real, end: real, numSteps: nat, k: nat)
    requires 0 < numSteps <= k
    ensures StepsAfter(0, numSteps, k) == numSteps
    ensures Interpolate(start, end, numSteps, StepsAfter(0, numSteps, k)) == end
  {
    StepsAfterIsClamped(0, numSteps, k);
    InterpolateEndpoints(start, end, numSteps);
  }

  class LinearAnneaer {
    var steps: nat
    const startValue: real
    const endValue: real
    const numSteps: nat
    /** Slope and intercept, fixed at construction. */
    const a: real
    const b: real

    ghost predicate Valid()
      reads this
    {
      0 < numSteps && steps <= numSteps &&
      a == (endValue - startValue) / (numSteps as real) && b == startValue
    }

    /** __init__: num_steps must be a positive integer. */
    constructor (startValue: real, endValue: real, numSteps: nat)
      requires numSteps > 0
      ensures Valid()
      ensures steps == 0
      ensures this.startValue == startValue && this.endValue == endValue && this.numSteps == numSteps
    {
      this.steps := 0;
      this.startValue := startValue;
      this.endValue := endValue;
      this.numSteps := numSteps;
      this.a := (endValue - startValue) / (numSteps as real);
      this.b := startValue;
    }

    /** step: one more step, but never past numSteps. */
    method Step()
      requires Valid()
      modifies this
      ensures Valid()
      ensures steps == Min(numSteps, old(steps) + 1)
      ensures old(steps) <= steps
      ensures old(steps) == numSteps ==> steps == numSteps
    {
      steps := Min(numSteps, steps + 1);
    }

    /** get: the annealed value a * steps + b, which is the reference schedule at the current
        step. The source asserts 0 < steps <= num_steps; the upper half always holds. */
    function Get(): (v: real)
      reads this
      requires Valid() && 0 < steps
      ensures v == Interpolate(startValue, endValue, numSteps, steps)
      ensures steps == numSteps ==> v == endValue
      ensures startValue <= endValue ==> startValue <= v <= endValue
      ensures endValue <= startValue ==> endValue <= v <= startValue
    {
      SlopeForm(startValue, endValue, numSteps, steps);
      InterpolateEndpoints(startValue, endValue, numSteps);
      InterpolateInRange(startValue, endValue, numSteps, steps);
      a * (steps as real) + b
    }
  }

  /** Annealing 0 to 10 over 5 steps: 2 after one step, 10 after five. */
  method ExampleZeroToTen()
  {
    var an := new LinearAnneaer(0.0, 10.0, 5);
    an.Step();
    assert an.Get() == 2.0;
    an.Step();
    an.Step();
    an.Step();
    an.Step();
    assert an.Get() == 10.0;
    an.Step();
    assert an.Get() == 10.0;
  }
}
