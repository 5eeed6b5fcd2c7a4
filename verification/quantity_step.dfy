/** The quantity grid two venues share: the least common multiple of rational steps. */
module QuantityStep {
  import opened Domain

  /** The fraction a step's decimal text denotes. */
  datatype Ratio = Ratio(num: nat, den: nat)

  type Fraction = r: Ratio | r.den > 0 witness Ratio(0, 1)

  function Value(f: Fraction): real {
    f.num as real / f.den as real
  }

  // ---------------------------------------------------------------------------------------------
  // Integer multiples
  // ---------------------------------------------------------------------------------------------

  predicate Times(m: int, k: int, a: int) {
    m == k * a
  }

  ghost predicate Multiple(m: int, a: int) {
    exists k :: Times(m, k, a)
  }

  lemma MultipleOfMultiple(m: int, a: int, b: int)
    requires Multiple(m, a) && Multiple(a, b)
    ensures Multiple(m, b)
  {
    var k :| Times(m, k, a);
    var j :| Times(a, j, b);
    assert Times(m, k * j, b) by {
      assert k * (j * b) == k * j * b;
    }
  }

  /** math.lcm: the least positive multiple of a that b divides. */
  function Lcm(a: nat, b: nat): (l: nat)
    requires a > 0 && b > 0
    ensures l > 0
  {
    var k := LeastFactor(a, b, 1);
    k * a
  }

  function LeastFactor(a: nat, b: nat, from: nat): (k: nat)
    requires a > 0 && b > 0 && 1 <= from <= b
    ensures from <= k <= b && k * a % b == 0
    ensures forall j :: from <= j < k ==> j * a % b != 0
    decreases b - from
  {
    if from * a % b == 0 then from
    else
      assert from < b by {
        MultipleModZero(a, b);
        assert b * a == a * b;
      }
      LeastFactor(a, b, from + 1)
  }

  lemma SmallMultipleIsZero(d: int, b: nat)
    requires b > 0 && 0 <= d * b < b
    ensures d == 0
  {
    assert d >= 1 ==> (d - 1) * b >= 0;
    assert d <= -1 ==> (-d - 1) * b >= 0;
  }

  lemma MultipleModZero(k: int, b: nat)
    requires b > 0
    ensures k * b % b == 0
  {
    var m := k * b;
    var q := m / b;
    assert m == q * b + m % b;
    assert (k - q) * b == m % b;
    SmallMultipleIsZero(k - q, b);
  }

  lemma ModZeroIsMultiple(m: int, b: nat)
    requires b > 0
    ensures m % b == 0 <==> Multiple(m, b)
  {
    if m % b == 0 {
      assert Times(m, m / b, b);
    }
    if Multiple(m, b) {
      var k :| Times(m, k, b);
      MultipleModZero(k, b);
    }
  }

  lemma LcmIsMultiple(a: nat, b: nat)
    requires a > 0 && b > 0
    ensures Multiple(Lcm(a, b), a) && Multiple(Lcm(a, b), b)
  {
    assert Times(Lcm(a, b), LeastFactor(a, b, 1), a);
    ModZeroIsMultiple(Lcm(a, b), b);
  }

  lemma DifferenceIsMultiple(m: int, n: int, a: int)
    requires Multiple(m, a) && Multiple(n, a)
    ensures Multiple(m - n, a)
  {
    var j :| Times(m, j, a);
    var k :| Times(n, k, a);
    assert Times(m - n, j - k, a);
  }

  lemma {:induction false} NotNegative(m: nat, a: nat)
    ensures m * a >= 0
  {
    if m > 0 {
      NotNegative(m - 1, a);
      assert m * a == (m - 1) * a + a;
    }
  }

  lemma ProductOrder(m: int, n: int, a: nat)
    requires a > 0
    ensures m < n ==> m * a <= n * a - a
    ensures m >= n ==> m * a >= n * a
  {
    if m < n {
      NotNegative(n - 1 - m, a);
      assert (n - 1 - m) * a == n * a - a - m * a;
    } else {
      NotNegative(m - n, a);
      assert (m - n) * a == m * a - n * a;
    }
  }

  lemma NoSmallerCommonMultiple(r: nat, a: nat, b: nat)
    requires a > 0 && b > 0 && r > 0 && Multiple(r, a) && Multiple(r, b)
    ensures r >= Lcm(a, b)
  {
    var k :| Times(r, k, a);
    var least := LeastFactor(a, b, 1);
    ModZeroIsMultiple(r, b);
    ProductOrder(k, 1, a);
    ProductOrder(k, least, a);
  }

  lemma QuotientAndRemainder(m: int, l: int)
    requires l > 0
    ensures m % l == m - m / l * l
  {
  }

  /** Every common multiple is a multiple of the least one: otherwise its remainder would be smaller. */
  lemma LcmDividesCommonMultiples(m: int, a: nat, b: nat)
    requires a > 0 && b > 0 && Multiple(m, a) && Multiple(m, b)
    ensures Multiple(m, Lcm(a, b))
  {
    var l := Lcm(a, b);
    var q, r := m / l, m % l;
    assert Times(q * l, q, l);
    LcmIsMultiple(a, b);
    MultipleOfMultiple(q * l, l, a);
    MultipleOfMultiple(q * l, l, b);
    QuotientAndRemainder(m, l);
    DifferenceIsMultiple(m, q * l, a);
    DifferenceIsMultiple(m, q * l, b);
    if r > 0 {
      NoSmallerCommonMultiple(r, a, b);
      assert false;
    }
    assert Times(m, q, l);
  }

  // ---------------------------------------------------------------------------------------------
  // Multiples of a step
  // ---------------------------------------------------------------------------------------------

  predicate TimesStep(q: real, k: int, step: Fraction) {
    q * step.den as real == (k * step.num) as real
  }

  /** The quantity is a whole number of steps. */
  ghost predicate OnStep(q: real, step: Fraction) {
    exists k :: TimesStep(q, k, step)
  }

  /** Scaled to a common denominator, steps are whole numbers, and quantities on a step whole multiples of them. */
  function Scaled(step: Fraction, den: nat): nat {
    step.num * (den / step.den)
  }

  lemma OnStepScales(q: real, k: int, step: Fraction, den: nat)
    requires den > 0 && Multiple(den, step.den) && TimesStep(q, k, step)
    ensures q * den as real == (k * Scaled(step, den)) as real
  {
    var c := DenominatorFactor(step.den, den);
    assert q * den as real == q * step.den as real * c as real;
    assert (k * step.num) as real * c as real == (k * step.num * c) as real;
    assert k * step.num * c == k * (step.num * c);
  }

  lemma ScaledQuantity(q: real, step: Fraction, den: nat) returns (x: int)
    requires den > 0 && Multiple(den, step.den) && OnStep(q, step)
    ensures q * den as real == x as real && Multiple(x, Scaled(step, den))
  {
    var k :| TimesStep(q, k, step);
    OnStepScales(q, k, step, den);
    x := k * Scaled(step, den);
    assert Times(x, k, Scaled(step, den));
  }

  lemma DenominatorFactor(d: nat, den: nat) returns (c: nat)
    requires d > 0 && den > 0 && Multiple(den, d)
    ensures c == den / d && c > 0 && den == c * d
  {
    ModZeroIsMultiple(den, d);
    c := den / d;
    assert den == c * d;
  }

  /** A quantity whose scaled value is a multiple of the scaled step is on the step. */
  lemma ScaledMultipleIsOnStep(q: real, x: int, step: Fraction, den: nat)
    requires den > 0 && Multiple(den, step.den)
    requires q * den as real == x as real && Multiple(x, Scaled(step, den))
    ensures OnStep(q, step)
  {
    var c := DenominatorFactor(step.den, den);
    var k :| Times(x, k, Scaled(step, den));
    assert x == k * step.num * c by {
      assert k * (step.num * c) == k * step.num * c;
    }
    var left := q * step.den as real;
    assert left * c as real == q * den as real by {
      assert (c * step.den) as real == c as real * step.den as real;
    }
    assert (k * step.num * c) as real == (k * step.num) as real * c as real;
    CancelFactor(left, (k * step.num) as real, c as real);
    assert TimesStep(q, k, step);
  }

  lemma CancelFactor(x: real, y: real, c: real)
    requires c != 0.0 && x * c == y * c
    ensures x == y
  {
    assert (x - y) * c == 0.0;
  }

  // ---------------------------------------------------------------------------------------------
  // The common step
  // ---------------------------------------------------------------------------------------------

  /** Least among the grids contained in every step: on it, all legs accept the quantity; and every quantity
      all legs accept is on it. */
  ghost predicate IsCommonStep(r: Fraction, steps: seq<Fraction>) {
    && r.num > 0
    && (forall s :: s in steps ==> OnStep(Value(r), s))
    && (forall q: real :: (forall s :: s in steps ==> OnStep(q, s)) ==> OnStep(q, r))
  }

  predicate Usable(step: Fraction) {
    step.num > 0 && Value(step) > FLAT_EPS
  }

  /** common_executable_quantity_step; None stands for 0.0. */
  method CommonExecutableQuantityStep(steps: seq<Fraction>) returns (r: Option<Fraction>)
    ensures r.Some? <==> steps != [] && forall s :: s in steps ==> Usable(s)
    ensures r.Some? ==> IsCommonStep(r.value, steps)
  {
    for i := 0 to |steps|
      invariant forall k :: 0 <= k < i ==> Usable(steps[k])
    {
      if Value(steps[i]) <= FLAT_EPS {
        assert !Usable(steps[i]);
        return None;
      }
      assert steps[i].num > 0;
    }
    if steps == [] {
      return None;
    }
    var den := CommonDenominator(steps);
    var num := CommonNumerator(steps, den);
    CommonStepIsLeast(steps, num, den);
    return Some(Ratio(num, den));
  }

  method CommonDenominator(steps: seq<Fraction>) returns (den: nat)
    requires forall s :: s in steps ==> s.num > 0
    ensures den > 0 && forall s :: s in steps ==> Multiple(den, s.den)
  {
    den := 1;
    for i := 0 to |steps|
      invariant den > 0 && forall k :: 0 <= k < i ==> Multiple(den, steps[k].den)
    {
      var next := Lcm(den, steps[i].den);
      LcmIsMultiple(den, steps[i].den);
      forall k | 0 <= k < i
        ensures Multiple(next, steps[k].den)
      {
        MultipleOfMultiple(next, den, steps[k].den);
      }
      den := next;
    }
  }

  /** The least common multiple of the scaled steps, by its universal property. */
  method CommonNumerator(steps: seq<Fraction>, den: nat) returns (num: nat)
    requires den > 0 && forall s :: s in steps ==> s.num > 0 && Multiple(den, s.den)
    ensures num > 0
    ensures forall s :: s in steps ==> Multiple(num, Scaled(s, den))
    ensures forall x: int :: (forall s :: s in steps ==> Multiple(x, Scaled(s, den))) ==> Multiple(x, num)
  {
    num := 1;
    forall x: int
      ensures Multiple(x, 1)
    {
      assert Times(x, x, 1);
    }
    for i := 0 to |steps|
      invariant num > 0
      invariant forall k :: 0 <= k < i ==> Multiple(num, Scaled(steps[k], den))
      invariant forall x: int :: (forall k :: 0 <= k < i ==> Multiple(x, Scaled(steps[k], den))) ==> Multiple(x, num)
    {
      var c := DenominatorFactor(steps[i].den, den);
      assert Scaled(steps[i], den) > 0;
      var next := Lcm(num, Scaled(steps[i], den));
      LcmIsMultiple(num, Scaled(steps[i], den));
      forall k | 0 <= k < i
        ensures Multiple(next, Scaled(steps[k], den))
      {
        MultipleOfMultiple(next, num, Scaled(steps[k], den));
      }
      forall x: int | forall k :: 0 <= k < i + 1 ==> Multiple(x, Scaled(steps[k], den))
        ensures Multiple(x, next)
      {
        LcmDividesCommonMultiples(x, num, Scaled(steps[i], den));
      }
      num := next;
    }
  }

  lemma CommonStepIsLeast(steps: seq<Fraction>, num: nat, den: nat)
    requires steps != [] && den > 0 && num > 0
    requires forall s :: s in steps ==> s.num > 0 && Multiple(den, s.den)
    requires forall s :: s in steps ==> Multiple(num, Scaled(s, den))
    requires forall x: int :: (forall s :: s in steps ==> Multiple(x, Scaled(s, den))) ==> Multiple(x, num)
    ensures IsCommonStep(Ratio(num, den), steps)
  {
    var r: Fraction := Ratio(num, den);
    assert Value(r) * den as real == num as real;
    forall s | s in steps
      ensures OnStep(Value(r), s)
    {
      ScaledMultipleIsOnStep(Value(r), num, s, den);
    }
    forall q: real | forall s :: s in steps ==> OnStep(q, s)
      ensures OnStep(q, r)
    {
      CommonQuantityIsOnStep(q, steps, r);
    }
  }

  lemma CommonQuantityIsOnStep(q: real, steps: seq<Fraction>, r: Fraction)
    requires steps != [] && r.num > 0
    requires forall s :: s in steps ==> s.num > 0 && Multiple(r.den, s.den)
    requires forall x: int :: (forall s :: s in steps ==> Multiple(x, Scaled(s, r.den))) ==> Multiple(x, r.num)
    requires forall s :: s in steps ==> OnStep(q, s)
    ensures OnStep(q, r)
  {
    assert steps[0] in steps;
    var x := ScaledQuantity(q, steps[0], r.den);
    forall s | s in steps
      ensures Multiple(x, Scaled(s, r.den))
    {
      var y := ScaledQuantity(q, s, r.den);
      assert x == y;
    }
    assert Multiple(x, r.num);
    WholeStepsAreOnStep(q, x, r);
  }

  lemma WholeStepsAreOnStep(q: real, x: int, r: Fraction)
    requires q * r.den as real == x as real && Multiple(x, r.num)
    ensures OnStep(q, r)
  {
    var j :| Times(x, j, r.num);
    assert TimesStep(q, j, r);
  }

  /** The common step depends only on which steps there are: not on their order, nor on repetitions. */
  lemma CommonStepIsUnique(r1: Fraction, r2: Fraction, steps1: seq<Fraction>, steps2: seq<Fraction>)
    requires IsCommonStep(r1, steps1) && IsCommonStep(r2, steps2)
    requires forall s :: s in steps1 <==> s in steps2
    ensures Value(r1) == Value(r2)
  {
    assert OnStep(Value(r1), r2) && OnStep(Value(r2), r1);
    var a :| TimesStep(Value(r1), a, r2);
    var b :| TimesStep(Value(r2), b, r1);
    MultipleIsTimes(r1, a, r2);
    MultipleIsTimes(r2, b, r1);
    EachOtherMultiples(Value(r1), Value(r2), a, b);
  }

  lemma MultipleIsTimes(r: Fraction, k: int, s: Fraction)
    requires r.num > 0 && s.num > 0 && TimesStep(Value(r), k, s)
    ensures Value(r) == k as real * Value(s)
    ensures Value(r) > 0.0 && Value(s) > 0.0
  {
    PositiveQuotient(r.num as real, r.den as real);
    PositiveQuotient(s.num as real, s.den as real);
    var d := s.den as real;
    assert Value(s) * d == s.num as real;
    assert Value(r) * d == k as real * s.num as real;
    assert k as real * Value(s) * d == k as real * s.num as real;
    CancelFactor(Value(r), k as real * Value(s), d);
  }

  lemma PositiveQuotient(n: real, d: real)
    requires n > 0.0 && d > 0.0
    ensures n / d > 0.0
  {
    var q := n / d;
    assert q * d == n;
  }

  lemma EachOtherMultiples(x: real, y: real, a: int, b: int)
    requires x > 0.0 && y > 0.0 && x == a as real * y && y == b as real * x
    ensures x == y
  {
    AtLeastOnce(x, y, a);
    AtLeastOnce(y, x, b);
  }

  lemma AtLeastOnce(x: real, y: real, a: int)
    requires x > 0.0 && y > 0.0 && x == a as real * y
    ensures x >= y
  {
    var c := a as real;
    assert c <= 0.0 ==> c * y <= 0.0;
    assert a >= 1;
    assert (c - 1.0) * y >= 0.0;
  }
}
