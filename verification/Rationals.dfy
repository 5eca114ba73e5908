/** Exact time values: lowest-terms fractions with `i64` fields and `i128` intermediates. */
module Rationals {
  import opened Wrappers
  import opened Bytes
  import opened Euclid

  datatype TimeError = ZeroDenominator | Overflow | InvalidRange | InvalidUnit | NonMonotonicAdaptedTicks

  /** Every intermediate value below has this type, so the verifier shows that none overflows. */
  type i128 = x: int |
      -0x8000_0000_0000_0000_0000_0000_0000_0000 <= x < 0x8000_0000_0000_0000_0000_0000_0000_0000

  /** A numerator and a denominator as they stand in memory or on the wire. */
  datatype Fraction = Fraction(numerator: i64, denominator: i64)

  predicate Canonical(r: Fraction) {
    r.denominator > 0 && GcdOf(Abs(r.numerator), r.denominator) == 1
  }

  type Rational = r: Fraction | Canonical(r) witness Fraction(0, 1)

  predicate FitsI64(x: int) {
    -TWO_TO_THE_63 <= x < TWO_TO_THE_63
  }

  predicate FitsI128Magnitude(x: int) {
    -0x8000_0000_0000_0000_0000_0000_0000_0000 < x < 0x8000_0000_0000_0000_0000_0000_0000_0000
  }

  /** `from_i128`. The least `i128` is outside: no caller produces it and negating it would overflow. */
  function FromI128(numerator: i128, denominator: i128): (r: Result<Rational, TimeError>)
    requires FitsI128Magnitude(numerator) && FitsI128Magnitude(denominator)
    ensures denominator == 0 <==> r == Err(ZeroDenominator)
    ensures r.Ok? ==> r.value.numerator * denominator == numerator * r.value.denominator
    ensures r.Err? && denominator != 0 ==> r.error == Overflow
  {
    if denominator == 0 then
      Err(ZeroDenominator)
    else if numerator == 0 then
      assert Canonical(Fraction(0, 1));
      Ok(Fraction(0, 1))
    else
      var (n, d) := LowestTerms(numerator, denominator);
      var n': i128, d': i128 := n, d;
      if FitsI64(n') && FitsI64(d') then Ok(Fraction(n', d')) else Err(Overflow)
  }

  /** Nothing representable is refused: the canonical form of the value is what is returned. */
  lemma FromI128IsComplete(numerator: i128, denominator: i128, q: Rational)
    requires FitsI128Magnitude(numerator) && FitsI128Magnitude(denominator) && denominator != 0
    requires q.numerator * denominator == numerator * q.denominator
    ensures FromI128(numerator, denominator) == Ok(q)
  {
    if numerator == 0 {
      ZeroHasUnitDenominator(q, denominator);
    } else {
      LowestTermsOf(numerator, denominator, q.numerator, q.denominator);
    }
  }

  lemma ZeroHasUnitDenominator(q: Rational, d: int)
    requires d != 0 && q.numerator * d == 0
    ensures q == Fraction(0, 1)
  {
    CancelFactor(q.numerator, 0, d);
    assert GcdOf(0, q.denominator) == GcdOf(q.denominator, 0) by { assert 0 % q.denominator == 0; }
  }

  function New(numerator: i64, denominator: i64): (r: Result<Rational, TimeError>)
    ensures r.Ok? ==> r.value.numerator * denominator == numerator * r.value.denominator
  {
    FromI128(numerator, denominator)
  }

  lemma ProductBound(a: i64, b: i64)
    ensures -0x4000_0000_0000_0000_0000_0000_0000_0000 <= a * b <= 0x4000_0000_0000_0000_0000_0000_0000_0000
    ensures b > 0 ==> Abs(a * b) <= 0x4000_0000_0000_0000_0000_0000_0000_0000 - 0x8000_0000_0000_0000
    ensures a > 0 && b > 0 ==> a * b > 0
  {
    if b > 0 {
      ScaleBound(a, b, TWO_TO_THE_63 - 1);
    } else {
      var d: int := b;
      var c := -d;
      assert a * b == -(a * c);
      ScaleBound(a, c, TWO_TO_THE_63);
    }
  }

  lemma ScaleBound(a: int, b: int, limit: int)
    requires -TWO_TO_THE_63 <= a <= TWO_TO_THE_63 && 0 <= b <= limit
    ensures Abs(a * b) <= TWO_TO_THE_63 * limit
  {
    MulMonotone(a, TWO_TO_THE_63, b);
    MulMonotone(-TWO_TO_THE_63, a, b);
  }

  function CheckedAdd(a: Rational, b: Rational): (r: Result<Rational, TimeError>) {
    ProductBound(a.numerator, b.denominator);
    ProductBound(b.numerator, a.denominator);
    ProductBound(a.denominator, b.denominator);
    var left: i128 := a.numerator * b.denominator;
    var right: i128 := b.numerator * a.denominator;
    var denominator: i128 := a.denominator * b.denominator;
    FromI128(left + right, denominator)
  }

  function CheckedSub(a: Rational, b: Rational): (r: Result<Rational, TimeError>) {
    ProductBound(a.numerator, b.denominator);
    ProductBound(b.numerator, a.denominator);
    ProductBound(a.denominator, b.denominator);
    var left: i128 := a.numerator * b.denominator;
    var right: i128 := b.numerator * a.denominator;
    var denominator: i128 := a.denominator * b.denominator;
    FromI128(left - right, denominator)
  }

  function CheckedMul(a: Rational, b: Rational): (r: Result<Rational, TimeError>) {
    ProductBound(a.numerator, b.numerator);
    ProductBound(a.denominator, b.denominator);
    FromI128(a.numerator * b.numerator, a.denominator * b.denominator)
  }

  function CheckedReciprocal(a: Rational): (r: Result<Rational, TimeError>) {
    New(a.denominator, a.numerator)
  }

  datatype Ordering = Less | Equal | Greater

  function Cmp(a: Rational, b: Rational): Ordering {
    ProductBound(a.numerator, b.denominator);
    ProductBound(b.numerator, a.denominator);
    var left: i128 := a.numerator * b.denominator;
    var right: i128 := b.numerator * a.denominator;
    if left < right then Ordering.Less else if left == right then Equal else Greater
  }

  // The meaning of a fraction is a real number; the operations are judged against it.

  function Value(r: Rational): real {
    r.numerator as real / r.denominator as real
  }

  lemma RealProduct(a: int, b: int)
    ensures (a * b) as real == a as real * b as real
  {
  }

  lemma QuotientIs(x: real, n: int, d: int)
    requires d != 0 && x * d as real == n as real
    ensures n as real / d as real == x
  {
  }

  lemma QuotientsEqual(a: int, b: int, c: int, d: int)
    requires b != 0 && d != 0
    ensures a as real / b as real == c as real / d as real <==> a * d == c * b
  {
    QuotientDifference(a, b, c, d);
  }

  lemma QuotientDifference(a: int, b: int, c: int, d: int)
    requires b != 0 && d != 0
    ensures (a as real / b as real - c as real / d as real) * (b * d) as real == (a * d - c * b) as real
    ensures b * d != 0
  {
    var x, y := a as real / b as real, c as real / d as real;
    assert x * b as real == a as real && y * d as real == c as real;
    RealProduct(b, d);
    RealProduct(a, d);
    RealProduct(c, b);
    var bd := b as real * d as real;
    assert x * bd == (x * b as real) * d as real;
    assert y * bd == (y * d as real) * b as real;
  }

  lemma QuotientsOrdered(a: int, b: int, c: int, d: int)
    requires b > 0 && d > 0
    ensures a as real / b as real < c as real / d as real <==> a * d < c * b
  {
    QuotientDifference(a, b, c, d);
    var gap := a as real / b as real - c as real / d as real;
    RealProduct(b, d);
    var bd := (b * d) as real;
    assert gap < 0.0 ==> gap * bd < 0.0;
    assert gap >= 0.0 ==> gap * bd >= 0.0;
  }

  /** `result` is the outcome of an exact computation of the real number `value`. */
  ghost predicate Exact(result: Result<Rational, TimeError>, value: real) {
    && (result.Ok? <==> exists r: Rational :: Value(r) == value)
    && (result.Ok? ==> Value(result.value) == value)
    && (result.Err? ==> result.error == Overflow)
  }

  /** Two rationals with one value are one rational. */
  lemma ValueDeterminesRational(a: Rational, b: Rational)
    requires Value(a) == Value(b)
    ensures a == b
  {
    QuotientsEqual(a.numerator, a.denominator, b.numerator, b.denominator);
    LowestTermsAreUnique(a.numerator, a.denominator, b.numerator, b.denominator);
  }

  lemma FromI128IsExact(n: i128, d: i128)
    requires FitsI128Magnitude(n) && FitsI128Magnitude(d) && d != 0
    ensures Exact(FromI128(n, d), n as real / d as real)
  {
    var result := FromI128(n, d);
    var value := n as real / d as real;
    if result.Ok? {
      QuotientsEqual(result.value.numerator, result.value.denominator, n, d);
      assert Value(result.value) == value;
    } else {
      forall r: Rational ensures Value(r) != value {
        if Value(r) == value {
          QuotientsEqual(r.numerator, r.denominator, n, d);
          FromI128IsComplete(n, d, r);
        }
      }
    }
  }

  lemma NewIsExact(n: i64, d: i64)
    requires d != 0
    ensures Exact(New(n, d), n as real / d as real)
  {
    FromI128IsExact(n, d);
  }

  lemma CombinedQuotients(a: int, b: int, c: int, d: int)
    requires b > 0 && d > 0
    ensures b * d > 0
    ensures (a * d + c * b) as real / (b * d) as real == a as real / b as real + c as real / d as real
    ensures (a * d - c * b) as real / (b * d) as real == a as real / b as real - c as real / d as real
  {
    QuotientDifference(a, b, c, d);
    QuotientIs(a as real / b as real - c as real / d as real, a * d - c * b, b * d);
    QuotientDifference(a, b, -c, d);
    assert (-c) as real / d as real == -(c as real / d as real);
    QuotientIs(a as real / b as real + c as real / d as real, a * d + c * b, b * d);
  }

  lemma ProductOfQuotients(a: int, b: int, c: int, d: int)
    requires b > 0 && d > 0
    ensures b * d > 0
    ensures (a * c) as real / (b * d) as real == (a as real / b as real) * (c as real / d as real)
  {
    var x, y := a as real / b as real, c as real / d as real;
    assert x * b as real == a as real && y * d as real == c as real;
    RealProduct(b, d);
    RealProduct(a, c);
    assert (x * y) * (b as real * d as real) == (x * b as real) * (y * d as real);
    QuotientIs(x * y, a * c, b * d);
  }

  lemma AddIsExact(a: Rational, b: Rational)
    ensures Exact(CheckedAdd(a, b), Value(a) + Value(b))
  {
    ProductBound(a.numerator, b.denominator);
    ProductBound(b.numerator, a.denominator);
    ProductBound(a.denominator, b.denominator);
    CombinedQuotients(a.numerator, a.denominator, b.numerator, b.denominator);
    FromI128IsExact(a.numerator * b.denominator + b.numerator * a.denominator, a.denominator * b.denominator);
  }

  lemma SubIsExact(a: Rational, b: Rational)
    ensures Exact(CheckedSub(a, b), Value(a) - Value(b))
  {
    ProductBound(a.numerator, b.denominator);
    ProductBound(b.numerator, a.denominator);
    ProductBound(a.denominator, b.denominator);
    CombinedQuotients(a.numerator, a.denominator, b.numerator, b.denominator);
    FromI128IsExact(a.numerator * b.denominator - b.numerator * a.denominator, a.denominator * b.denominator);
  }

  lemma ValueOfProduct(a: Rational, b: Rational)
    ensures a.denominator * b.denominator > 0
    ensures (a.numerator * b.numerator) as real / (a.denominator * b.denominator) as real == Value(a) * Value(b)
  {
    ProductOfQuotients(a.numerator, a.denominator, b.numerator, b.denominator);
  }

  lemma MulIsExact(a: Rational, b: Rational)
    ensures Exact(CheckedMul(a, b), Value(a) * Value(b))
  {
    ProductBound(a.numerator, b.numerator);
    ProductBound(a.denominator, b.denominator);
    var n: i128, d: i128 := a.numerator * b.numerator, a.denominator * b.denominator;
    FromI128IsExact(n, d);
    assert n as real / d as real == Value(a) * Value(b) by { ValueOfProduct(a, b); }
  }

  /** Subtracting what was added gives the first operand back, with no overflow in between. */
  lemma SubtractUndoesAdd(a: Rational, b: Rational)
    requires CheckedAdd(a, b).Ok?
    ensures CheckedSub(CheckedAdd(a, b).value, b) == Ok(a)
  {
    AddIsExact(a, b);
    var s := CheckedAdd(a, b).value;
    SubIsExact(s, b);
    assert Value(a) == Value(s) - Value(b);
    ValueDeterminesRational(CheckedSub(s, b).value, a);
  }

  /** `cmp` orders the values, and calls only identical fields equal. */
  lemma CmpOrdersValues(a: Rational, b: Rational)
    ensures Cmp(a, b) == Ordering.Less <==> Value(a) < Value(b)
    ensures Cmp(a, b) == Greater <==> Value(a) > Value(b)
    ensures Cmp(a, b) == Equal <==> a == b
  {
    QuotientsOrdered(a.numerator, a.denominator, b.numerator, b.denominator);
    QuotientsOrdered(b.numerator, b.denominator, a.numerator, a.denominator);
    if Cmp(a, b) == Equal {
      ValueDeterminesRational(a, b);
    }
  }

  lemma InverseQuotient(n: int, d: int)
    requires n != 0 && d != 0
    ensures n as real / d as real != 0.0
    ensures d as real / n as real == 1.0 / (n as real / d as real)
  {
    var v := n as real / d as real;
    assert v * d as real == n as real;
    var w := 1.0 / v;
    assert w * v == 1.0;
    assert w * n as real == (w * v) * d as real;
    QuotientIs(w, d, n);
  }

  lemma ReciprocalFields(a: Rational)
    requires a.numerator != 0
    ensures
      var n: int, d: int := a.numerator, a.denominator;
      LowestTerms(d, n) == if n > 0 then (d, n) else (-d, -n)
  {
    hide GcdOf, LowestTerms;
    var n: int, d: int := a.numerator, a.denominator;
    GcdSymmetric(Abs(n), d);
    if n > 0 {
      LowestTermsOf(d, n, d, n);
    } else {
      LowestTermsOf(d, n, -d, -n);
    }
  }

  lemma ReciprocalOverflow(a: Rational)
    ensures a.numerator == 0 ==> CheckedReciprocal(a) == Err(ZeroDenominator)
    ensures CheckedReciprocal(a) == Err(Overflow) <==> a.numerator == -TWO_TO_THE_63
  {
    hide GcdOf, LowestTerms;
    if a.numerator != 0 {
      ReciprocalFields(a);
    }
  }

  /** Reciprocals: the zero case is the only error besides overflow, which needs the least `i64`. */
  lemma ReciprocalIsExact(a: Rational)
    ensures a.numerator == 0 ==> CheckedReciprocal(a) == Err(ZeroDenominator)
    ensures a.numerator != 0 ==> Exact(CheckedReciprocal(a), 1.0 / Value(a))
    ensures CheckedReciprocal(a) == Err(Overflow) <==> a.numerator == -TWO_TO_THE_63
  {
    hide GcdOf, New, Exact;
    ReciprocalOverflow(a);
    if a.numerator != 0 {
      NewIsExact(a.denominator, a.numerator);
      InverseQuotient(a.numerator, a.denominator);
    }
  }
}
