/** Euclid's algorithm and uniqueness of lowest terms. */
module Euclid {

  function GcdOf(a: nat, b: nat): nat
    decreases b
  {
    if b == 0 then a else GcdOf(b, a % b)
  }

  /** The source's remainder loop. */
  method Gcd(left: nat, right: nat) returns (g: nat)
    ensures g == GcdOf(left, right)
  {
    var l, r := left, right;
    while r != 0
      invariant GcdOf(l, r) == GcdOf(left, right)
      decreases r
    {
      l, r := r, l % r;
    }
    g := l;
  }

  function Abs(x: int): nat {
    if x < 0 then -x else x
  }

  lemma Associates(a: int, b: int, c: int)
    ensures (a * b) * c == a * (b * c)
  {
  }

  lemma Distributes(a: int, b: int, c: int)
    ensures (a + b) * c == a * c + b * c
  {
  }

  lemma GcdUnfolds(a: nat, b: nat)
    requires b > 0
    ensures GcdOf(a, b) == GcdOf(b, a % b)
  {
  }

  lemma SmallRemainder(a: nat, b: nat)
    requires a < b
    ensures a % b == a
  {
  }

  lemma SmallerFirst(a: nat, b: nat)
    requires a < b
    ensures GcdOf(a, b) == GcdOf(b, a)
  {
    hide GcdOf;
    GcdUnfolds(a, b);
    SmallRemainder(a, b);
  }

  lemma GcdSymmetric(a: nat, b: nat)
    ensures GcdOf(a, b) == GcdOf(b, a)
  {
    hide GcdOf;
    if a < b {
      SmallerFirst(a, b);
    } else if b < a {
      SmallerFirst(b, a);
    }
  }

  /** A common divisor of `b` and the remainder divides `a`. */
  lemma DivisionStep(a: nat, b: nat, p: int, q: int, g: int)
    requires b > 0 && b == p * g && a % b == q * g
    ensures a == ((a / b) * p + q) * g
  {
    var k := a / b;
    assert a == k * b + a % b;
    Associates(k, p, g);
    Distributes(k * p, q, g);
  }

  /** The result divides both arguments. */
  lemma {:induction false} GcdDivides(a: nat, b: nat) returns (p: nat, q: nat)
    ensures a == p * GcdOf(a, b) && b == q * GcdOf(a, b)
    decreases b
  {
    if b == 0 {
      p, q := 1, 0;
    } else {
      hide GcdOf;
      GcdUnfolds(a, b);
      var g := GcdOf(b, a % b);
      var p', q' := GcdDivides(b, a % b);
      DivisionStep(a, b, p', q', g);
      p, q := (a / b) * p' + q', p';
    }
  }

  /** The result is an integer combination of the arguments. */
  lemma {:induction false} Bezout(a: nat, b: nat) returns (x: int, y: int)
    ensures x * a + y * b == GcdOf(a, b)
    decreases b
  {
    if b == 0 {
      x, y := 1, 0;
    } else {
      var x', y' := Bezout(b, a % b);
      x, y := y', x' - y' * (a / b);
      calc {
        x * a + y * b;
        y' * a + (x' - y' * (a / b)) * b;
        { assert (y' * (a / b)) * b == y' * ((a / b) * b); }
        x' * b + y' * (a - (a / b) * b);
        { assert a - (a / b) * b == a % b; }
        x' * b + y' * (a % b);
      }
    }
  }

  /** Every common divisor divides the result, so it is the greatest. */
  lemma GcdIsGreatest(a: nat, b: nat, d: nat, p: nat, q: nat) returns (k: int)
    requires a == p * d && b == q * d
    ensures GcdOf(a, b) == k * d
  {
    var x, y := Bezout(a, b);
    k := x * p + y * q;
    assert x * (p * d) + y * (q * d) == (x * p + y * q) * d;
  }

  lemma ProductIsOne(k: int, m: int)
    requires k * m == 1 && m >= 0
    ensures k == 1 && m == 1
  {
    assert k <= 0 ==> k * m <= 0;
    assert k > 1 && m >= 1 ==> k * m >= k;
  }

  lemma GcdPositive(a: nat, b: nat)
    requires a > 0 || b > 0
    ensures GcdOf(a, b) > 0
  {
    var p, q := GcdDivides(a, b);
  }

  /** Dividing by the greatest common divisor leaves coprime numbers. */
  lemma ReducedIsCoprime(a: nat, b: nat)
    requires b > 0
    ensures GcdOf(a, b) > 0
    ensures a == (a / GcdOf(a, b)) * GcdOf(a, b) && b == (b / GcdOf(a, b)) * GcdOf(a, b)
    ensures GcdOf(a / GcdOf(a, b), b / GcdOf(a, b)) == 1
  {
    var g := GcdOf(a, b);
    GcdPositive(a, b);
    var p, q := GcdDivides(a, b);
    QuotientOfProduct(a, p, g);
    QuotientOfProduct(b, q, g);
    CofactorsAreCoprime(a, b, p, q);
  }

  lemma CofactorsAreCoprime(a: nat, b: nat, p: nat, q: nat)
    requires GcdOf(a, b) > 0 && a == p * GcdOf(a, b) && b == q * GcdOf(a, b)
    ensures GcdOf(p, q) == 1
  {
    var g := GcdOf(a, b);
    var x, y := Bezout(a, b);
    CombineProducts(x, y, p, q, g);
    CancelFactor(x * p + y * q, 1, g);
    var h := GcdOf(p, q);
    var u, v := GcdDivides(p, q);
    CombineProducts(x, y, u, v, h);
    ProductIsOne(x * u + y * v, h);
  }

  lemma CombineProducts(x: int, y: int, p: int, q: int, g: int)
    ensures x * (p * g) + y * (q * g) == (x * p + y * q) * g
  {
  }

  lemma CancelFactor(a: int, b: int, g: int)
    requires g != 0 && a * g == b * g
    ensures a == b
  {
    assert (a - b) * g == 0;
  }

  lemma QuotientOfProduct(a: nat, p: nat, g: nat)
    requires g > 0 && a == p * g
    ensures a / g == p
  {
    var k := p - a / g;
    assert k * g == a % g by { assert (a / g) * g + a % g == p * g; }
    assert k > 0 ==> k * g >= g;
    assert k < 0 ==> k * g < 0;
  }

  /** A fraction has one form in lowest terms with a positive denominator. */
  lemma LowestTermsAreUnique(n: int, d: int, n': int, d': int)
    requires d > 0 && d' > 0 && n * d' == n' * d
    requires GcdOf(Abs(n), d) == 1 && GcdOf(Abs(n'), d') == 1
    ensures n == n' && d == d'
  {
    var k := DenominatorDivides(n, d, n', d');
    var m := DenominatorDivides(n', d', n, d);
    assert (m * k) * d == 1 * d by { assert m * (k * d) == (m * k) * d; }
    CancelFactor(m * k, 1, d);
    assert k < 0 ==> k * d < 0;
    ProductIsOne(m, k);
    CancelFactor(n, n', d);
  }

  lemma CombinedFractions(s: int, y: int, n: int, d: int, n': int, d': int)
    requires s * n + y * d == 1 && n * d' == n' * d
    ensures d' == (s * n' + y * d') * d
  {
    Distributes(s * n, y * d, d');
    Associates(s, n, d');
    Associates(s, n', d);
    Distributes(s * n', y * d', d);
    Swapped(y, d, d');
  }

  lemma Swapped(a: int, b: int, c: int)
    ensures (a * b) * c == (a * c) * b
  {
  }

  lemma DenominatorDivides(n: int, d: int, n': int, d': int) returns (k: int)
    requires d > 0 && n * d' == n' * d && GcdOf(Abs(n), d) == 1
    ensures d' == k * d
  {
    hide GcdOf;
    var x, y := Bezout(Abs(n), d);
    var s := if n < 0 then -x else x;
    assert s * n == x * Abs(n);
    k := s * n' + y * d';
    CombinedFractions(s, y, n, d, n', d');
  }

  /** Division towards zero, as the source's `/`. */
  function TruncatingQuotient(n: int, g: nat): int
    requires g > 0
  {
    if n < 0 then -(-n / g) else n / g
  }

  /** Numerator and denominator divided by their greatest common divisor, denominator positive. */
  function LowestTerms(n: int, d: int): (r: (int, int))
    requires d != 0
    ensures IsLowest(n, d, r.0, r.1)
  {
    var divisor := GcdOf(Abs(n), Abs(d));
    GcdPositive(Abs(n), Abs(d));
    var p := TruncatingQuotient(n, divisor);
    var q := TruncatingQuotient(d, divisor);
    QuotientsAreLowest(n, d);
    if q < 0 then (-p, -q) else (p, q)
  }

  /** `p / q` is `n / d` in lowest terms with a positive denominator. */
  predicate IsLowest(n: int, d: int, p: int, q: int) {
    && q > 0 && p * d == n * q
    && GcdOf(Abs(p), q) == 1
    && Abs(p) <= Abs(n) && q <= Abs(d)
  }

  lemma QuotientsAreLowest(n: int, d: int)
    requires d != 0
    ensures GcdOf(Abs(n), Abs(d)) > 0
    ensures
      var g := GcdOf(Abs(n), Abs(d));
      var p, q := TruncatingQuotient(n, g), TruncatingQuotient(d, g);
      if q < 0 then IsLowest(n, d, -p, -q) else IsLowest(n, d, p, q)
  {
    var a, b := Abs(n), Abs(d);
    ReducedIsCoprime(a, b);
    var g := GcdOf(a, b);
    TruncatingIsExact(n, g);
    TruncatingIsExact(d, g);
    CofactorsAreLowest(n, d, TruncatingQuotient(n, g), TruncatingQuotient(d, g), g);
  }

  lemma CofactorsAreLowest(n: int, d: int, p: int, q: int, g: nat)
    requires g > 0 && d != 0 && n == p * g && d == q * g && GcdOf(Abs(p), Abs(q)) == 1
    ensures if q < 0 then IsLowest(n, d, -p, -q) else IsLowest(n, d, p, q)
  {
    ReducedIsProportional(n, d, p, q, g);
    assert q < 0 ==> (-p) * d == n * (-q);
  }

  lemma TruncatingIsExact(n: int, g: nat)
    requires g > 0 && Abs(n) == (Abs(n) / g) * g
    ensures TruncatingQuotient(n, g) * g == n && Abs(TruncatingQuotient(n, g)) == Abs(n) / g
  {
    var k := Abs(n) / g;
    assert k >= 0;
    assert (-k) * g == -(k * g);
  }

  lemma ReducedIsProportional(n: int, d: int, p: int, q: int, g: nat)
    requires g > 0 && d != 0 && n == p * g && d == q * g
    ensures p * d == n * q && q != 0 && Abs(p) <= Abs(n) && Abs(q) <= Abs(d)
  {
    assert p * (q * g) == (p * g) * q;
    GrowsByFactor(p, g);
    GrowsByFactor(q, g);
  }

  lemma GrowsByFactor(p: int, g: nat)
    requires g > 0
    ensures Abs(p) <= Abs(p * g)
  {
    assert p >= 0 ==> p * g >= p;
    assert p < 0 ==> p * g <= p;
  }

  /** Every form of the fraction reduces to its lowest terms. */
  lemma LowestTermsOf(n: int, d: int, p: int, q: int)
    requires d != 0 && q > 0 && GcdOf(Abs(p), q) == 1 && p * d == n * q
    ensures LowestTerms(n, d) == (p, q)
  {
    var r := LowestTerms(n, d);
    CrossCancel(n, d, p, q, r.0, r.1);
    LowestTermsAreUnique(p, q, r.0, r.1);
  }

  lemma CrossCancel(n: int, d: int, p: int, q: int, a: int, b: int)
    requires d != 0 && p * d == n * q && a * d == n * b
    ensures p * b == a * q
  {
    assert (p * b) * d == (p * d) * b;
    assert (a * q) * d == (a * d) * q;
    assert (n * q) * b == (n * b) * q;
    CancelFactor(p * b, a * q, d);
  }

  lemma MulMonotone(a: int, b: int, c: int)
    requires a <= b && c >= 0
    ensures a * c <= b * c
  {
  }
}
