/** Euclidean division, spelled out so that the solver never searches for products. */
module Arith {

  lemma Distribute(d: int, a: int, b: int)
    ensures d * (a - b) == d * a - d * b && d * (a + b) == d * a + d * b
  {
  }

  lemma AtLeast(d: int, k: int)
    requires d > 0 && k >= 1
    ensures d * k >= d
  {
  }

  /** Quotient and remainder are unique. */
  lemma QuotientIs(n: int, d: int, q: int, r: int)
    requires d > 0 && 0 <= r < d && n == d * q + r
    ensures n / d == q && n % d == r
  {
    var q', r' := n / d, n % d;
    Division(n, d);
    Distribute(d, q', q);
    if q' > q {
      AtLeast(d, q' - q);
    } else if q' < q {
      AtLeast(d, q - q');
      Distribute(d, q, q');
    }
  }

  lemma Division(n: int, d: int)
    requires d > 0
    ensures n == d * (n / d) + n % d && 0 <= n % d < d
  {
  }

  lemma DistributeRight(a: int, b: int, k: int)
    ensures (a + b) * k == a * k + b * k && (a - b) * k == a * k - b * k
  {
  }

  lemma Product3(a: int, b: int, c: int)
    ensures a * (b * c) == (a * b) * c
  {
  }

  /** Dividing twice is dividing once by the product. */
  lemma DivDiv(n: int, a: int, b: int)
    requires a > 0 && b > 0
    ensures a * b > 0 && n / a / b == n / (a * b)
  {
    var q, r := n / a, n % a;
    var q2, r2 := q / b, q % b;
    Division(n, a);
    Division(q, b);
    AtLeast(a, b);
    // n == a * (b * q2 + r2) + r
    Distribute(a, b * q2, r2);
    assert a * (b * q2 + r2) == a * (b * q2) + a * r2;
    Product3(a, b, q2);
    MulLess(a, r2, b);
    QuotientIs(n, a * b, q2, a * r2 + r);
  }

  lemma MulLess(a: int, r: int, b: int)
    requires a > 0 && 0 <= r < b
    ensures 0 <= a * r <= a * b - a
  {
    Distribute(a, b, r);
    AtLeast(a, b - r);
  }

  /** Multiplying numerator and denominator alike changes nothing. */
  lemma DivCancel(n: int, d: int, k: int)
    requires d > 0 && k > 0
    ensures d * k > 0 && (n * k) / (d * k) == n / d
  {
    var q, r := n / d, n % d;
    Division(n, d);
    AtLeast(d, k);
    MulLess(k, r, d);
    assert n * k == (d * q + r) * k == (d * q) * k + r * k;
    assert (d * q) * k == (d * k) * q by { Product3(k, d, q); }
    QuotientIs(n * k, d * k, q, r * k);
  }

  lemma MulMono(a: int, b: int, k: int)
    requires a <= b && k >= 0
    ensures a * k <= b * k
  {
  }

  lemma DivMono(a: int, b: int, d: int)
    requires a <= b && d > 0
    ensures a / d <= b / d
  {
    Division(a, d);
    Division(b, d);
    if a / d > b / d {
      Distribute(d, a / d, b / d);
      AtLeast(d, a / d - b / d);
    }
  }

  /** Floors of parts never exceed the floor of the whole. */
  lemma DivSuperadditive(a: int, b: int, d: int)
    requires d > 0
    ensures a / d + b / d <= (a + b) / d
  {
    Division(a, d);
    Division(b, d);
    Division(a + b, d);
    var s, q := a / d + b / d, (a + b) / d;
    Distribute(d, a / d, b / d);
    if s > q {
      Distribute(d, s, q);
      AtLeast(d, s - q);
    }
  }

  /** A floor is at least `q` exactly when the numerator is at least `d * q`. */
  lemma DivAtLeast(n: int, d: int, q: int)
    requires d > 0
    ensures n / d >= q <==> n >= d * q
  {
    Division(n, d);
    Distribute(d, n / d, q);
    if n / d >= q {
      if n / d > q { AtLeast(d, n / d - q); }
    } else {
      Distribute(d, q, n / d);
      AtLeast(d, q - n / d);
    }
  }

  /** Scaling both sides of a quotient by positive factors that meet in the middle. */
  lemma SameQuotient(n1: int, d1: int, n2: int, d2: int, k1: int, k2: int)
    requires d1 > 0 && d2 > 0 && k1 > 0 && k2 > 0
    requires n1 * k1 == n2 * k2 && d1 * k1 == d2 * k2
    ensures n1 / d1 == n2 / d2
  {
    DivCancel(n1, d1, k1);
    DivCancel(n2, d2, k2);
  }

  /** Multiplying after flooring loses exactly the floor of the scaled remainder. */
  lemma FloorThenScale(n: int, d: int, k: int)
    requires d > 0 && k > 0
    ensures (n * k) / d == n / d * k + n % d * k / d
    ensures n % d * k / d == 0 <==> n % d * k < d
  {
    var q, r := n / d, n % d;
    Division(n, d);
    FloorOfSum(n * k, d, q, k, r * k);
    assert n * k == (d * q + r) * k == d * q * k + r * k;
    MulMono(0, r, k);
    DivAtLeast(r * k, d, 1);
    DivAtLeast(r * k, d, 0);
  }

  lemma FloorOfSum(m: int, d: int, q: int, k: int, rest: int)
    requires d > 0
    ensures m == d * q * k + rest ==> m / d == q * k + rest / d
  {
    Division(rest, d);
    Product3(d, q, k);
    Distribute(d, q * k, rest / d);
    if m == d * q * k + rest { QuotientIs(m, d, q * k + rest / d, rest % d); }
  }
}
