/** Products and quotients, in steps small enough for the solver. */
module Arithmetic {

  /** A product grows with its first factor. */
  lemma {:induction false} ProductGrows(a: nat, b: nat, c: nat)
    requires a <= b
    ensures a * c <= b * c
  {
    if c > 0 {
      ProductGrows(a, b, c - 1);
      assert a * c == a * (c - 1) + a && b * c == b * (c - 1) + b;
    }
  }

  lemma ProductOfMore(a: nat, d: nat)
    requires 1 <= d
    ensures a <= a * d
  {
    ProductGrows(1, d, a);
    assert 1 * a == a && d * a == a * d;
  }

  /** What a quotient is. */
  lemma Quotient(a: nat, d: nat)
    requires 1 <= d
    ensures a / d * d <= a < (a / d + 1) * d
  {
    assert a == d * (a / d) + a % d;
    assert (a / d + 1) * d == a / d * d + d;
  }

  function Over(a: nat, d: nat): nat
    requires 1 <= d
  {
    a / d
  }

  lemma FactorAtMost(q: nat, d: nat, a: nat)
    requires 1 <= d && q * d <= a
    ensures q <= a
  {
    ProductOfMore(q, d);
  }

  lemma QuotientAtMost(a: nat, d: nat)
    requires 1 <= d
    ensures a / d <= a
  {
    var q := a / d;
    assert q * d <= a by {
      Quotient(a, d);
    }
    FactorAtMost(q, d, a);
  }

  /** The quotient is below any number whose product is above the dividend. */
  lemma QuotientBelow(a: nat, d: nat, n: nat)
    requires 1 <= d && n * d > a
    ensures a / d < n && a / d * d <= a < (a / d + 1) * d
  {
    Quotient(a, d);
    if a / d >= n {
      ProductGrows(n, a / d, d);
    }
  }

  /** A number below the quotient: its product, and the next one, stay below the dividend. */
  lemma BelowQuotient(a: nat, d: nat, n: nat)
    requires 1 <= d && n < a / d
    ensures n * d + d <= a
  {
    Quotient(a, d);
    ProductGrows(n + 1, a / d, d);
    assert (n + 1) * d == n * d + d;
  }

  /** How many of `n` elements of `size` bytes a vector push copies into `room` bytes. */
  function Fit(n: nat, size: nat, room: nat): (k: nat)
    requires 1 <= size
    ensures k <= n
  {
    if n * size > room then
      var q := room / size;
      assert q <= n by {
        QuotientBelow(room, size, n);
      }
      q
    else n
  }

  lemma FitFits(n: nat, size: nat, room: nat)
    requires 1 <= size
    ensures var k := Fit(n, size, room); k * size <= room && (k < n ==> room < (k + 1) * size)
  {
    if n * size > room {
      QuotientBelow(room, size, n);
    }
  }

  /** One at least is taken where there is room for one, and less than one more would fit. */
  lemma FitRoom(n: nat, size: nat, room: nat)
    requires 1 <= size
    ensures var k := Fit(n, size, room);
            k * size <= room && (k < n ==> room - k * size < size) && (size <= room && n > 0 ==> 0 < k <= k * size)
  {
    var k := Fit(n, size, room);
    FitFits(n, size, room);
    assert (k + 1) * size == k * size + size;
    if k > 0 {
      ProductGrows(1, size, k);
    }
  }

  // ---------------------------------------------------------------- real numbers

  lemma Fraction(p: real, q: real)
    requires 0.0 <= p < q || q < p <= 0.0
    ensures 0.0 <= p / q < 1.0
  {
    var f := p / q;
    assert f * q == p;
    if q > 0.0 {
      FractionOf(f, p, q);
    } else {
      NegatedProduct(f, p, q);
      FractionOf(f, -p, -q);
    }
  }

  lemma NegatedProduct(f: real, p: real, q: real)
    requires f * q == p
    ensures f * (-q) == -p
  {
  }

  lemma FractionOf(f: real, p: real, q: real)
    requires f * q == p && 0.0 <= p < q
    ensures 0.0 <= f < 1.0
  {
    assert (1.0 - f) * q == q - p;
    if f >= 1.0 && f != 1.0 {
      Signs(1.0 - f, q);
    }
    if f < 0.0 {
      Signs(f, q);
    }
  }

  lemma Signs(d: real, slope: real)
    requires slope != 0.0
    ensures (d > 0.0) == (slope > 0.0) && d != 0.0 ==> d * slope > 0.0
    ensures (d > 0.0) != (slope > 0.0) && d != 0.0 ==> d * slope < 0.0
  {
  }

  lemma PartOf(slope: real, d: real, e: real, f: real, rise: real)
    requires slope * e == rise && f * e == d
    ensures slope * d == rise * f
  {
  }

  lemma ProductNotNegative(a: real, b: real)
    requires 0.0 <= a && 0.0 <= b
    ensures 0.0 <= a * b
  {
  }

  lemma FactorNotNegative(e: real, w: real)
    requires 0.0 < w && 0.0 <= e * w
    ensures 0.0 <= e
  {
    if e < 0.0 {
      Signs(e, w);
    }
  }

  lemma LessTimes(a: real, b: real, c: real)
    requires a <= b && 0.0 <= c
    ensures a * c <= b * c
  {
    ProductNotNegative(b - a, c);
    assert (b - a) * c == b * c - a * c;
  }

  lemma LessTimesStrictly(a: real, b: real, c: real)
    requires a < b && 0.0 < c
    ensures a * c < b * c
  {
    Signs(b - a, c);
    assert (b - a) * c == b * c - a * c;
  }

  lemma Shrunk(f: real, x: real)
    requires 0.0 < f < 1.0 && 0.0 <= x
    ensures f * x <= x
  {
    ProductNotNegative(1.0 - f, x);
    assert (1.0 - f) * x == x - f * x;
  }

  lemma Expanded(x: real, a: real, b: real)
    ensures x * (a - b) == a * x - b * x && a * x == x * a
  {
  }

  lemma Spread(x: real, a: real, b: real)
    ensures x * (a + b) == a * x + b * x && x * a == a * x && x * b == b * x
  {
  }

  lemma FloorTimes(x: real, below: real, above: real, d: real, a: real)
    requires x * d == a && below <= x < above && 0.0 < d
    ensures below * d <= a < above * d
  {
    LessTimes(below, x, d);
    LessTimesStrictly(x, above, d);
  }

  lemma FactorPositive(x: real, f: real)
    requires 0.0 < f && 0.0 < x * f
    ensures 0.0 < x
  {
  }

  lemma Divided(len: real, f: real)
    requires 0.0 < f && 0.0 < len
    ensures f * (len / f) == len && 0.0 < len / f
  {
    var x := len / f;
    assert x * f == len;
    FactorPositive(x, f);
  }

  lemma AtLeastOnce(k: real, d: real)
    requires 1.0 <= k && 0.0 < d
    ensures k * d >= d
  {
    assert k * d == d + (k - 1.0) * d;
    if k > 1.0 {
      Signs(k - 1.0, d);
    }
  }

  /** The first multiple of `d` above `a`. */
  lemma Floored(a: real, d: real, n: int) returns (k: int)
    requires 0.0 < a && 0.0 < d && a < n as real * d
    ensures 1 <= k <= n && (k - 1) as real * d <= a < k as real * d
  {
    var x := a / d;
    assert x * d == a;
    if n as real <= x {
      LessTimes(n as real, x, d);
    }
    if x < 0.0 {
      Signs(x, d);
    }
    var m := x.Floor;
    FloorTimes(x, m as real, (m + 1) as real, d, a);
    k := m + 1;
  }
}
