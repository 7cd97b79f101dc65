/** The first table entry between the limits, which the search for an interval never checks: how
    far off it can be, and when it is accurate whatever the table. */
module BreakFirstEntries {
  import opened Arithmetic
  import opened BreakTables
  import opened Sealing

  /** A run of the outer loop on a table of measurements. */
  datatype Run = Run(table: seq<real>, s: Setup, b: seq<BrkInt>, starts: seq<int>)

  /** The run has found at least one interval. */
  ghost predicate Built(r: Run) {
    && StrictlyMonotone(r.table) && r.s.From(r.s.c, r.table) && r.s.Valid() && r.s.Emitted(r.b, r.starts)
    && 2 <= |r.b|
  }

  /** How far the first entry between the limits is from the line of the first interval. */
  function FirstMiss(s: Setup, p: BrkInt): real
    requires 0 <= s.First() < |s.t|
  {
    Deviation(p.raw, p.eng, p.slope, s.t[s.First()], EngAt(s.c, s.First()))
  }

  // ---------------------------------------------------------------- how far off it can be

  /** The values of a monotone table at three positions in order. */
  lemma InOrder(t: seq<real>, x: real, i: int, j: int)
    requires 2 <= |t| && StrictlyMonotone(t) && 0.0 <= x <= i as real && 0 <= i < j < |t|
    ensures var (p, q) := (t[i] - Interp(t, x), t[j] - Interp(t, x)); 0.0 <= p < q || q < p <= 0.0
  {
    InterpAtEntry(t, i);
    if x < i as real {
      if Increasing(t) {
        IncreasingInterp(t, x, i as real);
      } else {
        var u := Scaled(t, -1.0, 0.0);
        IncreasingInterp(u, x, i as real);
        Negated(t, x);
        InterpAtEntry(u, i);
      }
    }
  }

  lemma ScaledMonotone(t: seq<real>, slope: real, offset: real)
    requires StrictlyMonotone(t) && slope != 0.0
    ensures StrictlyMonotone(Scaled(t, slope, offset))
  {
    var u := Scaled(t, slope, offset);
    forall i, j | 0 <= i < j < |t| ensures OrderKept(t[i], t[j], u[i], u[j], slope) {
      assert t[i] != t[j];
      ScaledPair(t[i], t[j], u[i], u[j], slope, offset);
    }
    if Increasing(t) == (slope > 0.0) {
      assert forall i, j :: 0 <= i < j < |t| ==> OrderKept(t[i], t[j], u[i], u[j], slope) && u[i] < u[j];
    } else {
      assert forall i, j :: 0 <= i < j < |t| ==> OrderKept(t[i], t[j], u[i], u[j], slope) && u[i] > u[j];
    }
  }

  predicate OrderKept(a: real, b: real, ua: real, ub: real, slope: real) {
    a != b && ua != ub && ((ua < ub) == ((a < b) == (slope > 0.0)))
  }

  lemma ScaledPair(a: real, b: real, ua: real, ub: real, slope: real, offset: real)
    requires a != b && slope != 0.0 && ua == a * slope + offset && ub == b * slope + offset
    ensures OrderKept(a, b, ua, ub, slope)
  {
    assert (b - a) * slope == b * slope - a * slope;
    Signs(b - a, slope);
  }

  function LineValue(p: BrkInt, v: real): real {
    p.eng + p.slope * (v - p.raw)
  }

  /** The line of the first interval at the first entry, as a fraction of its way to the end. */
  lemma LineAt(p: BrkInt, v: real, vEnd: real, engEnd: real, rise: real) returns (f: real)
    requires vEnd != p.raw && p.slope == LineSlope(p.raw, p.eng, vEnd, engEnd) && rise == engEnd - p.eng
    requires var (d, e) := (v - p.raw, vEnd - p.raw); 0.0 <= d < e || e < d <= 0.0
    ensures 0.0 <= f < 1.0 && LineValue(p, v) == p.eng + rise * f
  {
    var d, e := v - p.raw, vEnd - p.raw;
    f := d / e;
    Fraction(d, e);
    assert p.slope * e == rise;
    assert f * e == d;
    PartOf(p.slope, d, e, f, rise);
  }

  lemma CeilingNear(x: real)
    ensures x <= Ceiling(x) as real < x + 1.0
  {
  }

  /** Positions and engineering values are in proportion. */
  lemma EngApart(c: BrkCreateInfo, i: int)
    requires c.tblEngDelta > 0.0
    ensures EngAt(c, i) - c.engLow == (i as real - ILow(c)) * c.tblEngDelta
  {
    var d := c.tblEngDelta;
    assert ILow(c) * d == c.engLow - c.tblEngFirst;
    assert (i as real - ILow(c)) * d == i as real * d - ILow(c) * d;
  }

  lemma Share(e: real, f: real)
    requires 0.0 < e && 0.0 <= f < 1.0
    ensures 0.0 <= e * f < e
  {
    assert e * (1.0 - f) == e - e * f;
    Signs(e, 1.0 - f);
    if f > 0.0 {
      Signs(e, f);
    }
  }

  /** The engineering values of engLow, the first entry and the end of the first interval. */
  lemma EngNear(c: BrkCreateInfo, first: int)
    requires c.tblEngDelta > 0.0 && ILow(c) <= first as real < ILow(c) + 1.0
    ensures c.engLow <= EngAt(c, first) < c.engLow + c.tblEngDelta
  {
    var d, x := c.tblEngDelta, first as real - ILow(c);
    EngApart(c, first);
    NearBy(EngAt(c, first), c.engLow, x, d);
  }

  lemma NearBy(eng: real, low: real, x: real, d: real)
    requires eng - low == x * d && 0.0 <= x < 1.0 && 0.0 < d
    ensures low <= eng < low + d
  {
    Share(d, x);
    assert x * d == d * x;
  }

  lemma EngAhead(c: BrkCreateInfo, first: int, to: int)
    requires c.tblEngDelta > 0.0 && first < to
    ensures EngAt(c, to) - EngAt(c, first) == (to - first) as real * c.tblEngDelta
    ensures EngAt(c, to) - EngAt(c, first) >= c.tblEngDelta
  {
    Differ(c.tblEngFirst, first as real, to as real, c.tblEngDelta);
    AtLeastOnce((to - first) as real, c.tblEngDelta);
  }

  lemma Differ(base: real, a: real, b: real, d: real)
    ensures (base + b * d) - (base + a * d) == (b - a) * d
  {
  }

  lemma BothBelow(value: real, low: real, first: real, end: real, delta: real)
    requires low <= value < end && low <= first < low + delta <= low + (end - first)
    ensures value - first < end - first && first - value < end - first
  {
  }

  /** The line of the first interval stays between engLow and the end of the interval. */
  lemma ValueBetween(p: BrkInt, v: real, vEnd: real, engEnd: real)
    requires vEnd != p.raw && p.slope == LineSlope(p.raw, p.eng, vEnd, engEnd) && p.eng < engEnd
    requires var (d, e) := (v - p.raw, vEnd - p.raw); 0.0 <= d < e || e < d <= 0.0
    ensures p.eng <= LineValue(p, v) < engEnd
  {
    var rise := engEnd - p.eng;
    var f := LineAt(p, v, vEnd, engEnd, rise);
    Share(rise, f);
  }

  lemma DeviationBelow(p: BrkInt, v: real, actual: real, bound: real)
    requires LineValue(p, v) - actual < bound && actual - LineValue(p, v) < bound
    ensures Deviation(p.raw, p.eng, p.slope, v, actual) < bound
  {
    var e := p.eng + p.slope * (v - p.raw) - actual;
    assert e == LineValue(p, v) - actual;
    assert -bound < e < bound;
  }

  lemma MissBelow(p: BrkInt, delta: real, v: real, first: real, vEnd: real, end: real)
    requires vEnd != p.raw && p.slope == LineSlope(p.raw, p.eng, vEnd, end)
    requires var (d, e) := (v - p.raw, vEnd - p.raw); 0.0 <= d < e || e < d <= 0.0
    requires p.eng <= first < p.eng + delta && end - first >= delta
    ensures Deviation(p.raw, p.eng, p.slope, v, first) < end - first
  {
    ValueBetween(p, v, vEnd, end);
    BothBelow(LineValue(p, v), p.eng, first, end, delta);
    DeviationBelow(p, v, first, end - first);
  }

  /** The first entry is off by less than the length of the first interval behind it. */
  lemma FirstMissBelow(s: Setup, p: BrkInt, to: int)
    requires s.Valid() && StrictlyMonotone(s.t) && s.First() < to < |s.t|
    requires p.raw == s.c.rawLow && p.eng == s.c.engLow && s.t[to] != p.raw
    requires p.slope == LineSlope(p.raw, p.eng, s.t[to], EngAt(s.c, to))
    ensures FirstMiss(s, p) < EngAt(s.c, to) - EngAt(s.c, s.First())
  {
    CeilingNear(s.ilow);
    InOrder(s.t, s.ilow, s.First(), to);
    EngNear(s.c, s.First());
    EngAhead(s.c, s.First(), to);
    MissBelow(p, s.c.tblEngDelta, s.t[s.First()], EngAt(s.c, s.First()), s.t[to], EngAt(s.c, to));
  }

  // ---------------------------------------------------------------- a table with a kink

  /** A steep table up to entry `first` and a flat one behind it. */
  function Kinked(first: nat, steep: real, n: nat): (t: seq<real>)
    ensures |t| == n
  {
    seq(n, i requires 0 <= i < n => if i >= first then (i - first) as real else (i - first) as real * steep)
  }

  lemma KinkedIncreasing(first: nat, steep: real, n: nat)
    requires steep > 0.0
    ensures Increasing(Kinked(first, steep, n))
  {
    var t := Kinked(first, steep, n);
    forall i, j | 0 <= i < j < n ensures t[i] < t[j] {
      if j < first {
        ScaledPair((i - first) as real, (j - first) as real, t[i], t[j], steep, 0.0);
      } else if i < first {
        Signs((i - first) as real, steep);
        assert t[i] < 0.0 <= t[j];
      } else {
        assert t[i] == (i - first) as real && t[j] == (j - first) as real;
      }
    }
  }

  lemma KinkedAt(first: nat, steep: real, n: nat, x: real)
    requires 2 <= n && 1 <= first < n && first as real - 1.0 < x < first as real
    ensures Interp(Kinked(first, steep, n), x) == -((first as real - x) * steep)
  {
    assert x.Floor == first - 1;
  }

  // ---------------------------------------------------------------- which intervals fit behind the kink

  /** Raw values and their images under a change of scale. */
  datatype Scale = Scale(g: real, h: real) {
    predicate Takes(x: real, y: real) {
      y == x * g + h
    }
  }

  /** Lines and their deviations do not depend on the scale of the raw values. */
  lemma SameDeviation(k: Scale, raw: real, raw2: real, eng: real, v: real, v2: real, engEnd: real,
                      w: real, w2: real, actual: real)
    requires v != raw && k.g != 0.0 && k.Takes(raw, raw2) && k.Takes(v, v2) && k.Takes(w, w2)
    ensures v2 != raw2
    ensures Deviation(raw2, eng, LineSlope(raw2, eng, v2, engEnd), w2, actual) ==
            Deviation(raw, eng, LineSlope(raw, eng, v, engEnd), w, actual)
  {
    var d, d2 := v - raw, v2 - raw2;
    ScaledApart(k, raw, raw2, v, v2);
    ScaledApart(k, raw, raw2, w, w2);
    Signs(d, k.g);
    var s1, s2 := LineSlope(raw, eng, v, engEnd), LineSlope(raw2, eng, v2, engEnd);
    SlopeTimes(raw, eng, v, engEnd);
    SlopeTimes(raw2, eng, v2, engEnd);
    SameRise(s1, s2, d, d2, engEnd - eng, k.g, w - raw, w2 - raw2);
  }

  lemma ScaledApart(k: Scale, raw: real, raw2: real, v: real, v2: real)
    requires k.Takes(raw, raw2) && k.Takes(v, v2)
    ensures v2 - raw2 == (v - raw) * k.g
  {
  }

  lemma SlopeTimes(raw: real, eng: real, v: real, engEnd: real)
    requires v != raw
    ensures LineSlope(raw, eng, v, engEnd) * (v - raw) == engEnd - eng
  {
    var d := v - raw;
    assert LineSlope(raw, eng, v, engEnd) * d == engEnd - eng;
  }

  lemma SameRise(s1: real, s2: real, d: real, d2: real, e: real, g: real, w: real, w2: real)
    requires d != 0.0 && g != 0.0 && d2 == d * g && w2 == w * g && s1 * d == e && s2 * d2 == e
    ensures s2 * w2 == s1 * w
  {
  }

  lemma SameFits(c: BrkCreateInfo, k: Scale, t: seq<real>, u: seq<real>, raw: real, raw2: real, eng: real,
                 from: int, m: int)
    requires 0 <= from < m < |t| && t[m] != raw && k.g != 0.0 && k.Takes(raw, raw2)
    requires |u| == |t| && forall i :: 0 <= i < |t| ==> k.Takes(t[i], u[i])
    ensures Fits(c, u, raw2, eng, from, m) <==> Fits(c, t, raw, eng, from, m)
  {
    forall i | 0 <= i < |t|
      ensures u[m] != raw2
      ensures Deviation(raw2, eng, LineSlope(raw2, eng, u[m], EngAt(c, m)), u[i], EngAt(c, i)) ==
              Deviation(raw, eng, LineSlope(raw, eng, t[m], EngAt(c, m)), t[i], EngAt(c, i))
    {
      SameDeviation(k, raw, raw2, eng, t[m], u[m], EngAt(c, m), t[i], u[i], EngAt(c, i));
    }
  }

  /** How far the line to the j-th entry behind the kink is from the i-th, times the length of the
      line. */
  lemma KinkMiss(p: BrkInt, delta: real, f: real, len: real, unit: real, i: real, j: real, k: real, ahead: real)
    requires 0.0 <= i <= j && 0.0 < f < len && 0.0 < delta && p.raw == -len && unit == (len - f) * delta
    requires k == j - i && ahead == j + len && p.slope * ahead == (j + f) * delta
    ensures Deviation(p.raw, p.eng, p.slope, i, p.eng + (f + i) * delta) * ahead == k * unit
  {
    var rise := i + len;
    var a, b := p.slope * rise, (f + i) * delta;
    KinkExpanded(p.slope, delta, f, len, unit, i, j, k, rise, ahead, a, b);
    ProductNotNegative(len - f, delta);
    ProductNotNegative(k, unit);
    FactorNotNegative(a - b, ahead);
    assert i - p.raw == rise;
  }

  lemma KinkExpanded(slope: real, delta: real, f: real, len: real, unit: real, i: real, j: real, k: real,
                     rise: real, ahead: real, a: real, b: real)
    requires unit == (len - f) * delta && rise == i + len && ahead == j + len && k == j - i
    requires a == slope * rise && b == (f + i) * delta && slope * ahead == (j + f) * delta
    ensures (a - b) * ahead == k * unit
  {
    assert a * ahead == (j + f) * delta * rise;
  }

  /** What makes a kink sharp enough: the accuracy lies between `reach - 1` and `reach` entries,
      which are `low` and `high` in engineering units, and the steep part is `len` long from engLow
      on, which is a fraction `f` of an entry away. */
  datatype Kink = Kink(delta: real, accuracy: real, f: real, ahead: int, reach: int,
                       low: real, high: real, len: real, unit: real)

  ghost predicate Sharp(q: Kink) {
    && 0.0 < q.delta && 0.0 < q.accuracy && 0.0 < q.f < 1.0 < q.len && 1 <= q.reach <= q.ahead
    && q.low == (q.reach - 1) as real * q.delta && q.high == q.reach as real * q.delta
    && q.low <= q.accuracy < q.high
    && q.len * (q.high - q.accuracy) >= q.ahead as real * (q.delta + q.accuracy)
    && q.unit == (q.len - q.f) * q.delta
  }

  /** With up to `reach` entries behind the kink each of them is within the accuracy. */
  lemma Near(q: Kink, i: int, j: int)
    requires Sealed(Sharp, q) && 1 <= i <= j <= q.reach
    ensures (j - i) as real * q.unit < q.accuracy * (j as real + q.len)
  {
    Unseal(Sharp, q);
    var m := (j - i) as real;
    NearOut(q, m, m * q.delta, (q.reach - 1) as real, q.len - q.f, j as real + q.len);
  }

  lemma NearOut(q: Kink, m: real, x: real, r: real, w: real, ahead: real)
    requires 0.0 < q.delta && 0.0 < q.accuracy && 0.0 < w < ahead && m <= r
    requires x == m * q.delta && q.low == r * q.delta && q.unit == w * q.delta && q.low <= q.accuracy
    ensures m * q.unit < q.accuracy * ahead
  {
    LessTimes(m, r, q.delta);
    NearScaled(q.accuracy, q.delta, m, x, w, q.unit, ahead);
  }

  lemma NearScaled(accuracy: real, delta: real, m: real, x: real, w: real, unit: real, len: real)
    requires x == m * delta <= accuracy && 0.0 <= w < len && 0.0 < accuracy && unit == w * delta
    ensures m * unit < accuracy * len
  {
    LessTimes(x, accuracy, w);
    LessTimesStrictly(w, len, accuracy);
    UnitTimes(m, delta, w, unit, x);
  }

  lemma UnitTimes(m: real, delta: real, w: real, unit: real, x: real)
    requires unit == w * delta && x == m * delta
    ensures m * unit == x * w
  {
  }

  /** An entry that is `reach` or more before the end of the line is not. */
  lemma Far(q: Kink, i: int, j: int)
    requires Sealed(Sharp, q) && 0 <= i && q.reach + i <= j <= q.ahead
    ensures (j - i) as real * q.unit >= q.accuracy * (j as real + q.len) && i < j
  {
    Unseal(Sharp, q);
    var m := (j - i) as real;
    FarOut(q, m, m * q.delta, j as real, q.ahead as real, q.reach as real, q.len - q.f);
  }

  lemma FarOut(q: Kink, a: real, x: real, b: real, n: real, r: real, w: real)
    requires 0.0 < q.delta && 0.0 < q.accuracy && 0.0 < q.f < 1.0 < q.len && 0.0 <= r <= a <= n && b <= n
    requires x == a * q.delta && q.high == r * q.delta && q.unit == w * q.delta && w == q.len - q.f
    requires q.len * (q.high - q.accuracy) >= n * (q.delta + q.accuracy)
    ensures a * q.unit >= q.accuracy * (b + q.len)
  {
    LessTimes(r, a, q.delta);
    LessTimes(a, n, q.delta);
    LessTimes(b, n, q.accuracy);
    ProductNotNegative(a, q.delta);
    UnitTimes(a, q.delta, w, q.unit, x);
    FarScaled(q.accuracy, q.f, q.len, x, q.high, b, n, q.delta);
  }

  lemma FarScaled(accuracy: real, f: real, len: real, x: real, high: real, b: real, n: real, delta: real)
    requires 0.0 < f < 1.0 < len && 0.0 <= x && high <= x <= n * delta && b * accuracy <= n * accuracy
    requires len * (high - accuracy) >= n * (delta + accuracy)
    ensures x * (len - f) >= accuracy * (b + len)
  {
    LessTimes(high, x, len);
    Shrunk(f, x);
    Expanded(len, high, accuracy);
    Expanded(x, len, f);
    Spread(n, delta, accuracy);
    Spread(accuracy, b, len);
    Added(high * len, x * len, accuracy * len, n * delta, n * accuracy, b * accuracy, x, f * x);
  }

  lemma Added(hl: real, xl: real, al: real, nd: real, na: real, ba: real, x: real, fx: real)
    requires hl <= xl && hl - al >= nd + na && fx <= x <= nd && ba <= na
    ensures xl - fx >= ba + al
  {
  }

  /** When the first entry lies behind engLow and the accuracy is less than the way to the last
      entry of the search. */
  predicate Defeatable(c: BrkCreateInfo, n: nat) {
    && c.tblEngDelta > 0.0 && c.accuracy > 0.0 && 0.0 <= ILow(c) < Ceiling(ILow(c)) as real
    && c.accuracy < Ahead(c, n) as real * c.tblEngDelta
  }

  /** How many entries the search may go beyond the first one. */
  function Ahead(c: BrkCreateInfo, n: nat): int
    requires c.tblEngDelta > 0.0
  {
    Last(IHigh(c), n) - Ceiling(ILow(c))
  }

  lemma Stretched(a: real, gap: real) returns (len: real)
    requires 0.0 < gap && 0.0 < a
    ensures len * gap >= a && len > 1.0
  {
    var x := a / gap;
    assert x * gap == a;
    FactorPositive(x, gap);
    len := x + 1.0;
    assert len * gap == a + gap;
  }

  /** The kink that defeats the accuracy. */
  lemma SharpKink(c: BrkCreateInfo, n: nat) returns (q: Kink)
    requires Defeatable(c, n)
    ensures Sharp(q) && q.delta == c.tblEngDelta && q.accuracy == c.accuracy && q.ahead == Ahead(c, n)
    ensures q.f == Ceiling(ILow(c)) as real - ILow(c)
  {
    var delta, accuracy, ahead := c.tblEngDelta, c.accuracy, Ahead(c, n);
    CeilingNear(ILow(c));
    var reach := Floored(accuracy, delta, ahead);
    var low, high := (reach - 1) as real * delta, reach as real * delta;
    Signs(ahead as real, delta + accuracy);
    var len := Stretched(ahead as real * (delta + accuracy), high - accuracy);
    var f := Ceiling(ILow(c)) as real - ILow(c);
    q := Kink(delta, accuracy, f, ahead, reach, low, high, len, (len - f) * delta);
  }

  // ---------------------------------------------------------------- the search on such a table

  lemma KinkUnit(q: Kink)
    requires Sealed(Sharp, q)
    ensures 0.0 < q.f < 1.0 < q.len && 0.0 < q.delta && 0.0 < q.accuracy && 1 <= q.reach <= q.ahead
    ensures q.unit == (q.len - q.f) * q.delta && 0.0 < q.unit
  {
    Unseal(Sharp, q);
    Signs(q.len - q.f, q.delta);
  }

  lemma KinkSlope(q: Kink, low: real, j: real, slope: real, eng: real, ahead: real)
    requires Sealed(Sharp, q) && 0.0 <= j && eng == low + (q.f + j) * q.delta && ahead == j + q.len
    requires -q.len != j && slope == LineSlope(-q.len, low, j, eng)
    ensures slope * ahead == (j + q.f) * q.delta
  {
    KinkUnit(q);
    SlopeTimes(-q.len, low, j, eng);
    assert j - -q.len == ahead;
  }

  /** When the i-th entry behind the kink is within the accuracy of a line to the j-th. */
  lemma KinkWithin(q: Kink, p: BrkInt, i: real, j: real, k: real, ahead: real, eng: real)
    requires Sealed(Sharp, q) && 0.0 <= i <= j && k == j - i && ahead == j + q.len && p.raw == -q.len
    requires eng == p.eng + (q.f + i) * q.delta && p.slope * ahead == (j + q.f) * q.delta
    ensures Deviation(p.raw, p.eng, p.slope, i, eng) < q.accuracy <==> k * q.unit < q.accuracy * ahead
  {
    KinkUnit(q);
    KinkMiss(p, q.delta, q.f, q.len, q.unit, i, j, k, ahead);
    Compared(Deviation(p.raw, p.eng, p.slope, i, eng), q.accuracy, ahead, k * q.unit);
  }

  lemma Compared(d: real, accuracy: real, w: real, r: real)
    requires 0.0 < w && d * w == r
    ensures d < accuracy <==> r < accuracy * w
  {
  }

  /** The parameters and the kink belong together. */
  ghost predicate Suits(c: BrkCreateInfo, q: Kink) {
    && Sealed(Sharp, q) && c.tblEngDelta > 0.0 && q.delta == c.tblEngDelta && q.accuracy == c.accuracy
    && q.f == Ceiling(ILow(c)) as real - ILow(c)
  }

  lemma KinkPlace(c: BrkCreateInfo, q: Kink, i: int)
    requires Suits(c, q)
    ensures EngAt(c, Ceiling(ILow(c)) + i) == c.engLow + (q.f + i as real) * q.delta
  {
    var first := Ceiling(ILow(c));
    EngApart(c, first + i);
    assert (first + i) as real - ILow(c) == q.f + i as real;
  }

  /** The engineering values from the first entry on. */
  ghost predicate EngsBehind(q: Kink, low: real, engs: seq<real>) {
    forall i :: 0 <= i < |engs| ==> EngBehind(q, low, i, engs[i])
  }

  ghost predicate EngBehind(q: Kink, low: real, i: int, eng: real) {
    eng == low + (q.f + i as real) * q.delta
  }

  /** The line from engLow to the j-th entry behind the kink. */
  function KinkLine(q: Kink, low: real, j: int, eng: real): BrkInt
    requires -q.len != j as real
  {
    BrkInt(-q.len, LineSlope(-q.len, low, j as real, eng), low)
  }

  lemma LineWithin(q: Kink, low: real, i: int, j: int, engI: real, engJ: real)
    requires Sealed(Sharp, q) && 0 <= i <= j && -q.len != j as real
    requires EngBehind(q, low, i, engI) && EngBehind(q, low, j, engJ)
    ensures var p := KinkLine(q, low, j, engJ);
            Deviation(p.raw, p.eng, p.slope, i as real, engI) < q.accuracy <==>
            (j - i) as real * q.unit < q.accuracy * (j as real + q.len)
  {
    var p := KinkLine(q, low, j, engJ);
    KinkSlope(q, low, j as real, p.slope, engJ, j as real + q.len);
    KinkWithin(q, p, i as real, j as real, (j - i) as real, j as real + q.len, engI);
  }

  ghost predicate LineFits(q: Kink, low: real, engs: seq<real>, i: int, j: int)
    requires 0 <= i <= j < |engs|
  {
    && -q.len != j as real
    && var p := KinkLine(q, low, j, engs[j]);
       Deviation(p.raw, p.eng, p.slope, i as real, engs[i]) < q.accuracy
  }

  /** Which entries behind the kink a line fits. */
  lemma LineFit(q: Kink, low: real, engs: seq<real>, i: int, j: int)
    requires Sealed(Sharp, q) && 0 <= i <= j < |engs| <= q.ahead + 1 && EngsBehind(q, low, engs)
    ensures 1 <= i && j <= q.reach ==> LineFits(q, low, engs, i, j)
    ensures q.reach + i <= j ==> !LineFits(q, low, engs, i, j)
    ensures -q.len != j as real && 1 <= q.reach <= q.ahead
  {
    assert EngBehind(q, low, i, engs[i]) && EngBehind(q, low, j, engs[j]);
    assert -q.len != j as real && 1 <= q.reach <= q.ahead by {
      KinkUnit(q);
    }
    LineWithin(q, low, i, j, engs[i], engs[j]);
    if 1 <= i && j <= q.reach {
      Near(q, i, j);
    }
    if q.reach + i <= j {
      Far(q, i, j);
    }
  }

  /** The search works with the same line. */
  lemma KinkStep(c: BrkCreateInfo, q: Kink, t: seq<real>, engs: seq<real>, i: int, j: int)
    requires Suits(c, q) && 0 <= i <= j < |engs| && 1 <= j && OnKink(c, t, engs) && -q.len != j as real
    ensures var m := Ceiling(ILow(c)) + j; var x := Ceiling(ILow(c)) + i;
            && t[m] != -q.len
            && LineFits(q, c.engLow, engs, i, j) ==
               (Deviation(-q.len, c.engLow, LineSlope(-q.len, c.engLow, t[m], EngAt(c, m)), t[x], EngAt(c, x))
                < c.accuracy)
  {
    assert KinkEntry(c, t, engs, i) && KinkEntry(c, t, engs, j);
  }

  /** Up to `reach` entries behind the kink the line fits, further it does not. */
  lemma KinkFits(c: BrkCreateInfo, q: Kink, t: seq<real>, engs: seq<real>, j: int)
    requires Suits(c, q) && 1 <= j < |engs| <= q.ahead + 1 && EngsBehind(q, c.engLow, engs)
    requires OnKink(c, t, engs)
    ensures Fits(c, t, -q.len, c.engLow, Ceiling(ILow(c)), Ceiling(ILow(c)) + j) <==> j <= q.reach
  {
    var first := Ceiling(ILow(c));
    LineFit(q, c.engLow, engs, 1, j);
    KinkStep(c, q, t, engs, 1, j);
    var slope := LineSlope(-q.len, c.engLow, t[first + j], EngAt(c, first + j));
    if j <= q.reach {
      forall x | first < x <= first + j
        ensures Deviation(-q.len, c.engLow, slope, t[x], EngAt(c, x)) < c.accuracy
      {
        LineFit(q, c.engLow, engs, x - first, j);
        KinkStep(c, q, t, engs, x - first, j);
      }
    } else {
      NotFitting(c, t, -q.len, c.engLow, first, first + j, first + 1);
    }
  }

  lemma NotFitting(c: BrkCreateInfo, t: seq<real>, raw: real, eng: real, from: int, m: int, i: int)
    requires 0 <= from < i <= m < |t| && t[m] != raw
    requires Deviation(raw, eng, LineSlope(raw, eng, t[m], EngAt(c, m)), t[i], EngAt(c, i)) >= c.accuracy
    ensures !Fits(c, t, raw, eng, from, m)
  {
  }

  ghost predicate KinkEntry(c: BrkCreateInfo, t: seq<real>, engs: seq<real>, i: int)
    requires c.tblEngDelta > 0.0 && 0 <= i < |engs| && 0 <= Ceiling(ILow(c)) && Ceiling(ILow(c)) + i < |t|
  {
    t[Ceiling(ILow(c)) + i] == i as real && EngAt(c, Ceiling(ILow(c)) + i) == engs[i]
  }

  /** The table behind its first entry, and its engineering values. */
  ghost predicate OnKink(c: BrkCreateInfo, t: seq<real>, engs: seq<real>)
    requires c.tblEngDelta > 0.0
  {
    && 0 <= Ceiling(ILow(c)) && Ceiling(ILow(c)) + |engs| <= |t|
    && forall i :: 0 <= i < |engs| ==> KinkEntry(c, t, engs, i)
  }

  // ---------------------------------------------------------------- every table, and this one

  /** The parameters make sense and a table entry that is not the last lies between the limits. */
  predicate Starts(c: BrkCreateInfo, n: nat) {
    && Sensible(c, n) && c.rawLow != c.rawHigh && c.accuracy > 0.0
    && Ceiling(ILow(c)) <= IHigh(c).Floor && Ceiling(ILow(c)) < n - 1
  }

  predicate FirstWithin(r: Run) {
    && 0 <= r.s.First() < |r.s.t| && |r.b| > 0
    && Accurate(r.s.c, r.b[0].raw, r.b[0].eng, r.b[0].slope, r.s.t[r.s.First()], r.s.First())
  }

  lemma WithinMeans(r: Run)
    requires 0 <= r.s.First() < |r.s.t| && |r.b| > 0
    ensures FirstWithin(r) <==> FirstMiss(r.s, r.b[0]) < r.s.c.accuracy
  {
    AccurateMeans(r.s.c, r.b[0].raw, r.b[0].eng, r.b[0].slope, r.s.t[r.s.First()], r.s.First());
  }

  /** Whatever the table, the first entry comes out accurate. */
  ghost predicate AlwaysAccurate(c: BrkCreateInfo, n: nat) {
    forall r: Run :: |r.table| == n && r.s.c == c && Sealed(Built, r) ==> FirstWithin(r)
  }

  /** A breakpoint at engLow with the slope of the line to an entry behind the first one. */
  ghost predicate StartsLine(s: Setup, p: BrkInt, to: int) {
    && 0 <= s.First() < to <= s.End() && to < |s.t| && p.raw == s.c.rawLow && p.eng == s.c.engLow
    && s.t[to] != p.raw && p.slope == LineSlope(p.raw, p.eng, s.t[to], EngAt(s.c, to))
  }

  lemma FirstInterval(r: Run)
    requires Starts(r.s.c, |r.table|) && Sealed(Built, r)
    ensures |r.s.t| == |r.table| && r.s.ilow == ILow(r.s.c) && r.s.ihigh == IHigh(r.s.c) && r.s.Valid()
    ensures |r.b| > 0 && |r.starts| > 1 && StartsLine(r.s, r.b[0], r.starts[1])
  {
    Unseal(Built, r);
    assert Interval(r.s.c, r.s.t, r.s.End(), r.b[0], r.starts[0], r.starts[0 + 1]);
  }

  lemma StillMonotone(r: Run)
    requires Starts(r.s.c, |r.table|) && Sealed(Built, r)
    ensures StrictlyMonotone(r.s.t)
  {
    Unseal(Built, r);
    var c, low, high := r.s.c, Interp(r.table, r.s.ilow), Interp(r.table, r.s.ihigh);
    var g, h := SlopeOf(c.rawLow, c.rawHigh, low, high), OffsetOf(c.rawLow, c.rawHigh, low, high);
    SlopeMeets(c.rawLow, c.rawHigh, low, high, g, h);
    ScaledMonotone(r.table, g, h);
  }

  lemma NoDeviation(p: BrkInt)
    ensures Deviation(p.raw, p.eng, p.slope, p.raw, p.eng) == 0.0
  {
  }

  lemma FirstOnEntry(r: Run)
    requires Starts(r.s.c, |r.table|) && Sealed(Built, r)
    requires Ceiling(ILow(r.s.c)) as real == ILow(r.s.c)
    ensures FirstWithin(r)
  {
    FirstInterval(r);
    InterpAtEntry(r.s.t, r.s.First());
    EntryAtLow(r.s.c, r.s.First());
    NoDeviation(r.b[0]);
    WithinMeans(r);
  }

  lemma LongestWay(c: BrkCreateInfo, n: nat, first: int, to: int)
    requires c.tblEngDelta > 0.0 && first == Ceiling(ILow(c)) && first < to <= Last(IHigh(c), n)
    requires c.accuracy >= Ahead(c, n) as real * c.tblEngDelta
    ensures EngAt(c, to) - EngAt(c, first) <= c.accuracy
  {
    EngAhead(c, first, to);
    WayTimes((to - first) as real, Ahead(c, n) as real, c.tblEngDelta, EngAt(c, to) - EngAt(c, first), c.accuracy);
  }

  lemma WayTimes(k: real, n: real, d: real, way: real, accuracy: real)
    requires way == k * d && k <= n && 0.0 < d && accuracy >= n * d
    ensures way <= accuracy
  {
    LessTimes(k, n, d);
  }

  /** With an accuracy of at least the way to the last entry the first one is accurate, however far
      its interval reaches. */
  lemma FirstMissWithin(s: Setup, p: BrkInt, to: int)
    requires s.Valid() && StrictlyMonotone(s.t) && StartsLine(s, p, to)
    requires s.c.accuracy >= Ahead(s.c, |s.t|) as real * s.c.tblEngDelta
    ensures FirstMiss(s, p) < s.c.accuracy
  {
    FirstMissBelow(s, p, to);
    LongestWay(s.c, |s.t|, s.First(), to);
  }

  lemma FirstAcrossLongest(r: Run)
    requires Starts(r.s.c, |r.table|) && Sealed(Built, r)
    requires r.s.c.accuracy >= Ahead(r.s.c, |r.table|) as real * r.s.c.tblEngDelta
    ensures FirstWithin(r)
  {
    FirstInterval(r);
    StillMonotone(r);
    FirstMissWithin(r.s, r.b[0], r.starts[1]);
    WithinMeans(r);
  }

  // ---------------------------------------------------------------- the runs on a table with a kink

  function Engs(c: BrkCreateInfo, count: nat): (engs: seq<real>)
    requires c.tblEngDelta > 0.0
    ensures |engs| == count
  {
    seq(count, i => EngAt(c, Ceiling(ILow(c)) + i))
  }

  /** The kink and the number of table entries belong to the parameters. */
  ghost predicate Defeats(c: BrkCreateInfo, q: Kink, n: nat) {
    Starts(c, n) && Suits(c, q) && q.ahead == Ahead(c, n) && 1 <= q.reach <= q.ahead && 0.0 < q.f < 1.0 < q.len
  }

  function KinkTable(c: BrkCreateInfo, q: Kink, n: nat): (t: seq<real>)
    requires c.tblEngDelta > 0.0 && q.f != 0.0 && 0 <= Ceiling(ILow(c))
    ensures |t| == n
  {
    Kinked(Ceiling(ILow(c)), q.len / q.f, n)
  }

  lemma FirstInTable(c: BrkCreateInfo, q: Kink, n: nat)
    requires Defeats(c, q, n)
    ensures 1 <= Ceiling(ILow(c)) && Ceiling(ILow(c)) + q.ahead < n
    ensures Ceiling(ILow(c)) as real - 1.0 < ILow(c) < Ceiling(ILow(c)) as real
  {
    LowBelowHigh(c);
    CeilingNear(ILow(c));
  }

  lemma KinkTableOn(c: BrkCreateInfo, q: Kink, n: nat)
    requires Defeats(c, q, n) && 1 <= Ceiling(ILow(c)) && Ceiling(ILow(c)) + q.ahead < n
    ensures OnKink(c, KinkTable(c, q, n), Engs(c, q.ahead + 1)) && EngsBehind(q, c.engLow, Engs(c, q.ahead + 1))
  {
    var engs := Engs(c, q.ahead + 1);
    forall i | 0 <= i < |engs| ensures EngBehind(q, c.engLow, i, engs[i]) {
      KinkPlace(c, q, i);
    }
  }

  lemma KinkTableShape(c: BrkCreateInfo, q: Kink, n: nat)
    requires Defeats(c, q, n)
    ensures 1 <= Ceiling(ILow(c)) && StrictlyMonotone(KinkTable(c, q, n))
    ensures 0.0 <= ILow(c) && Interp(KinkTable(c, q, n), ILow(c)) == -q.len
  {
    FirstInTable(c, q, n);
    Divided(q.len, q.f);
    KinkedIncreasing(Ceiling(ILow(c)), q.len / q.f, n);
    KinkedAt(Ceiling(ILow(c)), q.len / q.f, n, ILow(c));
  }

  /** The scale that takes the measurements to raw values. */
  lemma KinkScale(c: BrkCreateInfo, table: seq<real>, s: Setup) returns (k: Scale)
    requires s.From(c, table) && c.rawLow != c.rawHigh
    ensures k.g != 0.0 && k.Takes(Interp(table, s.ilow), c.rawLow)
    ensures |s.t| == |table| && forall i :: 0 <= i < |table| ==> k.Takes(table[i], s.t[i])
  {
    var low, high := Interp(table, s.ilow), Interp(table, s.ihigh);
    var g, h := SlopeOf(c.rawLow, c.rawHigh, low, high), OffsetOf(c.rawLow, c.rawHigh, low, high);
    SlopeMeets(c.rawLow, c.rawHigh, low, high, g, h);
    k := Scale(g, h);
  }

  /** The converted table of a kink. */
  ghost predicate OfKink(q: Kink, table: seq<real>, s: Setup) {
    && Defeats(s.c, q, |table|) && 1 <= Ceiling(ILow(s.c)) && table == KinkTable(s.c, q, |table|)
    && s.From(s.c, table) && s.ilow == ILow(s.c)
  }

  /** Which intervals fit, in measurements. */
  lemma KinkTableFits(c: BrkCreateInfo, q: Kink, n: nat, j: int)
    requires Defeats(c, q, n) && 1 <= Ceiling(ILow(c)) && 1 <= j <= q.ahead
    ensures var first := Ceiling(ILow(c));
            && first + j < n && KinkTable(c, q, n)[first + j] != -q.len
            && (Fits(c, KinkTable(c, q, n), -q.len, c.engLow, first, first + j) <==> j <= q.reach)
  {
    FirstInTable(c, q, n);
    KinkTableOn(c, q, n);
    KinkFits(c, q, KinkTable(c, q, n), Engs(c, q.ahead + 1), j);
  }

  /** And in raw values. */
  lemma ScaledKinkFits(q: Kink, table: seq<real>, s: Setup, j: int)
    requires OfKink(q, table, s) && 1 <= j <= q.ahead
    ensures Fits(s.c, s.t, s.c.rawLow, s.c.engLow, s.First(), s.First() + j) <==> j <= q.reach
  {
    KinkTableFits(s.c, q, |table|, j);
    var k := ScaleOfKink(q, table, s);
    SameFits(s.c, k, table, s.t, -q.len, s.c.rawLow, s.c.engLow, s.First(), s.First() + j);
  }

  lemma ScaleOfKink(q: Kink, table: seq<real>, s: Setup) returns (k: Scale)
    requires OfKink(q, table, s)
    ensures k.g != 0.0 && k.Takes(-q.len, s.c.rawLow)
    ensures |s.t| == |table| && forall i :: 0 <= i < |table| ==> k.Takes(table[i], s.t[i])
  {
    KinkTableShape(s.c, q, |table|);
    k := KinkScale(s.c, table, s);
  }

  /** The line over `reach` entries misses the first one, in measurements. */
  lemma KinkTableMissed(c: BrkCreateInfo, q: Kink, n: nat)
    requires Defeats(c, q, n) && 1 <= Ceiling(ILow(c)) && Ceiling(ILow(c)) + q.reach < n
    ensures var t := KinkTable(c, q, n); var first := Ceiling(ILow(c)); var to := first + q.reach;
            && t[to] != -q.len
            && Deviation(-q.len, c.engLow, LineSlope(-q.len, c.engLow, t[to], EngAt(c, to)), t[first], EngAt(c, first))
               >= c.accuracy
  {
    FirstInTable(c, q, n);
    KinkTableOn(c, q, n);
    LineFit(q, c.engLow, Engs(c, q.ahead + 1), 0, q.reach);
    KinkStep(c, q, KinkTable(c, q, n), Engs(c, q.ahead + 1), 0, q.reach);
  }

  /** And in raw values. */
  lemma ScaledKinkMissed(q: Kink, table: seq<real>, s: Setup, p: BrkInt)
    requires OfKink(q, table, s) && StartsLine(s, p, s.First() + q.reach)
    ensures FirstMiss(s, p) >= s.c.accuracy
  {
    var c, first, to := s.c, s.First(), s.First() + q.reach;
    KinkTableMissed(c, q, |table|);
    var k := ScaleOfKink(q, table, s);
    SameDeviation(k, -q.len, c.rawLow, c.engLow, table[to], s.t[to], EngAt(c, to), table[first], s.t[first],
        EngAt(c, first));
  }

  lemma FirstStep(r: Run)
    requires Starts(r.s.c, |r.table|) && Sealed(Built, r)
    ensures |r.b| > 0 && |r.starts| > 1 && r.s.First() < r.starts[1] <= r.s.End()
    ensures Fits(r.s.c, r.s.t, r.s.c.rawLow, r.s.c.engLow, r.s.First(), r.starts[1])
    ensures r.starts[1] < r.s.End() ==>
      !Fits(r.s.c, r.s.t, r.s.c.rawLow, r.s.c.engLow, r.s.First(), r.starts[1] + 1)
  {
    Unseal(Built, r);
    assert Interval(r.s.c, r.s.t, r.s.End(), r.b[0], r.starts[0], r.starts[0 + 1]);
  }

  /** Every run on a table with a sharp kink, whatever its intervals, misses the first entry. */
  lemma KinkRunMisses(q: Kink, r: Run)
    requires Sealed(Built, r) && OfKink(q, r.table, r.s)
    ensures !FirstWithin(r)
  {
    FirstStep(r);
    FirstInterval(r);
    var j := r.starts[1] - r.s.First();
    ScaledKinkFits(q, r.table, r.s, j);
    if j < q.reach {
      ScaledKinkFits(q, r.table, r.s, j + 1);
    }
    ScaledKinkMissed(q, r.table, r.s, r.b[0]);
    WithinMeans(r);
  }

  /** The table and the beginning of a run on it. */
  lemma KinkRun(c: BrkCreateInfo, q: Kink, n: nat) returns (r: Run)
    requires Defeats(c, q, n)
    ensures |r.table| == n && r.s.c == c && Sealed(Built, r) && OfKink(q, r.table, r.s)
  {
    KinkTableShape(c, q, n);
    var s := KinkSetup(c, KinkTable(c, q, n));
    var first, to := s.First(), s.First() + q.reach;
    FirstInTable(c, q, n);
    ScaledKinkFits(q, KinkTable(c, q, n), s, q.reach);
    if q.reach < q.ahead {
      ScaledKinkFits(q, KinkTable(c, q, n), s, q.reach + 1);
    }
    var p := BrkInt(c.rawLow, LineSlope(c.rawLow, c.engLow, s.t[to], EngAt(c, to)), c.engLow);
    assert Interval(c, s.t, s.End(), p, first, to);
    r := Run(KinkTable(c, q, n), s, [p, BrkInt(s.t[to], 0.0, EngAt(c, to))], [first, to]);
    Unseal(Built, r);
  }

  lemma KinkSetup(c: BrkCreateInfo, table: seq<real>) returns (s: Setup)
    requires Starts(c, |table|) && StrictlyMonotone(table)
    ensures s.c == c && s.From(c, table) && s.Valid() && s.ilow == ILow(c)
  {
    LowBelowHigh(c);
    RawTableInjective(c.rawLow, c.rawHigh, table, ILow(c), IHigh(c));
    RawTableMeets(c.rawLow, c.rawHigh, table, ILow(c), IHigh(c));
    var low, high := Interp(table, ILow(c)), Interp(table, IHigh(c));
    s := Setup(c, RawTable(c.rawLow, c.rawHigh, table, ILow(c), IHigh(c)), ILow(c), IHigh(c),
      SlopeOf(c.rawLow, c.rawHigh, low, high));
  }

  /** When the first table entry between the limits comes out accurate whatever the table: exactly
      when engLow falls on it, or the accuracy is at least the way from it to the last entry that
      an interval may reach. */
  lemma FirstEntryAccurate(c: BrkCreateInfo, n: nat)
    requires Starts(c, n)
    ensures AlwaysAccurate(c, n) <==>
      ILow(c) == Ceiling(ILow(c)) as real || c.accuracy >= Ahead(c, n) as real * c.tblEngDelta
  {
    if ILow(c) == Ceiling(ILow(c)) as real {
      forall r: Run | |r.table| == n && r.s.c == c && Sealed(Built, r) ensures FirstWithin(r) {
        FirstOnEntry(r);
      }
    } else if c.accuracy >= Ahead(c, n) as real * c.tblEngDelta {
      forall r: Run | |r.table| == n && r.s.c == c && Sealed(Built, r) ensures FirstWithin(r) {
        FirstAcrossLongest(r);
      }
    } else {
      var q := SharpKinkFor(c, n);
      var r := KinkRun(c, q, n);
      KinkRunMisses(q, r);
    }
  }

  lemma SharpKinkFor(c: BrkCreateInfo, n: nat) returns (q: Kink)
    requires Starts(c, n) && ILow(c) != Ceiling(ILow(c)) as real
    requires c.accuracy < Ahead(c, n) as real * c.tblEngDelta
    ensures Defeats(c, q, n)
  {
    LowBelowHigh(c);
    CeilingNear(ILow(c));
    q := SharpKink(c, n);
    Unseal(Sharp, q);
  }
}
