/** Building a breakpoint table: a table of measurements is scaled to raw units and covered
    with straight pieces, each as long as the accuracy allows. */
module BreakTables {
  import opened Sealing

  datatype BrkCreateInfo = BrkCreateInfo(
    engLow: real, engHigh: real, rawLow: real, rawHigh: real, accuracy: real,
    tblEngFirst: real, tblEngLast: real, tblEngDelta: real)

  datatype BrkInt = BrkInt(raw: real, slope: real, eng: real)

  datatype Status = Done | BadParameters | NotAccurate | TooLarge

  /** The checks made before anything is computed. */
  predicate Sensible(c: BrkCreateInfo, ntable: nat) {
    && c.engLow < c.engHigh && c.tblEngFirst <= c.engLow && c.engHigh <= c.tblEngLast
    && c.tblEngDelta > 0.0 && 3 <= ntable
  }

  function ILow(c: BrkCreateInfo): real
    requires c.tblEngDelta > 0.0
  {
    (c.engLow - c.tblEngFirst) / c.tblEngDelta
  }

  function IHigh(c: BrkCreateInfo): real
    requires c.tblEngDelta > 0.0
  {
    (c.engHigh - c.tblEngFirst) / c.tblEngDelta
  }

  /** Engineering value of a table entry. */
  function EngAt(c: BrkCreateInfo, i: int): real {
    c.tblEngFirst + i as real * c.tblEngDelta
  }

  /** The cell a position is interpolated in: past the end it is the last one. */
  function Cell(x: real, n: nat): int {
    if x.Floor >= n - 1 then n - 2 else x.Floor
  }

  function Between(a: real, b: real, f: real): real {
    a + (b - a) * f
  }

  /** Linear interpolation in a table, extended past its end. */
  function Interp(t: seq<real>, x: real): real
    requires 2 <= |t| && 0.0 <= x
  {
    var i := Cell(x, |t|);
    Between(t[i], t[i + 1], x - i as real)
  }

  predicate Increasing(t: seq<real>) {
    forall i, j :: 0 <= i < j < |t| ==> t[i] < t[j]
  }

  predicate Decreasing(t: seq<real>) {
    forall i, j :: 0 <= i < j < |t| ==> t[i] > t[j]
  }

  predicate StrictlyMonotone(t: seq<real>) {
    Increasing(t) || Decreasing(t)
  }

  /** Positions are determined by interpolated values. */
  ghost predicate Injective(t: seq<real>)
    requires 2 <= |t|
  {
    forall x: real, y: real :: 0.0 <= x < y ==> Interp(t, x) != Interp(t, y)
  }

  lemma BetweenGrows(a: real, b: real, f: real, g: real)
    requires a < b && f < g
    ensures Between(a, b, f) < Between(a, b, g)
  {
    assert (b - a) * g == (b - a) * f + (b - a) * (g - f);
    assert (b - a) * (g - f) > 0.0;
  }

  lemma BetweenEnds(a: real, b: real)
    ensures Between(a, b, 0.0) == a && Between(a, b, 1.0) == b
  {
  }

  /** Where interpolation stays inside its cell, and where it may run past the end. */
  lemma CellBounds(t: seq<real>, x: real)
    requires 2 <= |t| && Increasing(t) && 0.0 <= x
    ensures var i := Cell(x, |t|);
            0 <= i <= |t| - 2 && i as real <= x && t[i] <= Interp(t, x)
    ensures Cell(x, |t|) < |t| - 2 ==> Interp(t, x) < t[Cell(x, |t|) + 1]
  {
    var i := Cell(x, |t|);
    BetweenEnds(t[i], t[i + 1]);
    if x > i as real {
      BetweenGrows(t[i], t[i + 1], 0.0, x - i as real);
    }
    if i < |t| - 2 {
      BetweenGrows(t[i], t[i + 1], x - i as real, 1.0);
    }
  }

  lemma IncreasingInterp(t: seq<real>, x: real, y: real)
    requires 2 <= |t| && Increasing(t) && 0.0 <= x < y
    ensures Interp(t, x) < Interp(t, y)
  {
    var i, j := Cell(x, |t|), Cell(y, |t|);
    assert x.Floor <= y.Floor;
    if i == j {
      BetweenGrows(t[i], t[i + 1], x - i as real, y - i as real);
    } else {
      CellBounds(t, x);
      CellBounds(t, y);
      assert t[i + 1] <= t[j];
    }
  }

  /** Between two entries the values lie on a line. */
  lemma InterpBetween(t: seq<real>, i: int, f: real)
    requires 0 <= i && i + 1 < |t| && 0.0 <= f < 1.0
    ensures Interp(t, i as real + f) == t[i] + (t[i + 1] - t[i]) * f
  {
    assert (i as real + f).Floor == i;
  }

  lemma InterpAtEntry(t: seq<real>, i: int)
    requires 2 <= |t| && 0 <= i < |t|
    ensures Interp(t, i as real) == t[i]
  {
    var x := i as real;
    assert x.Floor == i;
    if i == |t| - 1 {
      assert (t[i] - t[i - 1]) * 1.0 == t[i] - t[i - 1];
    }
  }

  // ---------------------------------------------------------------- scaling

  function Scaled(t: seq<real>, slope: real, offset: real): (u: seq<real>)
    ensures |u| == |t| && forall i :: 0 <= i < |t| ==> u[i] == t[i] * slope + offset
  {
    seq(|t|, i requires 0 <= i < |t| => t[i] * slope + offset)
  }

  lemma ScaledInterp(t: seq<real>, slope: real, offset: real, x: real)
    requires 2 <= |t| && 0.0 <= x
    ensures Interp(Scaled(t, slope, offset), x) == Interp(t, x) * slope + offset
  {
    var i := Cell(x, |t|);
    var d, f := t[i + 1] - t[i], x - i as real;
    assert (t[i + 1] * slope + offset) - (t[i] * slope + offset) == d * slope;
    assert d * slope * f == d * f * slope;
    assert (t[i] + d * f) * slope == t[i] * slope + d * f * slope;
  }

  lemma Negated(t: seq<real>, x: real)
    requires 2 <= |t| && 0.0 <= x
    ensures Interp(Scaled(t, -1.0, 0.0), x) == -Interp(t, x)
  {
    ScaledInterp(t, -1.0, 0.0, x);
  }

  lemma MonotoneInjective(t: seq<real>)
    requires 2 <= |t| && StrictlyMonotone(t)
    ensures Injective(t)
  {
    forall x: real, y: real | 0.0 <= x < y ensures Interp(t, x) != Interp(t, y) {
      if Increasing(t) {
        IncreasingInterp(t, x, y);
      } else {
        IncreasingInterp(Scaled(t, -1.0, 0.0), x, y);
        Negated(t, x);
        Negated(t, y);
      }
    }
  }

  lemma ScaledInjective(t: seq<real>, slope: real, offset: real)
    requires 2 <= |t| && Injective(t) && slope != 0.0
    ensures Injective(Scaled(t, slope, offset))
  {
    var u := Scaled(t, slope, offset);
    forall x: real, y: real | 0.0 <= x < y ensures Interp(u, x) != Interp(u, y) {
      ScaledInterp(t, slope, offset, x);
      ScaledInterp(t, slope, offset, y);
      var a, b := Interp(t, x), Interp(t, y);
      assert a != b && (a - b) * slope == a * slope - b * slope;
      assert (a - b) * slope != 0.0;
    }
  }

  /** The scaling that takes two table values to two raw values. */
  function SlopeOf(rawLow: real, rawHigh: real, tblLow: real, tblHigh: real): real
    requires tblLow != tblHigh
  {
    (rawHigh - rawLow) / (tblHigh - tblLow)
  }

  function OffsetOf(rawLow: real, rawHigh: real, tblLow: real, tblHigh: real): real
    requires tblLow != tblHigh
  {
    rawHigh - SlopeOf(rawLow, rawHigh, tblLow, tblHigh) * tblHigh
  }

  lemma SlopeMeets(rawLow: real, rawHigh: real, tblLow: real, tblHigh: real, s: real, o: real)
    requires tblLow != tblHigh && s == SlopeOf(rawLow, rawHigh, tblLow, tblHigh)
    requires o == OffsetOf(rawLow, rawHigh, tblLow, tblHigh)
    ensures tblHigh * s + o == rawHigh && tblLow * s + o == rawLow
    ensures rawLow != rawHigh ==> s != 0.0
  {
    var d := tblHigh - tblLow;
    assert s * d == rawHigh - rawLow;
    assert s * tblHigh - s * tblLow == s * d;
  }

  /** The table in raw units, as the conversion step leaves it: `x` and `y` are the positions of
      the two limits. */
  function RawTable(rawLow: real, rawHigh: real, t: seq<real>, x: real, y: real): (u: seq<real>)
    requires 2 <= |t| && 0.0 <= x && 0.0 <= y && Interp(t, x) != Interp(t, y)
    ensures |u| == |t|
  {
    var (low, high) := (Interp(t, x), Interp(t, y));
    Scaled(t, SlopeOf(rawLow, rawHigh, low, high), OffsetOf(rawLow, rawHigh, low, high))
  }

  /** The converted table reads rawLow and rawHigh at the two limits. */
  lemma RawTableMeets(rawLow: real, rawHigh: real, t: seq<real>, x: real, y: real)
    requires 2 <= |t| && 0.0 <= x < y && Interp(t, x) != Interp(t, y)
    ensures Interp(RawTable(rawLow, rawHigh, t, x, y), x) == rawLow
    ensures Interp(RawTable(rawLow, rawHigh, t, x, y), y) == rawHigh
  {
    var low, high := Interp(t, x), Interp(t, y);
    var s, o := SlopeOf(rawLow, rawHigh, low, high), OffsetOf(rawLow, rawHigh, low, high);
    SlopeMeets(rawLow, rawHigh, low, high, s, o);
    ScaledInterp(t, s, o, x);
    ScaledInterp(t, s, o, y);
  }

  /** The converted table keeps all its positions apart. */
  lemma RawTableInjective(rawLow: real, rawHigh: real, t: seq<real>, x: real, y: real)
    requires 2 <= |t| && StrictlyMonotone(t) && 0.0 <= x < y && rawLow != rawHigh
    ensures Interp(t, x) != Interp(t, y) && Injective(RawTable(rawLow, rawHigh, t, x, y))
  {
    MonotoneInjective(t);
    var low, high := Interp(t, x), Interp(t, y);
    var s, o := SlopeOf(rawLow, rawHigh, low, high), OffsetOf(rawLow, rawHigh, low, high);
    SlopeMeets(rawLow, rawHigh, low, high, s, o);
    ScaledInjective(t, s, o);
  }

  lemma LowBelowHigh(c: BrkCreateInfo)
    requires c.tblEngDelta > 0.0 && c.tblEngFirst <= c.engLow < c.engHigh
    ensures 0.0 <= ILow(c) < IHigh(c)
  {
    var d := c.tblEngDelta;
    assert ILow(c) * d == c.engLow - c.tblEngFirst;
    assert IHigh(c) * d == c.engHigh - c.tblEngFirst;
    assert (IHigh(c) - ILow(c)) * d == IHigh(c) * d - ILow(c) * d;
  }

  /** The positions of the limits are where the engineering values of the entries reach them. */
  lemma LimitPositions(c: BrkCreateInfo)
    requires c.tblEngDelta > 0.0
    ensures c.tblEngFirst + ILow(c) * c.tblEngDelta == c.engLow
    ensures c.tblEngFirst + IHigh(c) * c.tblEngDelta == c.engHigh
  {
  }

  method ScaleInPlace(table: array<real>, slope: real, offset: real)
    modifies table
    ensures table[..] == Scaled(old(table[..]), slope, offset)
  {
    ghost var u := Scaled(table[..], slope, offset);
    for i := 0 to table.Length
      invariant forall k :: 0 <= k < i ==> table[k] == u[k]
      invariant forall k :: i <= k < table.Length ==> table[k] == old(table[..])[k]
    {
      table[i] := table[i] * slope + offset;
    }
  }

  /** Converts the table to raw units in place. */
  method Convert(rawLow: real, rawHigh: real, table: array<real>, x: real, y: real) returns (slope: real)
    requires 2 <= table.Length && 0.0 <= x && 0.0 <= y && Interp(table[..], x) != Interp(table[..], y)
    modifies table
    ensures slope == SlopeOf(rawLow, rawHigh, old(Interp(table[..], x)), old(Interp(table[..], y)))
    ensures table[..] == RawTable(rawLow, rawHigh, old(table[..]), x, y)
  {
    var tblLow := Interpolate(table, x);
    var tblHigh := Interpolate(table, y);
    slope := SlopeOf(rawLow, rawHigh, tblLow, tblHigh);
    ScaleInPlace(table, slope, OffsetOf(rawLow, rawHigh, tblLow, tblHigh));
  }

  method Interpolate(table: array<real>, x: real) returns (v: real)
    requires 2 <= table.Length && 0.0 <= x
    ensures v == Interp(table[..], x)
  {
    var i := x.Floor;
    if i >= table.Length - 1 {
      i := table.Length - 2;
    }
    v := Between(table[i], table[i + 1], x - i as real);
  }

  // ---------------------------------------------------------------- one interval

  /** Slope of the line from a breakpoint to another point. */
  function LineSlope(raw: real, eng: real, rawEnd: real, engEnd: real): real
    requires rawEnd != raw
  {
    (engEnd - eng) / (rawEnd - raw)
  }

  /** Distance of a value from its place on a line. */
  function Deviation(raw: real, eng: real, slope: real, v: real, engActual: real): real {
    var e := eng + slope * (v - raw) - engActual;
    if e < 0.0 then -e else e
  }

  /** The line from a breakpoint reads the value of table entry `i` to within the accuracy, from
      above or from below. */
  predicate Accurate(c: BrkCreateInfo, raw: real, eng: real, slope: real, v: real, i: int) {
    -c.accuracy < eng + slope * (v - raw) - (c.tblEngFirst + i as real * c.tblEngDelta) < c.accuracy
  }

  /** A deviation below a bound is one from either side. */
  lemma DeviationMeans(raw: real, eng: real, slope: real, v: real, engActual: real, bound: real)
    ensures Deviation(raw, eng, slope, v, engActual) < bound <==>
            -bound < eng + slope * (v - raw) - engActual < bound
  {
  }

  lemma AccurateMeans(c: BrkCreateInfo, raw: real, eng: real, slope: real, v: real, i: int)
    ensures Accurate(c, raw, eng, slope, v, i) <==> Deviation(raw, eng, slope, v, EngAt(c, i)) < c.accuracy
  {
    DeviationMeans(raw, eng, slope, v, EngAt(c, i), c.accuracy);
  }

  lemma LineMeetsEnd(raw: real, eng: real, v: real, engEnd: real)
    requires v != raw
    ensures Deviation(raw, eng, LineSlope(raw, eng, v, engEnd), v, engEnd) == 0.0
  {
    var d := v - raw;
    assert LineSlope(raw, eng, v, engEnd) * d == engEnd - eng;
  }

  /** Every entry after `from` up to `m` is within the accuracy of a line. */
  predicate FitsLine(c: BrkCreateInfo, t: seq<real>, raw: real, eng: real, slope: real, from: int, m: int)
    requires 0 <= from < m < |t|
  {
    forall i :: from < i <= m ==> Deviation(raw, eng, slope, t[i], EngAt(c, i)) < c.accuracy
  }

  /** Every entry after `from` up to `m` is within the accuracy of the line from the breakpoint
      to entry `m`. */
  predicate Fits(c: BrkCreateInfo, t: seq<real>, raw: real, eng: real, from: int, m: int) {
    && 0 <= from < m < |t| && t[m] != raw
    && FitsLine(c, t, raw, eng, LineSlope(raw, eng, t[m], EngAt(c, m)), from, m)
  }

  /** What it is for an interval to fit: the line from the breakpoint to entry `m` is accurate at
      every entry behind the first, up to that one. */
  lemma FitsMeans(c: BrkCreateInfo, t: seq<real>, raw: real, eng: real, from: int, m: int)
    requires 0 <= from < m < |t| && t[m] != raw
    ensures var slope := (EngAt(c, m) - eng) / (t[m] - raw);
            Fits(c, t, raw, eng, from, m) <==> forall i :: from < i <= m ==> Accurate(c, raw, eng, slope, t[i], i)
  {
    var slope := LineSlope(raw, eng, t[m], EngAt(c, m));
    assert slope == (EngAt(c, m) - eng) / (t[m] - raw);
    FitsLineMeans(c, t, raw, eng, slope, from, m);
  }

  lemma FitsLineMeans(c: BrkCreateInfo, t: seq<real>, raw: real, eng: real, slope: real, from: int, m: int)
    requires 0 <= from < m < |t|
    ensures FitsLine(c, t, raw, eng, slope, from, m) <==>
            forall i :: from < i <= m ==> Accurate(c, raw, eng, slope, t[i], i)
  {
    forall i | from < i <= m
      ensures Accurate(c, raw, eng, slope, t[i], i) <==> Deviation(raw, eng, slope, t[i], EngAt(c, i)) < c.accuracy
    {
      AccurateMeans(c, raw, eng, slope, t[i], i);
    }
  }

  /** The shortest interval fits exactly when the accuracy is positive, and without a positive
      accuracy none does. */
  lemma WhatFits(c: BrkCreateInfo, t: seq<real>, raw: real, eng: real, from: int, m: int)
    requires 0 <= from < m < |t| && t[m] != raw
    ensures m == from + 1 ==> (Fits(c, t, raw, eng, from, m) <==> c.accuracy > 0.0)
    ensures Fits(c, t, raw, eng, from, m) ==> c.accuracy > 0.0
  {
    LineMeetsEnd(raw, eng, t[m], EngAt(c, m));
    assert from < m <= m;
  }

  /** The last entry an interval may reach: the one past engHigh, or the end of the table. */
  function Last(ihigh: real, n: nat): int {
    if ihigh.Floor + 1 < n - 1 then ihigh.Floor + 1 else n - 1
  }

  /** A breakpoint with its slope: it fits up to `to`, and one entry more would not fit or
      would be past the last entry allowed. */
  ghost predicate Interval(c: BrkCreateInfo, t: seq<real>, last: int, p: BrkInt, from: int, to: int) {
    && to <= last && Fits(c, t, p.raw, p.eng, from, to)
    && p.slope == LineSlope(p.raw, p.eng, t[to], EngAt(c, to))
    && (to == last || !Fits(c, t, p.raw, p.eng, from, to + 1))
  }

  /** What a trial leaves behind. */
  predicate AtEntry(c: BrkCreateInfo, t: seq<real>, raw: real, eng: real, m: int,
                    rawEnd: real, engEnd: real, slope: real) {
    && 0 <= m < |t| && rawEnd == t[m] && rawEnd != raw && engEnd == EngAt(c, m)
    && slope == LineSlope(raw, eng, rawEnd, engEnd)
  }

  method CheckInterval(c: BrkCreateInfo, table: array<real>, raw: real, eng: real, from: int, m: int)
    returns (slope: real, allOk: bool)
    requires 0 <= from < m < table.Length && table[m] != raw
    ensures slope == LineSlope(raw, eng, table[m], EngAt(c, m))
    ensures allOk <==> Fits(c, table[..], raw, eng, from, m)
    ensures allOk <==> forall i :: from < i <= m ==> Accurate(c, raw, eng, slope, table[..][i], i)
  {
    FitsMeans(c, table[..], raw, eng, from, m);
    slope := LineSlope(raw, eng, table[m], EngAt(c, m));
    for i := from + 1 to m + 1
      invariant forall k :: from < k < i ==> Deviation(raw, eng, slope, table[..][k], EngAt(c, k)) < c.accuracy
    {
      if Deviation(raw, eng, slope, table[i], EngAt(c, i)) >= c.accuracy {
        assert table[..][i] == table[i];
        return slope, false;
      }
    }
    return slope, true;
  }

  /** The end of the next trial, kept inside the table and not far past engHigh. */
  method NextTrial(ntable: nat, ihigh: real, iend: int, inc0: int, expanding0: bool)
    returns (imax: int, inc: int, expanding: bool)
    requires 0 <= iend <= Last(ihigh, ntable)
    ensures imax == iend + inc
    ensures iend + inc0 <= Last(ihigh, ntable) ==> inc == inc0 && expanding == expanding0
    ensures iend + inc0 > Last(ihigh, ntable) ==> imax == Last(ihigh, ntable) && !expanding
  {
    imax, inc, expanding := iend + inc0, inc0, expanding0;
    if imax >= ntable {
      imax := ntable - 1;
      inc := ntable - iend - 1;
      expanding := false;
    }
    if imax > (ihigh + 1.0).Floor {
      imax := (ihigh + 1.0).Floor;
      inc := (ihigh + 1.0).Floor - iend;
      expanding := false;
    }
  }

  /** The search for one interval: expand while the trials succeed, then shrink one entry at a
      time until one does. */
  method FindInterval(c: BrkCreateInfo, table: array<real>, raw: real, eng: real, ibeg: int, ilow: real, ihigh: real,
      slope0: real)
    returns (iend: int, rawEnd: real, engEnd: real, slope: real)
    requires 0.0 <= ilow < ihigh
    requires 0 <= ibeg < table.Length - 1 && ibeg <= Last(ihigh, table.Length)
    requires forall m :: ibeg < m < table.Length ==> table[m] != raw
    ensures ibeg == Last(ihigh, table.Length) ==> iend == ibeg
    ensures ibeg == Last(ihigh, table.Length) ==> rawEnd == raw && engEnd == eng && slope == slope0
    ensures ibeg < Last(ihigh, table.Length) ==>
      AtEntry(c, table[..], raw, eng, if c.accuracy > 0.0 then iend else ibeg + 1, rawEnd, engEnd, slope)
    ensures ibeg < Last(ihigh, table.Length) && c.accuracy > 0.0 ==>
      Interval(c, table[..], Last(ihigh, table.Length), BrkInt(raw, slope, eng), ibeg, iend)
    ensures c.accuracy <= 0.0 ==> iend == ibeg
  {
    ghost var t, last := table[..], Last(ihigh, table.Length);
    rawEnd, engEnd, slope := raw, eng, slope0;
    iend := ibeg;
    var inc := ((ihigh - ilow) / 10.0).Floor;
    if inc < 1 {
      inc := 1;
    }
    var expanding := true;
    while true
      invariant inc >= 0 && ibeg <= iend <= last
      invariant iend == ibeg || Fits(c, t, raw, eng, ibeg, iend)
      invariant expanding ==> inc >= 1
      invariant !expanding ==> iend + inc <= last
      invariant !expanding ==> iend + inc == last || !Fits(c, t, raw, eng, ibeg, iend + inc + 1)
      invariant !expanding && iend + inc < last ==> AtEntry(c, t, raw, eng, iend + inc + 1, rawEnd, engEnd, slope)
      invariant ibeg == last ==> rawEnd == raw && engEnd == eng && slope == slope0
      decreases expanding, if expanding then last - iend else iend + inc - ibeg
    {
      if iend > ibeg {
        WhatFits(c, t, raw, eng, ibeg, iend);
      }
      if ibeg < last {
        WhatFits(c, t, raw, eng, ibeg, ibeg + 1);
      }
      var imax;
      imax, inc, expanding := NextTrial(table.Length, ihigh, iend, inc, expanding);
      if imax <= ibeg {
        break;
      }
      rawEnd := table[imax];
      engEnd := EngAt(c, imax);
      var allOk;
      slope, allOk := CheckInterval(c, table, raw, eng, ibeg, imax);
      WhatFits(c, t, raw, eng, ibeg, imax);
      if allOk {
        iend := imax;
        if !expanding {
          break;
        }
      } else {
        expanding := false;
        inc := inc - 1;
      }
    }
  }

  // ---------------------------------------------------------------- the whole table

  /** The first table entry not before a position. */
  function Ceiling(x: real): int {
    if x.Floor as real < x then x.Floor + 1 else x.Floor
  }

  /** Breakpoints and the entries they stand on: from each to the next is an interval that fits
      and cannot be extended, and all but the first stand on the table. */
  ghost predicate Chain(c: BrkCreateInfo, t: seq<real>, last: int, b: seq<BrkInt>, starts: seq<int>) {
    && 1 <= |b| && |starts| <= |b| + 1
    && (forall k :: 0 <= k < |starts| - 1 ==> Interval(c, t, last, b[k], starts[k], starts[k + 1]))
    && (forall k :: 0 < k < |b| && k < |starts| ==> OnTable(c, t, b[k], starts[k]))
  }

  predicate OnTable(c: BrkCreateInfo, t: seq<real>, p: BrkInt, i: int) {
    0 <= i < |t| && p.raw == t[i] && p.eng == EngAt(c, i)
  }

  lemma PastHigh(c: BrkCreateInfo, i: int)
    requires c.tblEngDelta > 0.0 && i > IHigh(c).Floor
    ensures EngAt(c, i) > c.engHigh
  {
    var d := c.tblEngDelta;
    assert IHigh(c) * d == c.engHigh - c.tblEngFirst;
    assert (i as real - IHigh(c)) * d == i as real * d - IHigh(c) * d;
    assert (i as real - IHigh(c)) * d > 0.0;
  }

  /** A breakpoint at a position before an entry differs from it. */
  lemma Apart(t: seq<real>, x: real, raw: real, from: int)
    requires 2 <= |t| && Injective(t) && 0.0 <= x <= from as real && raw == Interp(t, x)
    ensures forall m :: from < m < |t| ==> t[m] != raw
  {
    forall m | from < m < |t| ensures t[m] != raw {
      InterpAtEntry(t, m);
      assert x < m as real;
    }
  }

  lemma ChainGrows(c: BrkCreateInfo, t: seq<real>, last: int, b: seq<BrkInt>, starts: seq<int>,
                   b2: seq<BrkInt>, iend: int)
    requires Chain(c, t, last, b, starts) && |starts| == |b|
    requires |b2| == |b| + 1 && b2[..|b| - 1] == b[..|b| - 1]
    requires b2[|b| - 1].raw == b[|b| - 1].raw && b2[|b| - 1].eng == b[|b| - 1].eng
    requires Interval(c, t, last, b2[|b| - 1], starts[|b| - 1], iend)
    requires OnTable(c, t, b2[|b|], iend)
    ensures Chain(c, t, last, b2, starts + [iend])
    ensures Chain(c, t, last, b2[..|b|], starts + [iend])
  {
    var s2 := starts + [iend];
    assert forall k :: 0 <= k < |b| - 1 ==> b2[k] == b2[..|b| - 1][k] == b[k];
    forall k | 0 <= k < |s2| - 1 ensures Interval(c, t, last, b2[k], s2[k], s2[k + 1]) {
      if k < |b| - 1 {
        assert Interval(c, t, last, b[k], starts[k], starts[k + 1]);
      }
    }
  }

  /** What the outer loop works with: the converted table, the positions of the limits, and the
      slope left over from the conversion. */
  datatype Setup = Setup(c: BrkCreateInfo, t: seq<real>, ilow: real, ihigh: real, slope: real) {
    function First(): int { Ceiling(ilow) }

    function High(): int { ihigh.Floor }

    function End(): int { Last(ihigh, |t|) }

    /** Where an interval ends when no interval is accurate enough. */
    predicate Unfit(p: BrkInt, q: BrkInt) {
      && High() + 1 < |t| && OnTable(c, t, q, High() + 1) && q.raw != p.raw
      && p.slope == LineSlope(p.raw, p.eng, q.raw, q.eng)
    }

    ghost predicate Valid() {
      && 3 <= |t| && Injective(t) && c.tblEngDelta > 0.0 && c.engLow < c.engHigh
      && ilow == ILow(c) && ihigh == IHigh(c) && 0.0 <= ilow < ihigh
      && Interp(t, ilow) == c.rawLow
    }

    /** How it comes from a table of measurements. */
    ghost predicate From(info: BrkCreateInfo, table: seq<real>) {
      && Sensible(info, |table|) && c == info
      && 0.0 <= ilow && 0.0 <= ihigh && Interp(table, ilow) != Interp(table, ihigh)
      && t == RawTable(c.rawLow, c.rawHigh, table, ilow, ihigh)
      && slope == SlopeOf(c.rawLow, c.rawHigh, Interp(table, ilow), Interp(table, ihigh))
    }

    /** The breakpoints so far and the entries their intervals start at. */
    ghost predicate Emitted(b: seq<BrkInt>, starts: seq<int>) {
      && 1 <= |b| == |starts| && b[0].raw == c.rawLow && b[0].eng == c.engLow && starts[0] == First()
      && if First() > High() then
           Stalled(b[..|b| - 1]) && starts[|b| - 1] == First()
           && b[|b| - 1].raw == c.rawLow && b[|b| - 1].eng == c.engLow
         else if c.accuracy > 0.0 then Chain(c, t, End(), b, starts)
         else |b| == 1 || (|b| == 2 && starts[1] == First() == High() && Unfit(b[0], b[1]))
    }

    /** No entry lies between the limits: the same breakpoint over and over. */
    ghost predicate Stalled(b: seq<BrkInt>) {
      forall p :: p in b ==> p == BrkInt(c.rawLow, slope, c.engLow)
    }

    /** The breakpoints when there is no room for the next one. */
    ghost predicate Full(b: seq<BrkInt>, starts: seq<int>) {
      && |starts| == |b| + 1 && starts[0] == First()
      && if First() > High() then Stalled(b)
         else if c.accuracy > 0.0 then Chain(c, t, End(), b, starts)
         else |b| == 1 && First() == High()
    }

    lemma Next(b: seq<BrkInt>, starts: seq<int>, ibeg: int)
      requires Valid() && Emitted(b, starts) && ibeg == starts[|b| - 1] && b[|b| - 1].eng <= c.engHigh && ibeg < |t| - 1
      ensures 0 <= ibeg <= End() && (First() <= High() ==> ibeg < End())
      ensures forall m :: ibeg < m < |t| ==> t[m] != b[|b| - 1].raw
      ensures First() > High() || c.accuracy > 0.0 || |b| == 1
    {
      assert ilow.Floor <= ihigh.Floor;
      if First() <= High() && |b| > 1 {
        var i := if c.accuracy > 0.0 then ibeg else High() + 1;
        assert OnTable(c, t, b[|b| - 1], i);
        if i > High() {
          PastHigh(c, i);
        }
        InterpAtEntry(t, ibeg);
        Apart(t, ibeg as real, b[|b| - 1].raw, ibeg);
        assert Interval(c, t, End(), b[|b| - 2], starts[|b| - 2], starts[|b| - 1]);
      } else {
        Apart(t, ilow, b[|b| - 1].raw, ibeg);
      }
    }

    /** One interval more. */
    lemma Step(b: seq<BrkInt>, starts: seq<int>, ibeg: int, iend: int, b2: seq<BrkInt>)
      requires Valid() && Emitted(b, starts) && ibeg == starts[|b| - 1] && b[|b| - 1].eng <= c.engHigh && ibeg < |t| - 1
      requires |b2| == |b| + 1 && b2[..|b| - 1] == b[..|b| - 1]
      requires b2[|b| - 1].raw == b[|b| - 1].raw && b2[|b| - 1].eng == b[|b| - 1].eng
      requires First() > High() ==> iend == ibeg && b2[|b| - 1].slope == slope
      requires First() > High() ==> b2[|b|].raw == b[|b| - 1].raw && b2[|b|].eng == b[|b| - 1].eng
      requires First() <= High() && c.accuracy > 0.0 ==>
        Interval(c, t, End(), b2[|b| - 1], ibeg, iend) && OnTable(c, t, b2[|b|], iend)
      requires First() <= High() && c.accuracy <= 0.0 ==>
        iend == ibeg == High() && Unfit(b2[|b| - 1], b2[|b|])
      ensures Emitted(b2, starts + [iend]) && Full(b2[..|b|], starts + [iend])
    {
      Next(b, starts, ibeg);
      if First() <= High() && c.accuracy > 0.0 {
        ChainGrows(c, t, End(), b, starts, b2, iend);
      }
      if |b| > 1 {
        assert b2[0] == b2[..|b| - 1][0];
      }
      assert b2[..|b|] == b[..|b| - 1] + [b2[|b| - 1]];
    }
  }

  /** Places a breakpoint: its slope is not known yet. */
  method PutBreak(brk: array<BrkInt>, n: nat, raw: real, eng: real, slope: real)
    requires n < brk.Length
    modifies brk
    ensures brk[..] == old(brk[..][n := BrkInt(raw, brk[n].slope, eng)])
  {
    brk[n] := brk[n].(raw := raw);
    var moved := brk[n].raw - raw;
    assert moved == 0.0 && moved * slope == 0.0;
    brk[n] := brk[n].(eng := eng + moved * slope);
  }

  /** Finds one interval, gives the current breakpoint its slope and starts the next one. */
  method NextBreak(ghost s: Setup, c: BrkCreateInfo, table: array<real>, brk: array<BrkInt>, maxBreaks: nat,
                   ilow: real, ihigh: real, n0: nat, ibeg: int, slope0: real, ghost starts: seq<int>)
    returns (status: Status, n: nat, iend: int, slope: real)
    requires s == Setup(c, table[..], ilow, ihigh, s.slope) && s.Valid()
    requires 1 <= n0 <= maxBreaks <= brk.Length
    requires s.Emitted(brk[..n0], starts) && ibeg == starts[n0 - 1]
    requires brk[n0 - 1].eng <= c.engHigh && ibeg < table.Length - 1
    requires s.First() > s.High() ==> slope0 == s.slope
    modifies brk
    ensures n == if status == NotAccurate then n0 else n0 + 1
    ensures status == NotAccurate <==> s.First() < s.High() && c.accuracy <= 0.0
    ensures status == TooLarge ==> n0 == maxBreaks && s.Full(brk[..n0], starts + [iend])
    ensures status == Done ==> n <= maxBreaks && s.Emitted(brk[..n], starts + [iend])
    ensures s.First() > s.High() ==> slope == s.slope
    ensures status != BadParameters
  {
    ghost var b := brk[..n0];
    s.Next(b, starts, ibeg);
    n := n0;
    var rawBeg, engBeg := brk[n - 1].raw, brk[n - 1].eng;
    var rawEnd, engEnd;
    iend, rawEnd, engEnd, slope := FindInterval(c, table, rawBeg, engBeg, ibeg, ilow, ihigh, slope0);
    if iend <= ibeg && iend < ihigh.Floor {
      status := NotAccurate;
      return;
    }
    brk[n - 1] := brk[n - 1].(slope := slope);
    ghost var b2 := brk[..n] + [BrkInt(rawEnd, if n < maxBreaks then brk[n].slope else 0.0, engEnd)];
    s.Step(b, starts, ibeg, iend, b2);
    assert brk[..n] == b2[..n];
    n := n + 1;
    if n > maxBreaks {
      status := TooLarge;
      return;
    }
    PutBreak(brk, n - 1, rawEnd, engEnd, slope);
    assert brk[..n] == b2;
    status := Done;
  }

  method FindBreaks(ghost s: Setup, c: BrkCreateInfo, table: array<real>, brk: array<BrkInt>, maxBreaks: nat,
                    ilow: real, ihigh: real, slope0: real)
    returns (status: Status, n: nat, ghost starts: seq<int>)
    requires s == Setup(c, table[..], ilow, ihigh, slope0) && s.Valid()
    requires 1 <= maxBreaks <= brk.Length
    modifies brk
    ensures status != BadParameters
    ensures status == NotAccurate <==>
      s.First() < table.Length - 1 && s.First() < s.High() && c.accuracy <= 0.0
    ensures status == Done ==> 1 <= n <= maxBreaks && brk[n - 1].slope == 0.0
    ensures status == Done ==> s.Emitted(brk[..n], starts)
    ensures status == Done ==> starts[n - 1] >= table.Length - 1 || brk[n - 1].eng > c.engHigh
    ensures status == TooLarge ==> s.Full(brk[..maxBreaks], starts) && s.First() < table.Length - 1
  {
    var rawBeg := Interpolate(table, ilow);
    var ibeg := ilow.Floor;
    if ibeg as real < ilow {
      ibeg := ibeg + 1;
    }
    n := 1;
    brk[0] := BrkInt(rawBeg, brk[0].slope, c.engLow);
    starts := [ibeg];
    var slope := slope0;
    while brk[n - 1].eng <= c.engHigh && ibeg < table.Length - 1
      invariant 1 <= n <= maxBreaks
      invariant s.Emitted(brk[..n], starts) && starts[n - 1] == ibeg
      invariant s.First() > s.High() ==> slope == slope0
      invariant n > 1 ==> s.First() < table.Length - 1
      invariant s.First() < s.High() && c.accuracy <= 0.0 ==> n == 1
      decreases maxBreaks - n
    {
      status, n, ibeg, slope := NextBreak(s, c, table, brk, maxBreaks, ilow, ihigh, n, ibeg, slope, starts);
      if status == NotAccurate {
        return;
      }
      starts := starts + [ibeg];
      if status == TooLarge {
        return;
      }
    }
    brk[n - 1] := brk[n - 1].(slope := 0.0);
    status := Done;
  }

  /** Builds a breakpoint table. */
  method CreateBreak(c: BrkCreateInfo, table: array<real>, brk: array<BrkInt>, maxBreaks: nat)
    returns (status: Status, n: nat, ghost s: Setup, ghost starts: seq<int>)
    requires Sensible(c, table.Length) ==> StrictlyMonotone(table[..]) && c.rawLow != c.rawHigh
    requires 1 <= maxBreaks <= brk.Length
    modifies table, brk
    ensures status == BadParameters <==> !Sensible(c, table.Length)
    ensures status == BadParameters ==> table[..] == old(table[..]) && brk[..] == old(brk[..])
    ensures status != BadParameters ==> s.From(c, old(table[..])) && s.Valid() && table[..] == s.t
    ensures status == NotAccurate <==>
      Sensible(c, table.Length) && s.First() < table.Length - 1 && s.First() < s.High() && c.accuracy <= 0.0
    ensures status == Done ==> 1 <= n <= maxBreaks && brk[n - 1].slope == 0.0
    ensures status == Done ==> s.Emitted(brk[..n], starts)
    ensures status == Done ==> starts[n - 1] >= table.Length - 1 || brk[n - 1].eng > c.engHigh
    ensures status == TooLarge ==> s.Full(brk[..maxBreaks], starts) && s.First() < table.Length - 1
    ensures status != BadParameters && c.accuracy > 0.0 && s.First() < table.Length - 1 &&
            maxBreaks > s.End() - s.First() ==>
      (status == Done <==> s.First() <= s.High())
  {
    n, starts, s := 0, [], Setup(c, [], 0.0, 0.0, 0.0);
    if c.engLow >= c.engHigh {
      return BadParameters, n, s, starts;
    }
    if c.engLow < c.tblEngFirst || c.engHigh > c.tblEngLast {
      return BadParameters, n, s, starts;
    }
    if c.tblEngDelta <= 0.0 {
      return BadParameters, n, s, starts;
    }
    if table.Length < 3 {
      return BadParameters, n, s, starts;
    }
    var ilow, ihigh := ILow(c), IHigh(c);
    LowBelowHigh(c);
    RawTableInjective(c.rawLow, c.rawHigh, table[..], ilow, ihigh);
    RawTableMeets(c.rawLow, c.rawHigh, table[..], ilow, ihigh);
    var slope := Convert(c.rawLow, c.rawHigh, table, ilow, ihigh);
    s := Setup(c, table[..], ilow, ihigh, slope);
    status, n, starts := FindBreaks(s, c, table, brk, maxBreaks, ilow, ihigh, slope);
    if s.First() < table.Length - 1 {
      Outcomes(s, brk[..if status == Done then n else maxBreaks], starts);
    }
  }

  // ---------------------------------------------------------------- what the table promises

  /** Intervals advance by at least one entry. */
  lemma {:induction false} ChainAdvances(c: BrkCreateInfo, t: seq<real>, last: int, b: seq<BrkInt>,
                                         starts: seq<int>, k: nat)
    requires Chain(c, t, last, b, starts) && k < |starts|
    ensures starts[0] + k <= starts[k] && (k > 0 ==> starts[k] <= last)
  {
    if k > 0 {
      ChainAdvances(c, t, last, b, starts, k - 1);
      assert Interval(c, t, last, b[k - 1], starts[k - 1], starts[k - 1 + 1]);
    }
  }

  /** Every entry after the first start up to the k-th is within the accuracy of the line of the
      interval it falls in. */
  lemma {:induction false} ChainCovers(c: BrkCreateInfo, t: seq<real>, last: int, b: seq<BrkInt>,
                                       starts: seq<int>, k: nat, i: int) returns (j: nat)
    requires Chain(c, t, last, b, starts) && k < |starts| && starts[0] < i <= starts[k]
    ensures j < k && starts[j] < i <= starts[j + 1] && i < |t|
    ensures Accurate(c, b[j].raw, b[j].eng, b[j].slope, t[i], i)
  {
    assert Interval(c, t, last, b[k - 1], starts[k - 1], starts[k - 1 + 1]);
    if i <= starts[k - 1] {
      j := ChainCovers(c, t, last, b, starts, k - 1, i);
    } else {
      j := k - 1;
      AccurateMeans(c, b[j].raw, b[j].eng, b[j].slope, t[i], i);
    }
  }

  lemma NotPastHigh(c: BrkCreateInfo, i: int)
    requires c.tblEngDelta > 0.0 && i as real <= IHigh(c)
    ensures EngAt(c, i) <= c.engHigh
  {
    var d := c.tblEngDelta;
    assert IHigh(c) * d == c.engHigh - c.tblEngFirst;
    assert (IHigh(c) - i as real) * d == IHigh(c) * d - i as real * d;
    assert (IHigh(c) - i as real) * d >= 0.0;
  }

  lemma NotBeforeLow(c: BrkCreateInfo, i: int)
    requires c.tblEngDelta > 0.0
    ensures i as real < ILow(c) <==> EngAt(c, i) < c.engLow
  {
    var x, d := ILow(c), c.tblEngDelta;
    assert x * d == c.engLow - c.tblEngFirst;
    assert (i as real - x) * d == i as real * d - x * d;
    if i as real < x {
      assert (i as real - x) * d < 0.0;
    } else {
      assert (i as real - x) * d >= 0.0;
    }
  }

  /** The entries a run works with are those whose values lie between the limits, and the last one
      an interval may reach is one further, if there is one. */
  lemma EntriesInRange(s: Setup, i: int)
    requires s.Valid()
    ensures s.First() <= i <==> s.c.engLow <= s.c.tblEngFirst + i as real * s.c.tblEngDelta
    ensures i <= s.High() <==> s.c.tblEngFirst + i as real * s.c.tblEngDelta <= s.c.engHigh
    ensures i <= s.End() <==> i < |s.t| && i <= s.High() + 1
  {
    NotBeforeLow(s.c, i);
    if i <= s.High() {
      NotPastHigh(s.c, i);
    } else {
      PastHigh(s.c, i);
    }
  }

  lemma FinishedCovers(s: Setup, b: seq<BrkInt>, starts: seq<int>, i: int) returns (j: nat)
    requires s.Valid() && s.Emitted(b, starts) && s.c.accuracy > 0.0
    requires starts[|b| - 1] >= |s.t| - 1 || b[|b| - 1].eng > s.c.engHigh
    requires s.First() < i < |s.t| && i <= s.High()
    ensures 0 < i && j + 1 < |b| && starts[j] < i <= starts[j + 1]
    ensures Accurate(s.c, b[j].raw, b[j].eng, b[j].slope, s.t[i], i)
  {
    var e := starts[|b| - 1];
    if e < |s.t| - 1 {
      if |b| > 1 {
        assert OnTable(s.c, s.t, b[|b| - 1], e);
        if e <= s.High() {
          NotPastHigh(s.c, e);
        }
      }
    }
    j := ChainCovers(s.c, s.t, s.End(), b, starts, |b| - 1, i);
  }

  /** A finished table is accurate: every table entry after the first one in range, up to
      engHigh, is within the accuracy of the line of the interval it falls in. */
  lemma FinishedIsAccurate(s: Setup, b: seq<BrkInt>, starts: seq<int>, i: int) returns (j: nat)
    requires s.Valid() && s.Emitted(b, starts) && s.c.accuracy > 0.0
    requires starts[|b| - 1] >= |s.t| - 1 || b[|b| - 1].eng > s.c.engHigh
    requires s.c.engLow <= s.c.tblEngFirst + (i - 1) as real * s.c.tblEngDelta
    requires i < |s.t| && s.c.tblEngFirst + i as real * s.c.tblEngDelta <= s.c.engHigh
    ensures 0 < i && j + 1 < |b| && starts[j] < i <= starts[j + 1]
    ensures Accurate(s.c, b[j].raw, b[j].eng, b[j].slope, s.t[i], i)
  {
    EntriesInRange(s, i - 1);
    EntriesInRange(s, i);
    j := FinishedCovers(s, b, starts, i);
  }

  lemma EntryAtLow(c: BrkCreateInfo, i: int)
    requires c.tblEngDelta > 0.0 && i as real == ILow(c)
    ensures EngAt(c, i) == c.engLow
  {
    var x, d := ILow(c), c.tblEngDelta;
    assert x * d == c.engLow - c.tblEngFirst;
    assert i as real * d == x * d;
  }

  /** Measurements that are in raw units already. */
  ghost predicate Raw(s: Setup) {
    && Sensible(s.c, |s.t|) && s.c.rawLow != s.c.rawHigh && s.slope == 1.0
    && Sealed(Placed, s) && Sealed(Measured, s)
  }

  ghost predicate Placed(s: Setup) {
    s.c.tblEngDelta > 0.0 && s.ilow == ILow(s.c) && s.ihigh == IHigh(s.c) && 0.0 <= s.ilow < s.ihigh
  }

  ghost predicate Measured(s: Setup) {
    && 2 <= |s.t| && StrictlyMonotone(s.t) && 0.0 <= s.ilow && 0.0 <= s.ihigh
    && Interp(s.t, s.ilow) == s.c.rawLow && Interp(s.t, s.ihigh) == s.c.rawHigh
  }

  lemma AlreadyRaw(s: Setup)
    requires Raw(s)
    ensures s.From(s.c, s.t) && s.Valid()
  {
    Unseal(Placed, s);
    Unseal(Measured, s);
    MonotoneInjective(s.t);
    SlopeOne(s.c.rawLow, s.c.rawHigh);
    assert RawTable(s.c.rawLow, s.c.rawHigh, s.t, s.ilow, s.ihigh) == s.t;
  }

  lemma SlopeOne(rawLow: real, rawHigh: real)
    requires rawLow != rawHigh
    ensures SlopeOf(rawLow, rawHigh, rawLow, rawHigh) == 1.0 && OffsetOf(rawLow, rawHigh, rawLow, rawHigh) == 0.0
  {
    var d := rawHigh - rawLow;
    assert d / d == 1.0;
  }

  const UNCHECKED := BrkCreateInfo(0.5, 2.0, 5.0, 11.0, 0.3, 0.0, 3.0, 1.0)
  const UNCHECKED_TABLE: seq<real> := [0.0, 10.0, 11.0, 12.0]

  const UNCHECKED_SETUP := Setup(UNCHECKED, UNCHECKED_TABLE, 0.5, 2.0, 1.0)
  const UNCHECKED_BREAKS := [BrkInt(5.0, 0.25, 0.5), BrkInt(11.0, 0.0, 2.0)]

  /** When engLow falls between entries nothing checks the first entry in range: here the line of
      the first interval misses entry 1 by 0.75 with an accuracy of 0.3. */
  lemma FirstEntryUnchecked()
    ensures UNCHECKED_SETUP.From(UNCHECKED, UNCHECKED_TABLE) && UNCHECKED_SETUP.Valid()
    ensures UNCHECKED_SETUP.Emitted(UNCHECKED_BREAKS, [1, 2])
    ensures Deviation(5.0, 0.5, 0.25, UNCHECKED_TABLE[1], EngAt(UNCHECKED, 1)) == 0.75
  {
    UncheckedEmitted();
    UncheckedMiss();
    UncheckedRaw();
    AlreadyRaw(UNCHECKED_SETUP);
  }

  lemma UncheckedEmitted()
    ensures UNCHECKED_SETUP.Emitted(UNCHECKED_BREAKS, [1, 2])
  {
    UncheckedInterval();
    assert UNCHECKED_SETUP.First() == 1 && UNCHECKED_SETUP.End() == 3 && UNCHECKED_SETUP.High() == 2;
  }

  lemma UncheckedMiss()
    ensures Deviation(5.0, 0.5, 0.25, UNCHECKED_TABLE[1], EngAt(UNCHECKED, 1)) == 0.75
  {
  }

  lemma UncheckedTable()
    ensures Increasing(UNCHECKED_TABLE)
    ensures Interp(UNCHECKED_TABLE, 0.5) == 5.0 && Interp(UNCHECKED_TABLE, 2.0) == 11.0
  {
    assert Cell(0.5, 4) == 0 && Cell(2.0, 4) == 2;
  }

  lemma UncheckedRaw()
    ensures Raw(UNCHECKED_SETUP)
  {
    UncheckedPlaced();
    UncheckedMeasured();
  }

  lemma UncheckedPlaced()
    ensures Sealed(Placed, UNCHECKED_SETUP)
  {
    Unseal(Placed, UNCHECKED_SETUP);
  }

  lemma UncheckedMeasured()
    ensures Sealed(Measured, UNCHECKED_SETUP)
  {
    Unseal(Measured, UNCHECKED_SETUP);
    UncheckedTable();
  }

  lemma UncheckedInterval()
    ensures Interval(UNCHECKED, UNCHECKED_TABLE, 3, BrkInt(5.0, 0.25, 0.5), 1, 2)
  {
    assert LineSlope(5.0, 0.5, 11.0, 2.0) == 0.25;
    UncheckedExtended();
  }

  lemma UncheckedExtended()
    ensures !Fits(UNCHECKED, UNCHECKED_TABLE, 5.0, 0.5, 1, 3)
  {
    var slope := LineSlope(5.0, 0.5, 12.0, 3.0);
    assert slope * 7.0 == 2.5;
    assert Deviation(5.0, 0.5, slope, UNCHECKED_TABLE[2], EngAt(UNCHECKED, 2)) >= 0.3;
  }

  /** How a run can end. With a positive accuracy and a table entry between the limits it
      finishes if there is room for one breakpoint an entry. Without an entry between the
      limits it repeats the first breakpoint until the room is used up, unless the table ends
      there; without a positive accuracy it finishes only if exactly one entry lies between the
      limits, and then with an interval that is not accurate. */
  lemma Outcomes(s: Setup, b: seq<BrkInt>, starts: seq<int>)
    requires s.Valid() && s.First() < |s.t| - 1
    ensures s.Full(b, starts) && s.First() <= s.High() && s.c.accuracy > 0.0 ==>
      |b| <= s.End() - s.First()
    ensures s.Emitted(b, starts) && (starts[|b| - 1] >= |s.t| - 1 || b[|b| - 1].eng > s.c.engHigh) ==>
      s.First() <= s.High()
    ensures s.Emitted(b, starts) && s.c.accuracy <= 0.0 && b[|b| - 1].eng > s.c.engHigh ==>
      s.First() == s.High() && |b| == 2
    ensures s.Emitted(b, starts) && s.c.accuracy <= 0.0 && b[|b| - 1].eng > s.c.engHigh ==>
      Deviation(b[0].raw, b[0].eng, b[0].slope, s.t[s.High() + 1], EngAt(s.c, s.High() + 1)) >= s.c.accuracy
  {
    if s.Full(b, starts) && s.First() <= s.High() && s.c.accuracy > 0.0 {
      ChainAdvances(s.c, s.t, s.End(), b, starts, |b|);
    }
  }

  const STALLING := BrkCreateInfo(0.25, 0.75, 2.5, 7.5, 0.3, 0.0, 3.0, 1.0)

  const STALLING_TABLE: seq<real> := [0.0, 10.0, 20.0, 30.0]

  function Copies(room: nat): seq<BrkInt> {
    seq(room, _ => BrkInt(2.5, 1.0, 0.25))
  }

  const STALLING_SETUP := Setup(STALLING, STALLING_TABLE, 0.25, 0.75, 1.0)

  /** A table with no entry between the limits: whatever the room, it is used up by copies of the
      first breakpoint. */
  lemma StallExample(room: nat)
    ensures STALLING_SETUP.From(STALLING, STALLING_TABLE) && STALLING_SETUP.Valid()
    ensures STALLING_SETUP.High() < STALLING_SETUP.First() < 3
    ensures STALLING_SETUP.Full(Copies(room), seq(room + 1, _ => 1))
  {
    StallFull(room);
    StallingRaw();
    AlreadyRaw(STALLING_SETUP);
  }

  lemma StallingRaw()
    ensures Raw(STALLING_SETUP)
  {
    StallingPlaced();
    StallingMeasured();
  }

  lemma StallingPlaced()
    ensures Sealed(Placed, STALLING_SETUP)
  {
    Unseal(Placed, STALLING_SETUP);
  }

  lemma StallingMeasured()
    ensures Sealed(Measured, STALLING_SETUP)
  {
    Unseal(Measured, STALLING_SETUP);
    StallingTable();
  }

  lemma StallFull(room: nat)
    ensures STALLING_SETUP.High() < STALLING_SETUP.First() < 3
    ensures STALLING_SETUP.Full(Copies(room), seq(room + 1, _ => 1))
  {
    assert STALLING_SETUP.First() == 1 && STALLING_SETUP.High() == 0;
  }

  lemma StallingTable()
    ensures Increasing(STALLING_TABLE)
    ensures Interp(STALLING_TABLE, 0.25) == 2.5 && Interp(STALLING_TABLE, 0.75) == 7.5
  {
    assert Cell(0.25, 4) == 0 && Cell(0.75, 4) == 0;
  }
}
