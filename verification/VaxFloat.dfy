/** Floating point between the VAX formats of the host and the IEEE formats on the wire, on their
    fields. */
module VaxFloats {

  const IEEE_DBL_SB := 1023
  const MIT_DBL_SB := 129
  const DBLEXPMAXMIT := 126
  const DBLEXPMINMIT := -128
  const IEEE_SB := 127
  const MIT_SB := 129
  const EXPMINIEEE := -126
  const EXPMAXMIT := 126

  type bits16 = v: int | 0 <= v < 0x1_0000
  type bits20 = v: int | 0 <= v < 0x10_0000
  type bits32 = v: int | 0 <= v < 0x1_0000_0000

  /** D floating: a fraction of 7 + 16 + 16 + 16 bits. */
  datatype MitDbl = MitDbl(sign: bool, exp: nat, mant1: nat, mant2: bits16, mant3: bits16, mant4: bits16)

  /** Double precision of IEEE 754-2008, section 3.4: a fraction of 20 + 32 bits. */
  datatype IeeeDbl = IeeeDbl(sign: bool, exp: nat, mant1: bits20, mant2: bits32)

  datatype MitFlt = MitFlt(sign: bool, exp: nat, mant1: nat, mant2: bits16)

  datatype IeeeFlt = IeeeFlt(sign: bool, exp: nat, mant: nat)

  predicate MitDblOk(m: MitDbl) {
    m.exp < 0x100 && m.mant1 < 0x80
  }

  predicate IeeeDblOk(i: IeeeDbl) {
    i.exp < 0x800
  }

  predicate MitFltOk(m: MitFlt) {
    m.exp < 0x100 && m.mant1 < 0x80
  }

  predicate IeeeFltOk(i: IeeeFlt) {
    i.exp < 0x100 && i.mant < 0x80_0000
  }

  // ---------------------------------------------------------------- what the fields stand for

  function MitFraction(m: MitDbl): int {
    m.mant1 * 0x1_0000_0000_0000 + m.mant2 * 0x1_0000_0000 + m.mant3 * 0x1_0000 + m.mant4
  }

  function IeeeFraction(i: IeeeDbl): int {
    i.mant1 * 0x1_0000_0000 + i.mant2
  }

  function Pow2(n: int): (r: real)
    ensures r > 0.0
    decreases if n < 0 then -n else n
  {
    if n == 0 then 1.0 else if n > 0 then 2.0 * Pow2(n - 1) else Pow2(n + 1) / 2.0
  }

  function Signed(sign: bool, magnitude: real): real {
    if sign then -magnitude else magnitude
  }

  /** The number a field triple denotes: a leading one that is not stored, a fraction of so many
      bits, and an exponent with a bias. */
  function Denoted(sign: bool, exp: int, bias: int, fraction: int, one: int): real
    requires one > 0
  {
    Signed(sign, (one + fraction) as real / one as real * Pow2(exp - bias))
  }

  function MitDblValue(m: MitDbl): real {
    Denoted(m.sign, m.exp, MIT_DBL_SB, MitFraction(m), 0x80_0000_0000_0000)
  }

  function IeeeDblValue(i: IeeeDbl): real {
    Denoted(i.sign, i.exp, IEEE_DBL_SB, IeeeFraction(i), 0x10_0000_0000_0000)
  }

  function MitFltValue(m: MitFlt): real {
    Denoted(m.sign, m.exp, MIT_SB, m.mant1 * 0x1_0000 + m.mant2, 0x80_0000)
  }

  function IeeeFltValue(i: IeeeFlt): real {
    Denoted(i.sign, i.exp, IEEE_SB, i.mant, 0x80_0000)
  }

  const MIT_DBL_ZERO := MitDbl(false, 0, 0, 0, 0, 0)
  const IEEE_DBL_ZERO := IeeeDbl(false, 0, 0, 0)

  /** A host double with the three low bits of its fraction cleared. */
  function Cleared(m: MitDbl): MitDbl {
    m.(mant4 := m.mant4 / 8 * 8)
  }

  /** A number in base 2 to the 16 has one way of being written. */
  lemma Digits(f: int, d1: int, d2: int, d3: int, d4: int)
    requires 0 <= d1 && 0 <= d2 < 0x1_0000 && 0 <= d3 < 0x1_0000 && 0 <= d4 < 0x1_0000
    requires f == d1 * 0x1_0000_0000_0000 + d2 * 0x1_0000_0000 + d3 * 0x1_0000 + d4
    ensures f / 0x1_0000_0000_0000 == d1 && f / 0x1_0000_0000 % 0x1_0000 == d2
    ensures f / 0x1_0000 % 0x1_0000 == d3 && f % 0x1_0000 == d4
  {
    var g := d1 * 0x1_0000_0000 + d2 * 0x1_0000 + d3;
    var h := d1 * 0x1_0000 + d2;
    assert f == g * 0x1_0000 + d4 && f / 0x1_0000 == g;
    assert f == h * 0x1_0000_0000 + (d3 * 0x1_0000 + d4) && f / 0x1_0000_0000 == h;
  }

  /** The fields the host gets from the two words of the wire are the digits of its fraction. */
  lemma FieldsOfWords(a: bits20, b: bits32)
    ensures var (d1, d2) := (a / 0x2000, a * 8 % 0x1_0000 + b / 0x2000_0000);
            var (d3, d4) := (b / 0x2000 % 0x1_0000, b * 8 % 0x1_0000);
            && 0 <= d1 < 0x80 && 0 <= d2 < 0x1_0000 && 0 <= d3 < 0x1_0000 && 0 <= d4 < 0x1_0000
            && (a * 0x1_0000_0000 + b) * 8 == d1 * 0x1_0000_0000_0000 + d2 * 0x1_0000_0000 + d3 * 0x1_0000 + d4
  {
    Shifted(a, 0x2000);
    Shifted(b, 0x2000);
    var c := b / 0x2000;
    assert c / 0x1_0000 == b / 0x2000_0000;
    assert c == c / 0x1_0000 * 0x1_0000 + c % 0x1_0000;
  }

  lemma Shifted(x: int, n: int)
    requires 0 <= x && n == 0x2000
    ensures x * 8 % 0x1_0000 == x % n * 8 && x == x / n * n + x % n
  {
    var q, r := x / n, x % n;
    assert x * 8 == q * 0x1_0000 + r * 8;
  }

  // ---------------------------------------------------------------- double precision

  method Htond(m: MitDbl) returns (i: IeeeDbl)
    requires MitDblOk(m)
    ensures IeeeDblOk(i) && i == ToIeeeDbl(m)
    ensures m.exp == 0 ==> i == IeeeDbl(false, 0, 0, 0)
    ensures m.exp > 0 ==> i.sign == m.sign && IeeeDblValue(i) == MitDblValue(m.(mant4 := m.mant4 / 8 * 8))
  {
    if m.exp > 0 {
      DoubleValue(m);
    }
    if m.exp < DBLEXPMINMIT + MIT_DBL_SB {
      i := IeeeDbl(false, 0, 0, 0);
    } else {
      i := IeeeDbl(m.sign, m.exp + (IEEE_DBL_SB - MIT_DBL_SB), m.mant1 * 0x2000 + m.mant2 / 8,
                   m.mant2 % 8 * 0x2000_0000 + m.mant3 * 0x2000 + m.mant4 / 8);
    }
  }

  method Ntohd(i: IeeeDbl) returns (m: MitDbl)
    requires IeeeDblOk(i)
    ensures MitDblOk(m) && m == ToMitDbl(i)
    ensures i.exp > 1149 ==> m == MitDbl(i.sign, 255, 0x7f, 0xffff, 0xffff, 0xffff)
    ensures i.exp < 895 ==> m == MitDbl(false, 0, 0, 0, 0, 0)
    ensures 895 <= i.exp <= 1149 ==> m.sign == i.sign && MitDblValue(m) == IeeeDblValue(i)
  {
    if 895 <= i.exp <= 1149 {
      HostValue(i);
    }
    if i.exp > DBLEXPMAXMIT + IEEE_DBL_SB {
      m := MitDbl(i.sign, DBLEXPMAXMIT + MIT_DBL_SB, 0x7f, 0xffff, 0xffff, 0xffff);
    } else if i.exp < DBLEXPMINMIT + IEEE_DBL_SB {
      m := MitDbl(false, 0, 0, 0, 0, 0);
    } else {
      FieldsOfWords(i.mant1, i.mant2);
      Digits(IeeeFraction(i) * 8, i.mant1 / 0x2000, i.mant1 * 8 % 0x1_0000 + i.mant2 / 0x2000_0000,
             i.mant2 / 0x2000 % 0x1_0000, i.mant2 * 8 % 0x1_0000);
      m := MitDbl(i.sign, i.exp + (MIT_DBL_SB - IEEE_DBL_SB), i.mant1 / 0x2000,
                  i.mant1 * 8 % 0x1_0000 + i.mant2 / 0x2000_0000, i.mant2 / 0x2000 % 0x1_0000, i.mant2 * 8 % 0x1_0000);
    }
  }

  /** The double on the wire: the same exponent and the fraction without its three low bits, or
      zero if the host exponent is zero. */
  function ToIeeeDbl(m: MitDbl): (i: IeeeDbl)
    requires MitDblOk(m)
    ensures IeeeDblOk(i)
  {
    if m.exp == 0 then IEEE_DBL_ZERO
    else
      var f := MitFraction(m) / 8;
      IeeeDbl(m.sign, m.exp + 894, f / 0x1_0000_0000, f % 0x1_0000_0000)
  }

  /** The double in the host: the same exponent and fraction, the largest number if the exponent
      is too large, zero if it is too small. */
  function ToMitDbl(i: IeeeDbl): (m: MitDbl)
    requires IeeeDblOk(i)
    ensures MitDblOk(m)
  {
    if i.exp > 1149 then MitDbl(i.sign, 255, 0x7f, 0xffff, 0xffff, 0xffff)
    else if i.exp < 895 then MIT_DBL_ZERO
    else
      var f := IeeeFraction(i) * 8;
      MitDbl(i.sign, i.exp - 894,
             f / 0x1_0000_0000_0000, f / 0x1_0000_0000 % 0x1_0000, f / 0x1_0000 % 0x1_0000, f % 0x1_0000)
  }

  /** In range the value loses the three low bits of the fraction and nothing else. */
  lemma DoubleValue(m: MitDbl)
    requires MitDblOk(m) && m.exp > 0
    ensures IeeeDblValue(ToIeeeDbl(m)) == MitDblValue(Cleared(m))
  {
    var i := ToIeeeDbl(m);
    WireFraction(m);
    ClearedFraction(m);
    SameDenoted(m.sign, i.exp, IEEE_DBL_SB, IeeeFraction(i), 0x10_0000_0000_0000, m.exp, MIT_DBL_SB, 8);
  }

  /** A fraction and its unit may be scaled together. */
  lemma SameDenoted(sign: bool, exp: int, bias: int, fraction: int, one: int, exp2: int, bias2: int, k: int)
    requires one > 0 && k > 0 && exp - bias == exp2 - bias2
    ensures one * k > 0 && Denoted(sign, exp, bias, fraction, one) == Denoted(sign, exp2, bias2, fraction * k, one * k)
  {
    var x, y, z := (one + fraction) as real, one as real, k as real;
    assert one * k + fraction * k == (one + fraction) * k;
    assert (one * k + fraction * k) as real == x * z && (one * k) as real == y * z;
    assert x / y == (x * z) / (y * z);
  }

  lemma SameExponent(sign: bool, exp: int, bias: int, exp2: int, bias2: int, fraction: int, one: int)
    requires one > 0 && exp - bias == exp2 - bias2
    ensures Denoted(sign, exp, bias, fraction, one) == Denoted(sign, exp2, bias2, fraction, one)
  {
  }

  /** A fraction is put together again from its digits. */
  lemma Recombined(f: int)
    requires 0 <= f
    ensures f == f / 0x1_0000_0000_0000 * 0x1_0000_0000_0000 + f / 0x1_0000_0000 % 0x1_0000 * 0x1_0000_0000
      + f / 0x1_0000 % 0x1_0000 * 0x1_0000 + f % 0x1_0000
  {
    var g := f / 0x1_0000;
    var h := g / 0x1_0000;
    assert h == f / 0x1_0000_0000 && h / 0x1_0000 == f / 0x1_0000_0000_0000;
    assert f == g * 0x1_0000 + f % 0x1_0000 && g == h * 0x1_0000 + g % 0x1_0000;
  }

  lemma ClearedFraction(m: MitDbl)
    ensures MitFraction(Cleared(m)) == MitFraction(m) / 8 * 8
  {
    var high := m.mant1 * 0x2000_0000_0000 + m.mant2 * 0x2000_0000 + m.mant3 * 0x2000;
    assert MitFraction(m) == high * 8 + m.mant4;
    assert MitFraction(m) / 8 == high + m.mant4 / 8;
  }

  lemma WireFraction(m: MitDbl)
    requires MitDblOk(m) && m.exp > 0
    ensures IeeeFraction(ToIeeeDbl(m)) == MitFraction(m) / 8
  {
    var f := MitFraction(m) / 8;
    assert f == f / 0x1_0000_0000 * 0x1_0000_0000 + f % 0x1_0000_0000;
  }

  lemma HostFraction(i: IeeeDbl)
    requires IeeeDblOk(i) && 895 <= i.exp <= 1149
    ensures MitFraction(ToMitDbl(i)) == IeeeFraction(i) * 8
  {
    var f := IeeeFraction(i) * 8;
    Recombined(f);
  }

  /** From the wire to the host the value is kept exactly, in range. */
  lemma HostValue(i: IeeeDbl)
    requires IeeeDblOk(i) && 895 <= i.exp <= 1149
    ensures MitDblValue(ToMitDbl(i)) == IeeeDblValue(i)
  {
    var m := ToMitDbl(i);
    HostFraction(i);
    SameDenoted(i.sign, i.exp, IEEE_DBL_SB, IeeeFraction(i), 0x10_0000_0000_0000, m.exp, MIT_DBL_SB, 8);
  }

  /** From the wire to the host and back is the identity exactly on the numbers in range and on
      zero. */
  lemma NetHostNet(i: IeeeDbl)
    requires IeeeDblOk(i)
    ensures ToIeeeDbl(ToMitDbl(i)) == i <==>
      895 <= i.exp <= 1149 || i == IEEE_DBL_ZERO
  {
    var m := ToMitDbl(i);
    if 895 <= i.exp <= 1149 {
      HostFraction(i);
      WireFraction(m);
    }
  }

  /** From the host to the wire and back clears the three low bits. */
  lemma HostNetHost(m: MitDbl)
    requires MitDblOk(m)
    ensures ToMitDbl(ToIeeeDbl(m)) == if m.exp > 0 then Cleared(m) else MIT_DBL_ZERO
  {
    if m.exp > 0 {
      var c := Cleared(m);
      WireFraction(m);
      ClearedFraction(m);
      Digits(MitFraction(c), c.mant1, c.mant2, c.mant3, c.mant4);
    }
  }

  // ---------------------------------------------------------------- single precision

  method Htonf(m: MitFlt) returns (i: IeeeFlt)
    requires MitFltOk(m)
    ensures IeeeFltOk(i) && i == ToIeeeFlt(m)
    ensures m.exp >= 3 ==> i.sign == m.sign && IeeeFltValue(i) == MitFltValue(m)
    ensures m.exp < 3 ==> i == IeeeFlt(false, 0, 0)
  {
    SingleValue(m, IeeeFlt(false, 0, 0));
    if m.exp < EXPMINIEEE + MIT_SB {
      i := IeeeFlt(false, 0, 0);
    } else {
      i := IeeeFlt(m.sign, m.exp - MIT_SB + IEEE_SB, m.mant1 * 0x1_0000 + m.mant2);
    }
  }

  method Ntohf(i: IeeeFlt) returns (m: MitFlt)
    requires IeeeFltOk(i)
    ensures MitFltOk(m) && m == ToMitFlt(i)
    ensures 1 <= i.exp <= 253 ==> m.sign == i.sign && MitFltValue(m) == IeeeFltValue(i)
    ensures i.exp > 253 ==> m == MitFlt(i.sign, 255, 0x7f, 0xffff)
    ensures i.exp == 0 ==> m == MitFlt(false, 0, 0, 0)
  {
    SingleValue(MitFlt(false, 0, 0, 0), i);
    if i.exp > EXPMAXMIT + IEEE_SB {
      m := MitFlt(i.sign, EXPMAXMIT + MIT_SB, 0x7f, 0xffff);
    } else if i.exp == 0 {
      m := MitFlt(false, 0, 0, 0);
    } else {
      m := MitFlt(i.sign, i.exp + MIT_SB - IEEE_SB, i.mant / 0x1_0000, i.mant % 0x1_0000);
    }
  }

  function ToIeeeFlt(m: MitFlt): (i: IeeeFlt)
    requires MitFltOk(m)
    ensures IeeeFltOk(i)
  {
    if m.exp < 3 then IeeeFlt(false, 0, 0) else IeeeFlt(m.sign, m.exp - 2, m.mant1 * 0x1_0000 + m.mant2)
  }

  function ToMitFlt(i: IeeeFlt): (m: MitFlt)
    requires IeeeFltOk(i)
    ensures MitFltOk(m)
  {
    if i.exp > 253 then MitFlt(i.sign, 255, 0x7f, 0xffff)
    else if i.exp == 0 then MitFlt(false, 0, 0, 0)
    else MitFlt(i.sign, i.exp + 2, i.mant / 0x1_0000, i.mant % 0x1_0000)
  }

  lemma HostMantissa(mant1: int, mant2: bits16)
    ensures (mant1 * 0x1_0000 + mant2) / 0x1_0000 == mant1 && (mant1 * 0x1_0000 + mant2) % 0x1_0000 == mant2
  {
  }

  /** Single precision keeps every bit in range, both ways. */
  lemma SingleValue(m: MitFlt, i: IeeeFlt)
    requires MitFltOk(m) && IeeeFltOk(i)
    ensures m.exp >= 3 ==> IeeeFltValue(ToIeeeFlt(m)) == MitFltValue(m)
    ensures 1 <= i.exp <= 253 ==> MitFltValue(ToMitFlt(i)) == IeeeFltValue(i)
  {
    SameExponent(m.sign, m.exp - 2, IEEE_SB, m.exp, MIT_SB, m.mant1 * 0x1_0000 + m.mant2, 0x80_0000);
    SameExponent(i.sign, i.exp + 2, MIT_SB, i.exp, IEEE_SB, i.mant, 0x80_0000);
    assert i.mant / 0x1_0000 * 0x1_0000 + i.mant % 0x1_0000 == i.mant;
  }

  lemma SingleRoundTrip(m: MitFlt, i: IeeeFlt)
    requires MitFltOk(m) && IeeeFltOk(i)
    ensures ToMitFlt(ToIeeeFlt(m)) == m <==> m.exp >= 3 || m == MitFlt(false, 0, 0, 0)
    ensures ToIeeeFlt(ToMitFlt(i)) == i <==> 1 <= i.exp <= 253 || i == IeeeFlt(false, 0, 0)
  {
    HostMantissa(m.mant1, m.mant2);
  }
}
