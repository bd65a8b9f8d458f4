/** Checking that a vector has unit length without floating-point arithmetic.

    A binary32 value (section 3.4 of IEEE 754-2019) is an integer times 2^-149, so the
    exact squared norm is an integer times 2^-298. The check works on values cut to
    48 fractional bits, in 128-bit integers. */
module Norm {

  import opened Wrappers

  /** The bits of a binary32 value. */
  type Bits = b: int | 0 <= b < 0x1_0000_0000

  const SIGN := 0x8000_0000
  const IMPLICIT := 0x80_0000

  function Exponent(b: Bits): nat { (b % SIGN) / IMPLICIT }

  function Fraction(b: Bits): nat { (b % SIGN) % IMPLICIT }

  function Mantissa(b: Bits): (m: nat)
    ensures m < 2 * IMPLICIT
  {
    if Exponent(b) == 0 then Fraction(b) else IMPLICIT + Fraction(b)
  }

  function ShiftLeft(m: nat, k: nat): nat { if k == 0 then m else 2 * ShiftLeft(m, k - 1) }

  function ShiftRight(m: nat, k: nat): nat { if k == 0 then m else ShiftRight(m, k - 1) / 2 }

  /** The magnitude, exactly, in units of 2^-149. */
  function Magnitude(b: Bits): nat {
    if Exponent(b) == 0 then Fraction(b) else ShiftLeft(Mantissa(b), Exponent(b) - 1)
  }

  /** The squared norm, exactly, in units of 2^-298. */
  function ExactSquare(v: seq<Bits>): nat
    decreases |v|
  {
    if v == [] then 0 else ExactSquare(v[..|v| - 1]) + Magnitude(v[|v| - 1]) * Magnitude(v[|v| - 1])
  }

  // --------------------------------------------------------------- fixed point

  /** The exponent at which a mantissa needs no shift to have 48 fractional bits. */
  const LEVEL := 102

  /** The value cut to 48 fractional bits, by one shift left or right. */
  function Fixed(b: Bits): nat {
    if Exponent(b) >= LEVEL then ShiftLeft(Mantissa(b), Exponent(b) - LEVEL)
    else ShiftRight(Mantissa(b), LEVEL - Exponent(b))
  }

  /** One part in 2^48 is 2^101 of the exact units; its square is 2^202. */
  const CUT := 0x20_0000_0000_0000_0000_0000_0000
  const CUT_SQUARED := 0x400_0000_0000_0000_0000_0000_0000_0000_0000_0000_0000_0000_0000

  lemma {:induction false} ShiftTwice(m: nat, a: nat, b: nat)
    ensures ShiftLeft(m, a + b) == ShiftLeft(ShiftLeft(m, a), b)
  {
    if b > 0 { ShiftTwice(m, a, b - 1); }
  }

  lemma {:induction false} ShiftIsTimes(m: nat, k: nat)
    ensures ShiftLeft(m, k) == m * ShiftLeft(1, k)
  {
    if k > 0 {
      ShiftIsTimes(m, k - 1);
      var p := ShiftLeft(1, k - 1);
      assert 2 * (m * p) == m * (2 * p);
    }
  }

  lemma {:induction false} ShiftByFive(m: nat)
    ensures ShiftLeft(m, 5) == 32 * m
  {
    assert ShiftLeft(m, 1) == 2 * m;
    assert ShiftLeft(m, 2) == 4 * m;
    assert ShiftLeft(m, 3) == 8 * m;
    assert ShiftLeft(m, 4) == 16 * m;
  }

  lemma {:induction false} ShiftBy25(m: nat)
    ensures ShiftLeft(m, 25) == 0x200_0000 * m
  {
    ShiftByFive(m);
    ShiftTwice(m, 5, 5);
    ShiftByFive(32 * m);
    ShiftTwice(m, 10, 5);
    ShiftByFive(1024 * m);
    ShiftTwice(m, 15, 5);
    ShiftByFive(0x8000 * m);
    ShiftTwice(m, 20, 5);
    ShiftByFive(0x10_0000 * m);
  }

  lemma {:induction false} ShiftByCut(m: nat)
    ensures ShiftLeft(m, 101) == CUT * m
  {
    ShiftBy25(m);
    ShiftTwice(m, 25, 25);
    ShiftBy25(0x200_0000 * m);
    ShiftTwice(m, 50, 25);
    ShiftBy25(0x4_0000_0000_0000 * m);
    ShiftTwice(m, 75, 25);
    ShiftBy25(0x800_0000_0000_0000_0000 * m);
    assert ShiftLeft(m, 101) == 2 * ShiftLeft(m, 100);
  }

  lemma {:induction false} ShiftsCancel(m: nat, a: nat, b: nat)
    ensures ShiftRight(ShiftLeft(m, a), b) == if a >= b then ShiftLeft(m, a - b) else ShiftRight(m, b - a)
    decreases b
  {
    if b > 0 {
      ShiftsCancel(m, a, b - 1);
    }
  }

  lemma {:induction false} ShiftGrows(m: nat, n: nat, a: nat, b: nat)
    requires m <= n && a <= b
    ensures ShiftLeft(m, a) <= ShiftLeft(n, b)
    decreases b
  {
    if a == b {
      if b > 0 { ShiftGrows(m, n, a - 1, b - 1); }
    } else {
      ShiftGrows(m, n, a, b - 1);
    }
  }

  lemma {:induction false} ShiftShrinks(m: nat, k: nat)
    ensures ShiftRight(m, k) <= m
  {
    if k > 0 { ShiftShrinks(m, k - 1); }
  }

  lemma {:induction false} SmallShiftsOut(m: nat, n: nat, k: nat)
    requires m < ShiftLeft(1, n) && n <= k
    ensures ShiftRight(m, k) == 0
    decreases k
  {
    if k == n {
      ShiftBelow(m, n, n);
    } else {
      SmallShiftsOut(m, n, k - 1);
    }
  }

  lemma {:induction false} ShiftBelow(m: nat, n: nat, k: nat)
    requires m < ShiftLeft(1, n) && k <= n
    ensures ShiftRight(m, k) < ShiftLeft(1, n - k)
  {
    if k > 0 { ShiftBelow(m, n, k - 1); }
  }

  /** Fixed point is the exact magnitude shifted down 101 places, for every exponent;
      subnormal values come to nothing. */
  lemma {:induction false} FixedCuts(b: Bits)
    ensures Fixed(b) == ShiftRight(Magnitude(b), 101)
    ensures Exponent(b) == 0 ==> Fixed(b) == 0
  {
    if Exponent(b) == 0 {
      ShiftBy25(1);
      SmallShiftsOut(Mantissa(b), 25, LEVEL);
      SmallShiftsOut(Mantissa(b), 25, 101);
    } else {
      ShiftsCancel(Mantissa(b), Exponent(b) - 1, 101);
    }
  }

  lemma {:induction false} FixedSmall(b: Bits)
    requires Exponent(b) < 128
    ensures Fixed(b) < 0x2_0000_0000_0000
  {
    if Exponent(b) >= LEVEL {
      ShiftGrows(Mantissa(b), 2 * IMPLICIT - 1, Exponent(b) - LEVEL, 25);
      ShiftBy25(2 * IMPLICIT - 1);
    } else {
      ShiftShrinks(Mantissa(b), LEVEL - Exponent(b));
    }
  }

  /** What a shift right leaves and what it drops. */
  lemma {:induction false} ShiftDivides(x: nat, k: nat) returns (r: nat)
    ensures r < ShiftLeft(1, k) && x == ShiftRight(x, k) * ShiftLeft(1, k) + r
  {
    if k == 0 {
      r := 0;
    } else {
      var s := ShiftDivides(x, k - 1);
      var q, p := ShiftRight(x, k - 1), ShiftLeft(1, k - 1);
      r := s + (q % 2) * p;
      Halve(x, q, p, s);
    }
  }

  lemma {:induction false} Halve(x: nat, q: nat, p: nat, s: nat)
    requires x == q * p + s && s < p
    ensures s + (q % 2) * p < 2 * p && x == (q / 2) * (2 * p) + (s + (q % 2) * p)
  {
    var h, o := q / 2, q % 2;
    assert q == 2 * h + o;
    assert (2 * h + o) * p == h * (2 * p) + o * p;
  }

  lemma {:induction false} Quotient(x: nat, q: nat, r: nat)
    requires x == q * CUT + r && r < CUT
    ensures x / CUT == q
  {
  }

  lemma {:induction false} CutIsDivision(x: nat)
    ensures ShiftRight(x, 101) == x / CUT
  {
    var r := ShiftDivides(x, 101);
    ShiftByCut(1);
    Quotient(x, ShiftRight(x, 101), r);
  }

  ghost predicate Small(v: seq<Bits>) {
    forall i | 0 <= i < |v| :: Exponent(v[i]) < 128
  }

  function FixedSquare(v: seq<Bits>): nat
    decreases |v|
  {
    if v == [] then 0 else FixedSquare(v[..|v| - 1]) + Fixed(v[|v| - 1]) * Fixed(v[|v| - 1])
  }

  lemma {:induction false} Expand(f: nat, d: nat, r: nat)
    ensures (f * d + r) * (f * d + r) == f * f * (d * d) + r * (2 * (f * d) + r)
  {
    var y := f * d;
    assert (y + r) * (y + r) == y * y + r * (2 * y + r);
    assert y * y == f * f * (d * d);
  }

  lemma {:induction false} Remainder(f: nat, d: nat, r: nat, cap: nat)
    requires r < d && 2 * f + 1 <= cap
    ensures r * (2 * (f * d) + r) < cap * (d * d)
  {
    var y := f * d;
    assert 2 * y + r < 2 * y + d;
    assert r * (2 * y + r) <= r * (2 * y + d);
    assert r * (2 * y + d) < d * (2 * y + d);
    assert d * (2 * y + d) == (2 * f + 1) * (d * d) by {
      assert d * (2 * y) == 2 * f * (d * d);
    }
    assert (2 * f + 1) * (d * d) <= cap * (d * d);
  }

  lemma {:induction false} CutSquare(x: nat, f: nat, d: nat, cap: nat)
    requires d > 0 && f == x / d && 2 * f + 1 <= cap
    ensures f * f * (d * d) <= x * x < f * f * (d * d) + cap * (d * d)
  {
    var r := x % d;
    assert x == f * d + r;
    Expand(f, d, r);
    Remainder(f, d, r, cap);
  }

  lemma {:induction false} FixedDivides(b: Bits)
    ensures Fixed(b) == Magnitude(b) / CUT
  {
    FixedCuts(b);
    CutIsDivision(Magnitude(b));
  }

  /** Cutting one value loses less than one part in 2^46 of its square's unit. */
  lemma {:induction false} OneSquare(b: Bits)
    requires Exponent(b) < 128
    ensures var x, f := Magnitude(b), Fixed(b);
            f * f * CUT_SQUARED <= x * x < f * f * CUT_SQUARED + 0x4_0000_0000_0000 * CUT_SQUARED
  {
    FixedDivides(b);
    FixedSmall(b);
    CutSquare(Magnitude(b), Fixed(b), CUT, 0x4_0000_0000_0000);
  }

  /** The cut squares fall short of the exact ones by less than `n` parts in 2^46. */
  lemma {:induction false} SquaresClose(v: seq<Bits>)
    requires Small(v)
    ensures FixedSquare(v) * CUT_SQUARED <= ExactSquare(v) <= FixedSquare(v) * CUT_SQUARED + |v| * (0x4_0000_0000_0000 * CUT_SQUARED)
    decreases |v|
  {
    if v != [] {
      SquaresClose(v[..|v| - 1]);
      OneSquare(v[|v| - 1]);
    }
  }

  // ------------------------------------------------------------------ the bound

  const DENOMINATOR := 1_000_000
  const LOWER := 998_001
  const UPPER := 1_002_001

  /** The square of one, in fixed point (2^96) and in exact units (2^298). */
  const Q_SQUARED := 0x1_0000_0000_0000_0000_0000_0000
  const ONE := 0x400_0000_0000_0000_0000_0000_0000_0000_0000_0000_0000_0000_0000_0000_0000_0000_0000_0000_0000

  /** Two to the minus forty-fifth of the square of one, in exact units (2^253). */
  const MARGIN := 0x2000_0000_0000_0000_0000_0000_0000_0000_0000_0000_0000_0000_0000_0000_0000_0000

  ghost predicate Accepts(v: seq<Bits>) {
    Small(v) && LOWER * Q_SQUARED <= FixedSquare(v) * DENOMINATOR <= UPPER * Q_SQUARED
  }

  /** What is accepted has a squared norm of at least 0.998001 and below 1.002001 and a
      45-bit margin per component. */
  lemma {:induction false} AcceptanceIsSound(v: seq<Bits>)
    requires Accepts(v) && v != []
    ensures LOWER * ONE <= DENOMINATOR * ExactSquare(v) < UPPER * ONE + |v| * (DENOMINATOR * MARGIN)
  {
    SquaresClose(v);
  }

  /** What lies that far inside the bounds is accepted. */
  lemma {:induction false} AcceptanceIsComplete(v: seq<Bits>)
    requires LOWER * ONE + |v| * (DENOMINATOR * MARGIN) <= DENOMINATOR * ExactSquare(v) <= UPPER * ONE
    ensures Accepts(v)
  {
    LargeIsOut(v);
    SquaresClose(v);
  }

  lemma {:induction false} Squared(x: nat, y: nat)
    requires x >= y
    ensures x * x >= y * y
  {
    assert x * x >= x * y;
    assert x * y >= y * y;
  }

  /** A component of magnitude two or more alone puts the vector out of bounds. */
  lemma {:induction false} LargeIsOut(v: seq<Bits>)
    requires DENOMINATOR * ExactSquare(v) <= UPPER * ONE
    ensures Small(v)
    decreases |v|
  {
    if v != [] {
      var last := v[|v| - 1];
      LargeIsOut(v[..|v| - 1]);
      LargeSquare(last);
    }
  }

  lemma {:induction false} LargeSquare(b: Bits)
    ensures Exponent(b) >= 128 ==> Magnitude(b) * Magnitude(b) >= 4 * ONE
  {
    if Exponent(b) >= 128 {
      ShiftGrows(IMPLICIT, Mantissa(b), 127, Exponent(b) - 1);
      ShiftByCut(IMPLICIT);
      ShiftTwice(IMPLICIT, 101, 25);
      ShiftBy25(CUT * IMPLICIT);
      assert ShiftLeft(IMPLICIT, 127) == 2 * ShiftLeft(IMPLICIT, 126);
      assert ShiftLeft(IMPLICIT, 127) == 0x40_0000_0000_0000_0000_0000_0000_0000_0000_0000;
      Squared(Magnitude(b), 0x40_0000_0000_0000_0000_0000_0000_0000_0000_0000);
      assert 0x40_0000_0000_0000_0000_0000_0000_0000_0000_0000 * 0x40_0000_0000_0000_0000_0000_0000_0000_0000_0000 == 4 * ONE;
    }
  }

  // ------------------------------------------------------------------ the method

  const U128 := 0x1_0000_0000_0000_0000_0000_0000_0000_0000

  /** `dims` is a 16-bit count, so a vector has fewer than 65536 components. */
  const WIDEST := 0xFFFF

  lemma {:induction false} SumFits(v: seq<Bits>)
    requires Small(v)
    ensures FixedSquare(v) <= |v| * 0x4_0000_0000_0000_0000_0000_0000
    decreases |v|
  {
    if v != [] {
      SumFits(v[..|v| - 1]);
      FixedSmall(v[|v| - 1]);
      Squared(0x2_0000_0000_0000, Fixed(v[|v| - 1]));
    }
  }

  /** Every checked step: no square and no sum ever overflows, and a product that
      overflows belongs to a sum already too large. */
  method HasNormalizedNorm(v: seq<Bits>) returns (normal: bool)
    requires |v| <= WIDEST
    ensures normal <==> Accepts(v)
  {
    var squaredNorm := 0;
    for i := 0 to |v|
      invariant Small(v[..i]) && squaredNorm == FixedSquare(v[..i])
    {
      if Exponent(v[i]) >= 128 {
        return false;
      }
      var fixed := Fixed(v[i]);
      FixedSmall(v[i]);
      Squared(0x2_0000_0000_0000, fixed);
      var square := fixed * fixed;
      if square >= U128 {
        return false;
      }
      assert v[..i + 1][..i] == v[..i];
      SumFits(v[..i + 1]);
      if squaredNorm + square >= U128 {
        return false;
      }
      squaredNorm := squaredNorm + square;
    }
    assert v[..|v|] == v;
    if squaredNorm * DENOMINATOR >= U128 {
      return false;
    }
    normal := LOWER * Q_SQUARED <= squaredNorm * DENOMINATOR <= UPPER * Q_SQUARED;
  }

  // ------------------------------------------------------------ a provider's batch

  datatype BatchError = WrongCount | WrongDims | ZeroVector | OutsideTolerance

  /** Both zeros have every bit but the sign clear. */
  predicate Zero(v: seq<Bits>) {
    forall i :: 0 <= i < |v| ==> v[i] % SIGN == 0
  }

  ghost function Fault(v: seq<Bits>, normalized: bool): Option<BatchError> {
    if Zero(v) then Some(ZeroVector)
    else if normalized && !Accepts(v) then Some(OutsideTolerance)
    else None
  }

  ghost predicate FirstFault(vectors: seq<seq<Bits>>, normalized: bool, i: nat) {
    i < |vectors| && Fault(vectors[i], normalized) != None &&
    forall j :: 0 <= j < i ==> Fault(vectors[j], normalized) == None
  }

  /** A batch passes exactly when it has one vector per input, each of the declared width,
      none zero, and each of unit length where that is declared; otherwise the count is
      reported before the widths, and the widths before the first vector at fault. */
  method ValidateBatch(dims: nat, normalized: bool, inputs: nat, vectors: seq<seq<Bits>>)
    returns (fault: Option<BatchError>)
    requires forall i :: 0 <= i < |vectors| ==> 0 < |vectors[i]| <= WIDEST
    ensures fault == None <==>
      (|vectors| == inputs &&
       forall i :: 0 <= i < |vectors| ==> |vectors[i]| == dims && Fault(vectors[i], normalized) == None)
    ensures fault == Some(WrongCount) <==> |vectors| != inputs
    ensures fault == Some(WrongDims) ==> exists i :: 0 <= i < |vectors| && |vectors[i]| != dims
    ensures fault in {Some(ZeroVector), Some(OutsideTolerance)} ==>
      (forall i :: 0 <= i < |vectors| ==> |vectors[i]| == dims) &&
      exists i: nat :: FirstFault(vectors, normalized, i) && fault == Fault(vectors[i], normalized)
  {
    if |vectors| != inputs {
      return Some(WrongCount);
    }
    if exists i :: 0 <= i < |vectors| && |vectors[i]| != dims {
      return Some(WrongDims);
    }
    for i := 0 to |vectors|
      invariant forall j :: 0 <= j < i ==> Fault(vectors[j], normalized) == None
    {
      if Zero(vectors[i]) {
        assert FirstFault(vectors, normalized, i);
        return Some(ZeroVector);
      }
      if normalized {
        var unit := HasNormalizedNorm(vectors[i]);
        if !unit {
          assert FirstFault(vectors, normalized, i);
          return Some(OutsideTolerance);
        }
      }
    }
    return None;
  }

  /** A zero vector never has unit length. */
  lemma {:induction false} ZeroIsNotUnit(v: seq<Bits>)
    requires Zero(v)
    ensures FixedSquare(v) == 0 && !Accepts(v)
    decreases |v|
  {
    if v != [] {
      assert Zero(v[..|v| - 1]);
      ZeroIsNotUnit(v[..|v| - 1]);
      assert v[|v| - 1] % SIGN == 0;
      FixedCuts(v[|v| - 1]);
    }
  }

  // ------------------------------------------------------------- storing vectors

  datatype VectorError = Empty | TooWide | NotFinite | WrongLength

  /** Infinities and NaNs have every exponent bit set. */
  predicate Finite(b: Bits) { Exponent(b) != 0xFF }

  function MakeVector(values: seq<Bits>): Result<seq<Bits>, VectorError> {
    if values == [] then Err(Empty)
    else if |values| > WIDEST then Err(TooWide)
    else if exists i :: 0 <= i < |values| && !Finite(values[i]) then Err(NotFinite)
    else Ok(values)
  }

  type Byte = b: int | 0 <= b < 0x100

  function ScalarBytes(b: Bits): seq<Byte> {
    [b % 0x100, b / 0x100 % 0x100, b / 0x1_0000 % 0x100, b / 0x100_0000]
  }

  function ScalarOf(bytes: seq<Byte>): Bits
    requires |bytes| == 4
  {
    (bytes[0] as int) + 0x100 * (bytes[1] as int) + 0x1_0000 * (bytes[2] as int) + 0x100_0000 * (bytes[3] as int)
  }

  function ToLeBytes(v: seq<Bits>): (bytes: seq<Byte>)
    ensures |bytes| == 4 * |v|
    decreases |v|
  {
    if v == [] then [] else ScalarBytes(v[0]) + ToLeBytes(v[1..])
  }

  function Scalars(bytes: seq<Byte>): (v: seq<Bits>)
    requires |bytes| % 4 == 0
    ensures 4 * |v| == |bytes|
    decreases |bytes|
  {
    if bytes == [] then [] else [ScalarOf(bytes[..4])] + Scalars(bytes[4..])
  }

  function FromLeBytes(bytes: seq<Byte>, dims: nat): Result<seq<Bits>, VectorError> {
    if |bytes| != 4 * dims then Err(WrongLength) else MakeVector(Scalars(bytes))
  }

  lemma {:induction false} ScalarBack(b: Bits)
    ensures ScalarOf(ScalarBytes(b)) == b
  {
    var h := b as int / 0x100;
    assert b as int == 0x100 * h + b as int % 0x100;
    assert b as int / 0x1_0000 == h / 0x100 && b as int / 0x100_0000 == h / 0x1_0000;
    assert h == 0x100 * (h / 0x100) + h % 0x100;
  }

  lemma {:induction false} ScalarsBack(v: seq<Bits>)
    ensures Scalars(ToLeBytes(v)) == v
    decreases |v|
  {
    if v != [] {
      ScalarsBack(v[1..]);
      ScalarBack(v[0]);
      assert ToLeBytes(v)[..4] == ScalarBytes(v[0]) && ToLeBytes(v)[4..] == ToLeBytes(v[1..]);
    }
  }

  lemma {:induction false} BytesBack(bytes: seq<Byte>)
    requires |bytes| % 4 == 0
    ensures ToLeBytes(Scalars(bytes)) == bytes
    decreases |bytes|
  {
    if bytes != [] {
      BytesBack(bytes[4..]);
      OneBack(bytes[..4]);
      assert bytes == bytes[..4] + bytes[4..];
      assert Scalars(bytes)[1..] == Scalars(bytes[4..]);
    }
  }

  lemma {:induction false} OneBack(s: seq<Byte>)
    requires |s| == 4
    ensures ScalarBytes(ScalarOf(s)) == s
  {
    var b := ScalarOf(s);
    assert b as int / 0x100 == s[1] as int + 0x100 * (s[2] as int) + 0x1_0000 * (s[3] as int);
    assert b as int / 0x1_0000 == s[2] as int + 0x100 * (s[3] as int);
  }

  /** A vector that could be made is read back bit for bit, and only bytes that are some
      such vector are read: the two directions of one correspondence. */
  lemma {:induction false} BytesRoundTrip(v: seq<Bits>, bytes: seq<Byte>, dims: nat)
    ensures MakeVector(v).Ok? ==> FromLeBytes(ToLeBytes(v), |v|) == Ok(v)
    ensures FromLeBytes(bytes, dims).Ok? ==>
      var w := FromLeBytes(bytes, dims).value; MakeVector(w) == Ok(w) && |w| == dims && ToLeBytes(w) == bytes
  {
    ScalarsBack(v);
    if |bytes| == 4 * dims {
      BytesBack(bytes);
    }
  }
}
