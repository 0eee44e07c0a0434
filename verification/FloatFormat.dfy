/** What the bytes of a float stand for: the binary32 and binary64 formats of section 3.4 of
    IEEE 754-2008, stored little-endian, and what it means to widen one into the other. */
module FloatFormat {
  import opened Bits
  import opened Bytes

  const TWO23: nat := 0x80_0000
  const TWO29: nat := 0x2000_0000
  const TWO31: nat := 0x8000_0000
  const TWO52: nat := 0x10_0000_0000_0000
  const TWO63: nat := 0x8000_0000_0000_0000

  /** A float's value. A finite one is a sign and a whole number of units of 2 to the -1074, the
      smallest positive binary64 number, of which every finite float of either format is a
      multiple. */
  datatype FloatValue = NaN | Infinite(negative: bool) | Finite(negative: bool, units: nat)

  /** Sign, biased exponent and fraction. */
  datatype Parts = Parts(negative: bool, exponent: nat, fraction: nat)

  /** `n` times 2 to the `k`. */
  function Shift(n: nat, k: nat): nat
  {
    n * Pow2(k)
  }

  function SingleParts(x: Buffer): (p: Parts)
    requires |x| == 4
  {
    var n := Decode(x);
    Parts(n / TWO31 == 1, n / TWO23 % 256, n % TWO23)
  }

  function DoubleParts(x: Buffer): (p: Parts)
    requires |x| == 8
  {
    var n := Decode(x);
    Parts(n / TWO63 == 1, n / TWO52 % 2048, n % TWO52)
  }

  function SingleValue(x: Buffer): FloatValue
    requires |x| == 4
  {
    var p := SingleParts(x);
    if p.exponent == 255 then (if p.fraction == 0 then Infinite(p.negative) else NaN)
    else if p.exponent == 0 then Finite(p.negative, Shift(p.fraction, 925))
    else Finite(p.negative, Shift(TWO23 + p.fraction, p.exponent - 1 + 925))
  }

  function DoubleValue(x: Buffer): FloatValue
    requires |x| == 8
  {
    var p := DoubleParts(x);
    if p.exponent == 2047 then (if p.fraction == 0 then Infinite(p.negative) else NaN)
    else if p.exponent == 0 then Finite(p.negative, p.fraction)
    else Finite(p.negative, Shift(TWO52 + p.fraction, p.exponent - 1))
  }

  // ---------------------------------------------------------------------------
  // Putting a binary64 number together
  // ---------------------------------------------------------------------------

  function DoubleBytes(p: Parts): (x: Buffer)
    ensures |x| == 8
  {
    Encode((if p.negative then TWO63 else 0) + p.exponent * TWO52 + p.fraction, 8)
  }

  lemma DoubleBytesParts(p: Parts)
    requires p.exponent < 2048 && p.fraction < TWO52
    ensures DoubleParts(DoubleBytes(p)) == p
  {
    hide Encode, Decode;
    Word64((if p.negative then TWO63 else 0) + p.exponent * TWO52 + p.fraction);
    PartsOfDouble(DoubleBytes(p), p);
  }

  /** The place of the highest one bit of `n`. */
  function Log2(n: nat): (k: nat)
    requires n > 0
  {
    if n == 1 then 0 else 1 + Log2(n / 2)
  }

  lemma {:induction false} Log2Bounds(n: nat)
    requires n > 0
    ensures Pow2(Log2(n)) <= n < 2 * Pow2(Log2(n))
  {
    if n > 1 {
      Log2Bounds(n / 2);
    }
  }

  lemma {:induction false} Pow2Add(a: nat, b: nat)
    ensures Pow2(a + b) == Pow2(a) * Pow2(b)
  {
    if a > 0 {
      Pow2Add(a - 1, b);
      Assoc(2, Pow2(a - 1), Pow2(b));
    }
  }

  lemma Assoc(a: nat, b: nat, c: nat)
    ensures a * b * c == a * (b * c)
  {
  }

  lemma SmallPowers()
    ensures Pow2(23) == TWO23 && Pow2(29) == TWO29 && Pow2(52) == TWO52
  {
    assert Pow2(4) == 16;
    assert Pow2(8) == 16 * Pow2(4);
    assert Pow2(12) == 16 * Pow2(8);
    assert Pow2(16) == 16 * Pow2(12);
    assert Pow2(20) == 16 * Pow2(16);
    assert Pow2(23) == 8 * Pow2(20);
    assert Pow2(26) == 8 * Pow2(23);
    assert Pow2(29) == 8 * Pow2(26);
    Pow2Add(23, 29);
  }

  // ---------------------------------------------------------------------------
  // Widening
  // ---------------------------------------------------------------------------

  /** What is left of a subnormal's fraction below its highest bit, moved up to 52 bits. */
  function SubnormalFraction(f: nat): nat
    requires f > 0
  {
    var k := Log2(f);
    if k <= 52 && f >= Pow2(k) then Shift(f - Pow2(k), 52 - k) else 0
  }

  /** The binary64 parts of a binary32 number. A NaN keeps its payload; a subnormal becomes
      normal, its highest bit implied. */
  function WidenedParts(p: Parts): Parts
  {
    if p.exponent == 255 then Parts(p.negative, 2047, p.fraction * TWO29)
    else if p.exponent > 0 then Parts(p.negative, p.exponent + 896, p.fraction * TWO29)
    else if p.fraction == 0 then Parts(p.negative, 0, 0)
    else
      Parts(p.negative, 874 + Log2(p.fraction), SubnormalFraction(p.fraction))
  }

  function WidenSingle(x: Buffer): Buffer
  {
    if |x| == 4 then DoubleBytes(WidenedParts(SingleParts(x))) else []
  }

  lemma SinglePartsBounds(x: Buffer)
    requires |x| == 4
    ensures SingleParts(x).exponent < 256 && SingleParts(x).fraction < TWO23
  {
  }

  lemma MulBelow(a: nat, b: nat, c: nat)
    requires a < b && c > 0
    ensures a * c < b * c
  {
  }

  lemma NormalUnits(f: nat, e: nat)
    requires 1 <= e
    ensures Shift(TWO52 + f * TWO29, e + 895) == Shift(TWO23 + f, e - 1 + 925)
  {
    SmallPowers();
    Pow2Add(29, e + 895);
    assert 29 + (e + 895) == e - 1 + 925;
    var p := Pow2(e + 895);
    assert TWO52 + f * TWO29 == (TWO23 + f) * TWO29;
    Assoc(TWO23 + f, TWO29, p);
  }

  lemma SubnormalUnits(f: nat)
    requires 0 < f < TWO23
    ensures Log2(f) <= 22 && SubnormalFraction(f) < TWO52
    ensures Shift(TWO52 + SubnormalFraction(f), 873 + Log2(f)) == Shift(f, 925)
  {
    SmallPowers();
    hide Log2, Pow2;
    var k := Log2(f);
    Log2Bounds(f);
    if k >= 23 {
      Pow2Monotone(23, k);
      assert false;
    }
    Pow2Add(k, 52 - k);
    Pow2Add(52 - k, 873 + k);
    assert 52 - k + (873 + k) == 925;
    Raised(f, Pow2(k), Pow2(52 - k), Pow2(873 + k));
  }

  lemma Raised(f: nat, p: nat, q: nat, r: nat)
    requires p <= f < 2 * p && p * q == TWO52 && q > 0
    ensures (f - p) * q < TWO52 && (TWO52 + (f - p) * q) * r == f * (q * r)
  {
    MulBelow(f - p, p, q);
    Distribute(p, f - p, q);
    assert TWO52 + (f - p) * q == f * q;
    Assoc(f, q, r);
  }

  lemma Distribute(a: nat, b: nat, c: nat)
    ensures (a + b) * c == a * c + b * c
  {
  }

  lemma ShiftZero(k: nat)
    ensures Shift(0, k) == 0
  {
  }

  /** The widened number is well formed and has the value of the narrow one. */
  lemma WidenSingleValue(x: Buffer)
    requires |x| == 4
    ensures |WidenSingle(x)| == 8 && DoubleValue(WidenSingle(x)) == SingleValue(x)
  {
    hide Decode, Pow2, Encode, Log2, DoubleBytes, DoubleParts, SingleParts, Shift, SubnormalFraction;
    var p := SingleParts(x);
    SinglePartsBounds(x);
    var w := WidenedParts(p);
    if 0 < p.exponent {
      NormalUnits(p.fraction, p.exponent);
    } else if p.fraction > 0 {
      SubnormalUnits(p.fraction);
    } else {
      ShiftZero(925);
    }
    DoubleBytesParts(w);
  }

  lemma DecodeFour(a: byte, b: byte, c: byte, d: byte)
    ensures Decode([a, b, c, d]) == a + 0x100 * b + 0x1_0000 * c + 0x100_0000 * d
  {
    DecodeFirst(a, [b, c, d]);
    DecodeFirst(b, [c, d]);
    DecodeFirst(c, [d]);
    DecodeFirst(d, []);
    assert [a] + [b, c, d] == [a, b, c, d] && [b] + [c, d] == [b, c, d] && [c] + [d] == [c, d] && [d] + [] == [d];
    assert Decode([]) == 0;
    hide Decode;
  }

  lemma DecodeEight(x: Buffer, y: Buffer)
    requires |x| == 4
    ensures Decode(x + y) == Decode(x) + U32_LIMIT * Decode(y)
  {
    assert x == [x[0], x[1], x[2], x[3]];
    DecodeFour(x[0], x[1], x[2], x[3]);
    DecodeFirst(x[3], y);
    DecodeFirst(x[2], [x[3]] + y);
    DecodeFirst(x[1], [x[2]] + ([x[3]] + y));
    DecodeFirst(x[0], [x[1]] + ([x[2]] + ([x[3]] + y)));
    assert x + y == [x[0]] + ([x[1]] + ([x[2]] + ([x[3]] + y)));
    hide Decode;
  }

  lemma DecodeFirst(a: byte, y: Buffer)
    ensures Decode([a] + y) == a + 256 * Decode(y)
  {
    assert ([a] + y)[1..] == y;
  }

  lemma PartsOfSingle(x: Buffer, p: Parts)
    requires |x| == 4 && p.exponent < 256 && p.fraction < TWO23
    requires Decode(x) == (if p.negative then TWO31 else 0) + p.exponent * TWO23 + p.fraction
    ensures SingleParts(x) == p
  {
    hide Decode;
  }

  lemma PartsOfDouble(x: Buffer, p: Parts)
    requires |x| == 8 && p.exponent < 2048 && p.fraction < TWO52
    requires Decode(x) == (if p.negative then TWO63 else 0) + p.exponent * TWO52 + p.fraction
    ensures DoubleParts(x) == p
  {
    hide Decode;
  }

  lemma ShiftTwo(unit: nat)
    requires unit >= 52
    ensures Shift(TWO23, unit - 23) == Shift(1, unit) == Shift(TWO52, unit - 52)
    ensures Shift(TWO23, unit - 22) == Shift(2, unit)
  {
    SmallPowers();
    Pow2Add(23, unit - 23);
    Pow2Add(52, unit - 52);
    assert Pow2(unit - 22) == 2 * Pow2(unit - 23);
  }

  /** `y` is a binary64 number with the value of the binary32 number `x`. */
  predicate Widened(x: Buffer, y: Buffer)
    requires |x| == 4
  {
    |y| == 8 && DoubleValue(y) == SingleValue(x)
  }

  lemma ZeroSingle()
    ensures SingleValue(Zeros(4)) == Finite(false, 0)
  {
    assert Zeros(4) == [0, 0, 0, 0];
    DecodeFour(0, 0, 0, 0);
    PartsOfSingle(Zeros(4), Parts(false, 0, 0));
    ShiftZero(925);
    hide Decode, Shift, SingleParts;
  }

  lemma ShiftPositive(n: nat, k: nat)
    requires n > 0
    ensures Shift(n, k) > 0
  {
  }

  lemma DoublePartsZero(y: Buffer)
    requires |y| == 8 && DoubleParts(y) == Parts(false, 0, 0)
    ensures Decode(y) == 0
  {
    var n := Decode(y);
    DecodeBound(y);
    WordLimits();
    hide Decode, Pow256;
    assert n / TWO63 <= 1;
    assert n / TWO52 < 2048;
  }

  lemma {:induction false} DecodeBound(s: Buffer)
    ensures Decode(s) < Pow256(|s|)
  {
    if s != [] {
      DecodeBound(s[1..]);
    }
  }

  lemma {:induction false} DecodeZero(s: Buffer)
    requires Decode(s) == 0
    ensures s == Zeros(|s|)
  {
    if s != [] {
      DecodeZero(s[1..]);
      assert s == [s[0]] + s[1..];
    }
  }

  /** Positive zero has one encoding. */
  lemma OnlyZero(y: Buffer)
    requires |y| == 8 && DoubleValue(y) == Finite(false, 0)
    ensures y == Zeros(8)
  {
    hide Decode, Shift, DoubleParts;
    var p := DoubleParts(y);
    if p.exponent != 0 && p.exponent != 2047 {
      ShiftPositive(TWO52 + p.fraction, p.exponent - 1);
    }
    DoublePartsZero(y);
    DecodeZero(y);
  }

  /** 1.0 in both formats, and -2.0, infinity and the smallest subnormal, by their bytes; 2 to
      the `unit` units are 1.0. */
  lemma KnownValues(unit: nat)
    requires unit == 1074
    ensures SingleValue([0, 0, 0x80, 0x3F]) == Finite(false, Shift(1, unit))
    ensures DoubleValue([0, 0, 0, 0] + [0, 0, 0xF0, 0x3F]) == Finite(false, Shift(1, unit))
    ensures SingleValue([0, 0, 0, 0xC0]) == Finite(true, Shift(2, unit))
    ensures SingleValue([0, 0, 0x80, 0x7F]) == Infinite(false)
    ensures SingleValue([1, 0, 0, 0]) == Finite(false, Shift(1, unit - 149))
    ensures DoubleValue([1, 0, 0, 0] + [0, 0, 0, 0]) == Finite(false, 1)
  {
    hide Pow2, Decode, Shift, SingleParts, DoubleParts;
    ShiftTwo(unit);
    DecodeFour(0, 0, 0x80, 0x3F);
    PartsOfSingle([0, 0, 0x80, 0x3F], Parts(false, 127, 0));
    DecodeFour(0, 0, 0, 0xC0);
    PartsOfSingle([0, 0, 0, 0xC0], Parts(true, 128, 0));
    DecodeFour(0, 0, 0x80, 0x7F);
    PartsOfSingle([0, 0, 0x80, 0x7F], Parts(false, 255, 0));
    DecodeFour(1, 0, 0, 0);
    PartsOfSingle([1, 0, 0, 0], Parts(false, 0, 1));
    DecodeFour(0, 0, 0, 0);
    DecodeFour(0, 0, 0xF0, 0x3F);
    DecodeEight([0, 0, 0, 0], [0, 0, 0xF0, 0x3F]);
    PartsOfDouble([0, 0, 0, 0] + [0, 0, 0xF0, 0x3F], Parts(false, 1023, 0));
    DecodeEight([1, 0, 0, 0], [0, 0, 0, 0]);
    PartsOfDouble([1, 0, 0, 0] + [0, 0, 0, 0], Parts(false, 0, 1));
  }
}
