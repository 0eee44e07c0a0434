/** What an upgrade makes of a stored row: kept fields widened element by element, added
    fields zero, every field at its new offset. Two steps are one step, byte for byte. */
module RowTranslation {
  import opened Bits
  import opened Bytes
  import opened FloatFormat
  import opened Layout
  import opened Schema
  import opened Assembly
  import opened BulkColumns
  import opened BulkKernel
  import opened SchemaUpgrade

  // ---------------------------------------------------------------------------
  // One element
  // ---------------------------------------------------------------------------

  /** How a float32's bytes widen to a float64's: any way that keeps the value. That leaves open
      only what becomes of the payload of a NaN. */
  type FloatWidening = Buffer -> Buffer

  ghost predicate WidensFloats(wide: FloatWidening)
  {
    forall x {:trigger wide(x)} :: |x| == 4 ==> Widened(x, wide(x))
  }

  /** There is such a widening. */
  lemma WideningExists()
    ensures WidensFloats(WidenSingle)
  {
    forall x: Buffer {:trigger WidenSingle(x)} | |x| == 4
      ensures Widened(x, WidenSingle(x))
    {
      WidenSingleValue(x);
    }
  }

  /** The upper half of a sign-extended int32. */
  function SignFill(x: Buffer): (r: Buffer)
    requires |x| == 4
    ensures |r| == 4
  {
    if x[3] >= 128 then [255, 255, 255, 255] else [0, 0, 0, 0]
  }

  predicate Widens(a: DType, b: DType)
  {
    (a, b) in DTYPE_WIDENING
  }

  /** `astype` on one stored element. */
  function WidenElement(wide: FloatWidening, a: DType, b: DType, x: Buffer): Buffer
    requires Widens(a, b) && |x| == ItemSize(a)
  {
    if a == b then x
    else if a == Float32 then wide(x)
    else if a == Int32 then x + SignFill(x)
    else if b == Int32 then x + [0, 0, 0]
    else x + [0, 0, 0, 0, 0, 0, 0]
  }

  lemma WidenElementSize(wide: FloatWidening, a: DType, b: DType, x: Buffer)
    requires WidensFloats(wide) && Widens(a, b) && |x| == ItemSize(a)
    ensures |WidenElement(wide, a, b, x)| == ItemSize(b)
  {
    assert a == Float32 ==> Widened(x, wide(x));
    hide DoubleValue, SingleValue;
  }

  lemma WidensCompose(a: DType, b: DType, c: DType)
    requires Widens(a, b) && Widens(b, c)
    ensures Widens(a, c)
  {
  }

  /** Widening in two steps is widening in one. */
  lemma WidenElementCompose(wide: FloatWidening, a: DType, b: DType, c: DType, x: Buffer)
    requires WidensFloats(wide) && Widens(a, b) && Widens(b, c) && |x| == ItemSize(a)
    ensures Widens(a, c) && |WidenElement(wide, a, b, x)| == ItemSize(b)
    ensures WidenElement(wide, b, c, WidenElement(wide, a, b, x)) == WidenElement(wide, a, c, x)
  {
    WidenElementSize(wide, a, b, x);
    if a != b && b != c {
      assert a == UInt8 && b == Int32 && c == Int64;
    }
  }

  lemma WidenElementZero(wide: FloatWidening, a: DType, b: DType)
    requires WidensFloats(wide) && Widens(a, b)
    ensures WidenElement(wide, a, b, Zeros(ItemSize(a))) == Zeros(ItemSize(b))
  {
    if a == Float32 && b == Float64 {
      assert Widened(Zeros(4), wide(Zeros(4)));
      ZeroSingle();
      OnlyZero(wide(Zeros(4)));
    }
    hide DoubleValue, SingleValue;
  }

  /** The integer an element stands for: two's complement, except for `UINT8`. */
  function IntegerValue(d: DType, x: Buffer): int
    requires d in {Int32, Int64, UInt8} && |x| == ItemSize(d)
  {
    if d != UInt8 && x[|x| - 1] >= 128 then Decode(x) - Pow256(|x|) else Decode(x)
  }

  lemma Distribute(d: nat, p: nat, q: nat)
    ensures 256 * (d + p * q) == 256 * d + (256 * p) * q
  {
  }

  lemma {:induction false} DecodeConcat(x: Buffer, y: Buffer)
    ensures Decode(x + y) == Decode(x) + Pow256(|x|) * Decode(y)
  {
    if x == [] {
      assert x + y == y;
    } else {
      assert (x + y)[1..] == x[1..] + y;
      DecodeConcat(x[1..], y);
      var d, p, q := Decode(x[1..]), Pow256(|x| - 1), Decode(y);
      Distribute(d, p, q);
      assert Decode(x) == x[0] + 256 * d && Pow256(|x|) == 256 * p;
      hide Decode, Pow256;
    }
  }

  lemma FillValues()
    ensures Decode([0, 0, 0, 0]) == 0 && Decode([0, 0, 0]) == 0 && Decode([0, 0, 0, 0, 0, 0, 0]) == 0
    ensures Decode([255, 255, 255, 255]) == U32_LIMIT - 1
  {
    assert [0][1..] == [] && [0, 0][1..] == [0] && [0, 0, 0][1..] == [0, 0] && [0, 0, 0, 0][1..] == [0, 0, 0];
    assert Decode([0, 0, 0, 0]) == 0;
    assert [0, 0, 0, 0, 0][1..] == [0, 0, 0, 0] && [0, 0, 0, 0, 0, 0][1..] == [0, 0, 0, 0, 0]
        && [0, 0, 0, 0, 0, 0, 0][1..] == [0, 0, 0, 0, 0, 0];
    assert [255][1..] == [] && [255, 255][1..] == [255] && [255, 255, 255][1..] == [255, 255]
        && [255, 255, 255, 255][1..] == [255, 255, 255];
    assert Decode([255]) == 255 && Decode([255, 255]) == 65535;
  }

  /** Widening an integer keeps its value. */
  lemma WidenKeepsInteger(wide: FloatWidening, a: DType, b: DType, x: Buffer)
    requires Widens(a, b) && a in {Int32, Int64, UInt8} && |x| == ItemSize(a)
    ensures b in {Int32, Int64, UInt8} && |WidenElement(wide, a, b, x)| == ItemSize(b)
    ensures IntegerValue(b, WidenElement(wide, a, b, x)) == IntegerValue(a, x)
  {
    hide Decode;
    WordLimits();
    FillValues();
    if a == Int32 && b == Int64 {
      DecodeConcat(x, SignFill(x));
    } else if a == UInt8 && b == Int32 {
      DecodeConcat(x, [0, 0, 0]);
    } else if a == UInt8 && b == Int64 {
      DecodeConcat(x, [0, 0, 0, 0, 0, 0, 0]);
    }
  }

  /** What a stored element stands for. */
  datatype Number = Whole(value: int) | Floating(number: FloatValue)

  function NumberOf(d: DType, x: Buffer): Number
    requires |x| == ItemSize(d)
  {
    match d
    case Float32 => Floating(SingleValue(x))
    case Float64 => Floating(DoubleValue(x))
    case _ => Whole(IntegerValue(d, x))
  }

  /** Every permitted widening keeps the number an element stands for. */
  lemma WidenKeepsNumber(wide: FloatWidening, a: DType, b: DType, x: Buffer)
    requires WidensFloats(wide) && Widens(a, b) && |x| == ItemSize(a)
    ensures |WidenElement(wide, a, b, x)| == ItemSize(b)
    ensures NumberOf(b, WidenElement(wide, a, b, x)) == NumberOf(a, x)
  {
    hide IntegerValue, SingleValue, DoubleValue;
    WidenElementSize(wide, a, b, x);
    if a in {Int32, Int64, UInt8} {
      WidenKeepsInteger(wide, a, b, x);
    } else if a == Float32 {
      assert Widened(x, wide(x));
    }
  }

  predicate SameFamily(a: DType, b: DType)
  {
    a in {Float32, Float64} <==> b in {Float32, Float64}
  }

  /** Every number the one dtype stores, the other can store. */
  ghost predicate Covers(b: DType, a: DType)
  {
    forall x: Buffer {:trigger NumberOf(a, x)} :: |x| == ItemSize(a) ==> Stores(b, NumberOf(a, x))
  }

  ghost predicate Stores(d: DType, n: Number)
  {
    exists y: Buffer {:trigger NumberOf(d, y)} :: |y| == ItemSize(d) && NumberOf(d, y) == n
  }

  /** What the narrower integer formats can hold at most. */
  lemma IntegerRange(d: DType, x: Buffer)
    requires d in {Int32, UInt8} && |x| == ItemSize(d)
    ensures if d == Int32 then -0x1_0000_0000 <= IntegerValue(d, x) < 0x1_0000_0000 else 0 <= IntegerValue(d, x) < 256
  {
    DecodeBound(x);
    WordLimits();
    assert Pow256(1) == 256;
    hide Decode;
  }

  /** A number too large, or too small, for the narrower integer formats. */
  lemma WideIntegers()
    ensures IntegerValue(Int64, [0, 0, 0, 0] + [1, 0, 0, 0]) == U32_LIMIT
    ensures IntegerValue(Int32, [255, 255, 255, 255]) == -1
    ensures IntegerValue(Int64, [255, 255, 255, 255] + [255, 255, 255, 255]) == -1
  {
    DecodeFour(0, 0, 0, 0);
    DecodeFour(1, 0, 0, 0);
    DecodeFour(255, 255, 255, 255);
    DecodeEight([0, 0, 0, 0], [1, 0, 0, 0]);
    DecodeEight([255, 255, 255, 255], [255, 255, 255, 255]);
    WordLimits();
    hide Decode, Pow256;
  }

  lemma TinyDouble(x: Buffer)
    requires |x| == 4
    ensures SingleValue(x) != Finite(false, 1)
  {
    var p := SingleParts(x);
    hide SingleParts;
    EvenShift(p.fraction, 925);
    EvenShift(TWO23 + p.fraction, if p.exponent == 0 then 925 else p.exponent - 1 + 925);
  }

  lemma EvenShift(n: nat, k: nat)
    requires k > 0
    ensures Shift(n, k) != 1
  {
    var q := Pow2(k - 1);
    assert Pow2(k) == 2 * q;
    hide Pow2;
    assert n * (2 * q) == 2 * (n * q);
  }

  lemma NotCovered(b: DType, a: DType, x: Buffer)
    requires |x| == ItemSize(a) && !Stores(b, NumberOf(a, x))
    ensures !Covers(b, a)
  {
    hide NumberOf, Stores;
  }

  lemma NarrowerFloat()
    ensures !Covers(Float32, Float64)
  {
    KnownValues(1074);
    var tiny := [1, 0, 0, 0] + [0, 0, 0, 0];
    forall y: Buffer | |y| == 4
      ensures NumberOf(Float32, y) != NumberOf(Float64, tiny)
    {
      TinyDouble(y);
    }
    hide SingleValue, DoubleValue, Shift, Pow2;
    NotCovered(Float32, Float64, tiny);
  }

  lemma NarrowerInteger(b: DType, a: DType, x: Buffer)
    requires b in {Int32, UInt8} && a in {Int32, Int64} && |x| == ItemSize(a)
    requires IntegerValue(a, x) == (if b == UInt8 then -1 else U32_LIMIT)
    ensures !Covers(b, a)
  {
    hide IntegerValue;
    forall y: Buffer | |y| == ItemSize(b)
      ensures NumberOf(b, y) != NumberOf(a, x)
    {
      IntegerRange(b, y);
    }
    NotCovered(b, a, x);
  }

  /** The permitted dtype changes are exactly those within the integers or within the floats that
      can store every number of the old dtype. */
  lemma WideningExact(a: DType, b: DType)
    ensures Widens(a, b) <==> SameFamily(a, b) && Covers(b, a)
  {
    if Widens(a, b) {
      WideningExists();
      forall x: Buffer {:trigger NumberOf(a, x)} | |x| == ItemSize(a)
        ensures Stores(b, NumberOf(a, x))
      {
        WidenKeepsNumber(WidenSingle, a, b, x);
        hide NumberOf;
        assert NumberOf(b, WidenElement(WidenSingle, a, b, x)) == NumberOf(a, x);
      }
    } else if a == Float64 && b == Float32 {
      NarrowerFloat();
    } else if SameFamily(a, b) {
      WideIntegers();
      var big, low: Buffer := [0, 0, 0, 0] + [1, 0, 0, 0], [255, 255, 255, 255];
      if a == Int64 {
        NarrowerInteger(b, a, if b == Int32 then big else low + low);
      } else {
        NarrowerInteger(b, a, low);
      }
    }
  }

  // ---------------------------------------------------------------------------
  // One field
  // ---------------------------------------------------------------------------

  function Element(d: DType, bytes: Buffer, j: nat): (x: Buffer)
    requires Times(j, ItemSize(d)) + ItemSize(d) <= |bytes|
    ensures |x| == ItemSize(d)
  {
    bytes[Times(j, ItemSize(d))..Times(j, ItemSize(d)) + ItemSize(d)]
  }

  lemma ElementPrefix(d: DType, x: Buffer, y: Buffer, j: nat)
    requires Times(j, ItemSize(d)) + ItemSize(d) <= |x|
    ensures Element(d, x + y, j) == Element(d, x, j)
  {
    hide Times, ItemSize;
  }

  lemma ElementLast(d: DType, x: Buffer, y: Buffer, j: nat)
    requires |x| == Times(j, ItemSize(d)) && |y| == ItemSize(d)
    ensures Element(d, x + y, j) == y
  {
    hide Times, ItemSize;
  }

  lemma ElementZeros(d: DType, n: nat, j: nat)
    requires Times(j, ItemSize(d)) + ItemSize(d) <= n
    ensures Element(d, Zeros(n), j) == Zeros(ItemSize(d))
  {
    hide Times, ItemSize;
  }

  lemma ElementFits(d: DType, j: nat, k: nat)
    requires j < k
    ensures Times(j, ItemSize(d)) + ItemSize(d) <= Times(k, ItemSize(d))
  {
    TimesMonotone(j + 1, k, ItemSize(d));
  }

  /** The first `k` elements of a field, widened. */
  function WidenField(wide: FloatWidening, a: DType, b: DType, bytes: Buffer, k: nat): Buffer
    requires Widens(a, b) && Times(k, ItemSize(a)) <= |bytes|
  {
    if k == 0 then [] else WidenField(wide, a, b, bytes, k - 1) + WidenElement(wide, a, b, Element(a, bytes, k - 1))
  }

  lemma {:induction false} WidenFieldSize(wide: FloatWidening, a: DType, b: DType, bytes: Buffer, k: nat)
    requires WidensFloats(wide) && Widens(a, b) && Times(k, ItemSize(a)) <= |bytes|
    ensures |WidenField(wide, a, b, bytes, k)| == Times(k, ItemSize(b))
  {
    hide WidenElement, WidensFloats, Widens, ItemSize, Element, Times;
    TimesStep(if k == 0 then 0 else k - 1, ItemSize(b));
    if k > 0 {
      ElementFits(a, k - 1, k);
      TimesMonotone(k - 1, k, ItemSize(a));
      WidenFieldSize(wide, a, b, bytes, k - 1);
      WidenElementSize(wide, a, b, Element(a, bytes, k - 1));
    }
  }

  /** Element `j` of a widened field is element `j` widened. */
  lemma {:induction false} WidenedElement(wide: FloatWidening, a: DType, b: DType, bytes: Buffer, k: nat, j: nat)
    requires WidensFloats(wide) && Widens(a, b) && j < k && Times(k, ItemSize(a)) <= |bytes|
    ensures Times(j, ItemSize(a)) + ItemSize(a) <= |bytes|
    ensures Times(j, ItemSize(b)) + ItemSize(b) <= |WidenField(wide, a, b, bytes, k)|
    ensures Element(b, WidenField(wide, a, b, bytes, k), j) == WidenElement(wide, a, b, Element(a, bytes, j))
  {
    hide WidenElement, WidensFloats, Widens, Times, ItemSize, Element;
    ElementFits(a, j, k);
    ElementFits(a, k - 1, k);
    ElementFits(b, j, k);
    WidenFieldSize(wide, a, b, bytes, k);
    WidenFieldSize(wide, a, b, bytes, k - 1);
    var init, last := WidenField(wide, a, b, bytes, k - 1), WidenElement(wide, a, b, Element(a, bytes, k - 1));
    WidenElementSize(wide, a, b, Element(a, bytes, k - 1));
    if j < k - 1 {
      WidenedElement(wide, a, b, bytes, k - 1, j);
      ElementPrefix(b, init, last, j);
    } else {
      ElementLast(b, init, last, j);
    }
  }

  lemma {:induction false} WidenFieldCompose(wide: FloatWidening, a: DType, b: DType, c: DType, bytes: Buffer, n: nat,
                                             k: nat)
    requires WidensFloats(wide) && Widens(a, b) && Widens(b, c) && k <= n && Times(n, ItemSize(a)) <= |bytes|
    ensures Widens(a, c) && Times(k, ItemSize(a)) <= |bytes|
    ensures Times(k, ItemSize(b)) <= |WidenField(wide, a, b, bytes, n)|
    ensures WidenField(wide, b, c, WidenField(wide, a, b, bytes, n), k) == WidenField(wide, a, c, bytes, k)
  {
    hide WidenElement, WidensFloats, Widens, Times, ItemSize, Element;
    WidensCompose(a, b, c);
    TimesMonotone(k, n, ItemSize(a));
    TimesMonotone(k, n, ItemSize(b));
    WidenFieldSize(wide, a, b, bytes, n);
    if k > 0 {
      ElementFits(a, k - 1, k);
      ElementFits(b, k - 1, k);
      WidenFieldCompose(wide, a, b, c, bytes, n, k - 1);
      WidenedElement(wide, a, b, bytes, n, k - 1);
      WidenElementCompose(wide, a, b, c, Element(a, bytes, k - 1));
    }
  }

  lemma {:induction false} WidenFieldZeros(wide: FloatWidening, a: DType, b: DType, n: nat, k: nat)
    requires WidensFloats(wide) && Widens(a, b) && k <= n
    ensures Times(k, ItemSize(a)) <= Times(n, ItemSize(a))
    ensures WidenField(wide, a, b, Zeros(Times(n, ItemSize(a))), k) == Zeros(Times(k, ItemSize(b)))
  {
    hide WidenElement, WidensFloats, Widens;
    TimesMonotone(k, n, ItemSize(a));
    if k > 0 {
      WidenFieldZeros(wide, a, b, n, k - 1);
      ElementFits(a, k - 1, n);
      ElementZeros(a, Times(n, ItemSize(a)), k - 1);
      WidenElementZero(wide, a, b);
    }
  }

  // ---------------------------------------------------------------------------
  // One row
  // ---------------------------------------------------------------------------

  ghost predicate NamesDistinct(s: Fields)
  {
    forall i, j {:trigger s[i].name, s[j].name} :: 0 <= i < j < |s| ==> s[i].name != s[j].name
  }

  /** Two schema classes between which an upgrade starts. */
  ghost predicate Compatible(o: FeatureSchema, n: FeatureSchema)
  {
    Upgradable(o, n) && NamesDistinct(o.fields) && NamesDistinct(n.fields)
  }

  lemma PositionOf(s: Fields, i: nat)
    requires NamesDistinct(s) && i < |s|
    ensures Position(s, s[i].name) == i
  {
    assert s[i].name == s[Position(s, s[i].name)].name;
  }

  lemma KeptFacts(o: FeatureSchema, n: FeatureSchema, f: nat)
    requires Compatible(o, n) && f < |n.fields| && Has(o.fields, n.fields[f].name)
    ensures var was := FieldNamed(o.fields, n.fields[f].name);
            was.shape == n.fields[f].shape && Widens(was.dtype, n.fields[f].dtype)
  {
    PositionOf(n.fields, f);
  }

  /** The new bytes of field `f`: the old field of that name widened, or zeros. */
  ghost function TranslatedCell(wide: FloatWidening, o: FeatureSchema, n: FeatureSchema, row: Buffer,
                                f: nat): (cell: Buffer)
    requires WidensFloats(wide) && Compatible(o, n) && |row| == RowSize(o.fields) && f < |n.fields|
    ensures |cell| == ByteCount(n.fields[f])
  {
    var now := n.fields[f];
    if Has(o.fields, now.name) then
      KeptFacts(o, n, f);
      var was := FieldNamed(o.fields, now.name);
      var bytes := FieldSlice(o.fields, row, Position(o.fields, now.name));
      WidenFieldSize(wide, was.dtype, now.dtype, bytes, ElementCount(now.shape));
      WidenField(wide, was.dtype, now.dtype, bytes, ElementCount(now.shape))
    else Zeros(ByteCount(now))
  }

  /** The cells of one row, as one-row columns. */
  ghost function TranslatedCells(wide: FloatWidening, o: FeatureSchema, n: FeatureSchema,
                                 row: Buffer): (cols: seq<seq<Buffer>>)
    requires WidensFloats(wide) && Compatible(o, n) && |row| == RowSize(o.fields)
    ensures |cols| == |n.fields|
    ensures forall f :: 0 <= f < |n.fields| ==>
              |cols[f]| == 1 && cols[f][0] == TranslatedCell(wide, o, n, row, f)
                && |cols[f][0]| == ByteCount(n.fields[f])
  {
    seq(|n.fields|, f requires 0 <= f < |n.fields| => [TranslatedCell(wide, o, n, row, f)])
  }

  /** A stored row of `o` as an upgrade to `n` stores it. */
  ghost function TranslateRow(wide: FloatWidening, o: FeatureSchema, n: FeatureSchema, row: Buffer): (r: Buffer)
    requires WidensFloats(wide) && Compatible(o, n) && |row| == RowSize(o.fields)
    ensures |r| == RowSize(n.fields)
  {
    ScatteredRow(n.fields, TranslatedCells(wide, o, n, row), 0, |n.fields|)
  }

  ghost predicate CellsFor(s: Fields, cols: seq<seq<Buffer>>, i: nat)
  {
    |cols| == |s| && forall f :: 0 <= f < |s| ==> i < |cols[f]| && |cols[f][i]| == ByteCount(s[f])
  }

  /** A scattered row depends on that row's cells only. */
  lemma {:induction false} ScatteredSame(s: Fields, a: seq<seq<Buffer>>, i: nat, b: seq<seq<Buffer>>, j: nat, n: nat)
    requires CellsFor(s, a, i) && CellsFor(s, b, j) && n <= |s|
    requires forall f :: 0 <= f < |s| ==> a[f][i] == b[f][j]
    ensures ScatteredRow(s, a, i, n) == ScatteredRow(s, b, j, n)
  {
    hide RowSize, ByteCount, Offset;
    if n > 0 {
      ScatteredSame(s, a, i, b, j, n - 1);
    }
  }

  /** Every field of a scattered row is its cell. */
  lemma {:induction false} ScatteredField(s: Fields, cols: seq<seq<Buffer>>, i: nat, n: nat, f: nat)
    requires CellsFor(s, cols, i) && f < n <= |s|
    ensures Offset(s, 0, f) + ByteCount(s[f]) <= RowSize(s)
    ensures ScatteredRow(s, cols, i, n)[Offset(s, 0, f)..Offset(s, 0, f) + ByteCount(s[f])] == cols[f][i]
  {
    hide RowSize, ByteCount, Offset, Splice;
    ExtentInRow(s, _ => 0, f);
    ExtentInRow(s, _ => 0, n - 1);
    var before := ScatteredRow(s, cols, i, n - 1);
    if f < n - 1 {
      ScatteredField(s, cols, i, n - 1, f);
      ExtentsDisjoint(s, _ => 0, f, n - 1);
      SpliceOutside(before, Offset(s, 0, n - 1), cols[n - 1][i], Offset(s, 0, f), Offset(s, 0, f) + ByteCount(s[f]));
    } else {
      SpliceInside(before, Offset(s, 0, f), cols[f][i]);
    }
  }

  lemma FieldOfTranslated(wide: FloatWidening, o: FeatureSchema, n: FeatureSchema, row: Buffer, f: nat)
    requires WidensFloats(wide) && Compatible(o, n) && |row| == RowSize(o.fields) && f < |n.fields|
    ensures FieldSlice(n.fields, TranslateRow(wide, o, n, row), f) == TranslatedCell(wide, o, n, row, f)
  {
    hide RowSize, ByteCount, Offset, TranslatedCell, Compatible, WidensFloats;
    ScatteredField(n.fields, TranslatedCells(wide, o, n, row), 0, |n.fields|, f);
  }

  /** After an upgrade every kept field reads, element by element, as the widened old value. */
  lemma KeptFieldWidened(wide: FloatWidening, o: FeatureSchema, n: FeatureSchema, row: Buffer, i: nat, f: nat, j: nat)
    requires WidensFloats(wide) && Compatible(o, n) && |row| == RowSize(o.fields)
    requires i < |o.fields| && f < |n.fields| && o.fields[i].name == n.fields[f].name
    requires j < ElementCount(o.fields[i].shape)
    ensures var was, now := o.fields[i], n.fields[f];
            && was.shape == now.shape && Widens(was.dtype, now.dtype)
            && Times(j, ItemSize(was.dtype)) + ItemSize(was.dtype) <= ByteCount(was)
            && Times(j, ItemSize(now.dtype)) + ItemSize(now.dtype) <= ByteCount(now)
            && Element(now.dtype, FieldSlice(n.fields, TranslateRow(wide, o, n, row), f), j)
               == WidenElement(wide, was.dtype, now.dtype, Element(was.dtype, FieldSlice(o.fields, row, i), j))
            && NumberOf(now.dtype, Element(now.dtype, FieldSlice(n.fields, TranslateRow(wide, o, n, row), f), j))
               == NumberOf(was.dtype, Element(was.dtype, FieldSlice(o.fields, row, i), j))
  {
    hide Times, ItemSize, ElementCount, WidenElement, Element, WidenField, Offset, RowSize, Upgradable, TranslateRow;
    hide FieldSlice, NumberOf, WidensFloats;
    PositionOf(o.fields, i);
    KeptFacts(o, n, f);
    FieldOfTranslated(wide, o, n, row, f);
    ElementFits(o.fields[i].dtype, j, ElementCount(o.fields[i].shape));
    ElementFits(n.fields[f].dtype, j, ElementCount(o.fields[i].shape));
    WidenedElement(wide, o.fields[i].dtype, n.fields[f].dtype, FieldSlice(o.fields, row, i),
      ElementCount(o.fields[i].shape), j);
    WidenKeepsNumber(wide, o.fields[i].dtype, n.fields[f].dtype,
      Element(o.fields[i].dtype, FieldSlice(o.fields, row, i), j));
  }

  /** Element `j` of field `i` of a stored row, as a number. */
  function FieldNumber(s: Fields, row: Buffer, i: nat, j: nat): Number
    requires i < |s| && |row| == RowSize(s) && j < ElementCount(s[i].shape)
  {
    ElementFits(s[i].dtype, j, ElementCount(s[i].shape));
    NumberOf(s[i].dtype, Element(s[i].dtype, FieldSlice(s, row, i), j))
  }

  /** Field `i` of the old row and field `f` of the new one have the same numbers. */
  ghost predicate SameNumbers(o: Fields, row: Buffer, i: nat, n: Fields, out: Buffer, f: nat)
    requires i < |o| && f < |n| && |row| == RowSize(o) && |out| == RowSize(n)
  {
    && o[i].shape == n[f].shape
    && forall j: nat {:trigger FieldNumber(o, row, i, j)} :: j < ElementCount(o[i].shape) ==>
         FieldNumber(n, out, f, j) == FieldNumber(o, row, i, j)
  }

  /** What an upgrade promises of a row, said without the translation: every field kept by name
      has the same numbers, and every added field is zero. */
  ghost predicate KeepsRow(o: Fields, row: Buffer, n: Fields, out: Buffer)
    requires |row| == RowSize(o) && |out| == RowSize(n)
  {
    && (forall i, f {:trigger o[i], n[f]} :: 0 <= i < |o| && 0 <= f < |n| && o[i].name == n[f].name ==>
          SameNumbers(o, row, i, n, out, f))
    && (forall f {:trigger n[f]} :: 0 <= f < |n| && !Has(o, n[f].name) ==>
          FieldSlice(n, out, f) == Zeros(ByteCount(n[f])))
  }

  lemma TranslateKeeps(wide: FloatWidening, o: FeatureSchema, n: FeatureSchema, row: Buffer)
    requires WidensFloats(wide) && Compatible(o, n) && |row| == RowSize(o.fields)
    ensures KeepsRow(o.fields, row, n.fields, TranslateRow(wide, o, n, row))
  {
    hide Times, ItemSize, ElementCount, WidenElement, Element, Offset, RowSize, Compatible, TranslateRow, FieldSlice;
    hide NumberOf, WidensFloats, Widens, Has;
    var out := TranslateRow(wide, o, n, row);
    forall i, f | 0 <= i < |o.fields| && 0 <= f < |n.fields| && o.fields[i].name == n.fields[f].name
      ensures SameNumbers(o.fields, row, i, n.fields, out, f)
    {
      SameShape(o, n, i, f);
      forall j: nat | j < ElementCount(o.fields[i].shape)
        ensures FieldNumber(n.fields, out, f, j) == FieldNumber(o.fields, row, i, j)
      {
        KeptFieldWidened(wide, o, n, row, i, f, j);
      }
    }
    forall f | 0 <= f < |n.fields| && !Has(o.fields, n.fields[f].name)
      ensures FieldSlice(n.fields, out, f) == Zeros(ByteCount(n.fields[f]))
    {
      AddedFieldZero(wide, o, n, row, f);
    }
  }

  lemma SameShape(o: FeatureSchema, n: FeatureSchema, i: nat, f: nat)
    requires Compatible(o, n) && i < |o.fields| && f < |n.fields| && o.fields[i].name == n.fields[f].name
    ensures o.fields[i].shape == n.fields[f].shape
  {
    PositionOf(o.fields, i);
    KeptFacts(o, n, f);
  }

  lemma AddedFieldZero(wide: FloatWidening, o: FeatureSchema, n: FeatureSchema, row: Buffer, f: nat)
    requires WidensFloats(wide) && Compatible(o, n) && |row| == RowSize(o.fields)
    requires f < |n.fields| && !Has(o.fields, n.fields[f].name)
    ensures FieldSlice(n.fields, TranslateRow(wide, o, n, row), f) == Zeros(ByteCount(n.fields[f]))
  {
    hide TranslateRow, FieldSlice;
    FieldOfTranslated(wide, o, n, row, f);
  }

  // ---------------------------------------------------------------------------
  // Two upgrades
  // ---------------------------------------------------------------------------

  lemma CompatibleTransitive(a: FeatureSchema, b: FeatureSchema, c: FeatureSchema)
    requires Compatible(a, b) && Compatible(b, c)
    ensures Compatible(a, c)
  {
    UpgradableTransitive(a, b, c);
  }

  lemma CellsCompose(wide: FloatWidening, a: FeatureSchema, b: FeatureSchema, c: FeatureSchema, row: Buffer, f: nat)
    requires WidensFloats(wide) && Compatible(a, b) && Compatible(b, c) && Compatible(a, c)
    requires |row| == RowSize(a.fields) && f < |c.fields|
    ensures TranslatedCell(wide, b, c, TranslateRow(wide, a, b, row), f) == TranslatedCell(wide, a, c, row, f)
  {
    hide Times, ItemSize, ElementCount, WidenField, Offset, RowSize, TranslateRow, FieldSlice, WidensFloats;
    hide NamesDistinct, Widens;
    var now := c.fields[f];
    var mid := TranslateRow(wide, a, b, row);
    if Has(b.fields, now.name) {
      var k := Position(b.fields, now.name);
      KeptFacts(b, c, f);
      FieldOfTranslated(wide, a, b, row, k);
      var bt, count := b.fields[k].dtype, ElementCount(now.shape);
      if Has(a.fields, now.name) {
        KeptFacts(a, b, k);
        var was := FieldNamed(a.fields, now.name);
        var bytes := FieldSlice(a.fields, row, Position(a.fields, now.name));
        WidenFieldCompose(wide, was.dtype, bt, now.dtype, bytes, count, count);
      } else {
        WidenFieldZeros(wide, bt, now.dtype, count, count);
      }
    } else {
      assert !Has(a.fields, now.name);
    }
  }

  /** Upgrading a row from `a` to `b` and then to `c` stores the same bytes as upgrading it
      from `a` to `c`. */
  lemma TranslateRowCompose(wide: FloatWidening, a: FeatureSchema, b: FeatureSchema, c: FeatureSchema, row: Buffer)
    requires WidensFloats(wide) && Compatible(a, b) && Compatible(b, c) && |row| == RowSize(a.fields)
    ensures Compatible(a, c)
    ensures TranslateRow(wide, b, c, TranslateRow(wide, a, b, row)) == TranslateRow(wide, a, c, row)
  {
    hide RowSize, ByteCount, Compatible, TranslatedCell, WidensFloats, TranslatedCells, ScatteredRow;
    CompatibleTransitive(a, b, c);
    var n := |c.fields|;
    var two := TranslatedCells(wide, b, c, TranslateRow(wide, a, b, row));
    var one := TranslatedCells(wide, a, c, row);
    forall f | 0 <= f < n
      ensures two[f][0] == one[f][0]
    {
      CellsCompose(wide, a, b, c, row, f);
    }
    ScatteredSame(c.fields, two, 0, one, 0, n);
  }

  ghost predicate RowsSized(s: FeatureSchema, m: map<Buffer, Buffer>)
  {
    forall id {:trigger m[id]} :: id in m ==> |m[id]| == RowSize(s.fields)
  }

  /** The whole segment's contents after an upgrade. */
  ghost function TranslatedMap(wide: FloatWidening, o: FeatureSchema, n: FeatureSchema,
                               m: map<Buffer, Buffer>): (r: map<Buffer, Buffer>)
    requires WidensFloats(wide) && Compatible(o, n) && RowsSized(o, m)
    ensures r.Keys == m.Keys && RowsSized(n, r)
  {
    map id | id in m :: TranslateRow(wide, o, n, m[id])
  }

  /** An upgrade through an intermediate schema yields the same entities and the same rows. */
  lemma TranslatedMapCompose(wide: FloatWidening, a: FeatureSchema, b: FeatureSchema, c: FeatureSchema,
                             m: map<Buffer, Buffer>)
    requires WidensFloats(wide) && Compatible(a, b) && Compatible(b, c) && RowsSized(a, m)
    ensures Compatible(a, c)
    ensures TranslatedMap(wide, b, c, TranslatedMap(wide, a, b, m)) == TranslatedMap(wide, a, c, m)
  {
    hide TranslateRow, Compatible, WidensFloats, RowSize;
    CompatibleTransitive(a, b, c);
    var two, one := TranslatedMap(wide, b, c, TranslatedMap(wide, a, b, m)), TranslatedMap(wide, a, c, m);
    forall id | id in m
      ensures two[id] == one[id]
    {
      TranslateRowCompose(wide, a, b, c, m[id]);
    }
    assert two.Keys == m.Keys && one.Keys == m.Keys;
  }
}
