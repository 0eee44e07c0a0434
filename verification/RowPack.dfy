/** Row packing: the consumer's plan-driven packer for wire-ordered values, and the
    keyword packer. Number encodings are parameters; only their lengths are assumed. */
module RowPack {
  import opened Bits
  import opened Bytes
  import opened Layout
  import opened Sorting
  import opened Schema

  /** A value on the wire: a bare number, or a list flattened in row-major order. */
  datatype Value<N> = Scalar(n: N) | Listed(flat: seq<N>)

  /** `packs` and `casts` say what `struct` and NumPy accept; both store `encode`. */
  datatype Codec<!N, F> = Codec(
    encode: (DType, N) -> Buffer,
    packs: (DType, N) -> bool,
    casts: (DType, N) -> bool,
    asFloat: (DType, Buffer) -> F)

  ghost predicate CodecOk<N(!new), F>(c: Codec<N, F>)
  {
    forall d, n {:trigger c.encode(d, n)} :: c.packs(d, n) || c.casts(d, n) ==> |c.encode(d, n)| == ItemSize(d)
  }

  function Flat<N>(v: Value<N>): seq<N>
  {
    match v
    case Scalar(n) => [n]
    case Listed(flat) => flat
  }

  function EncodeAll<N, F>(c: Codec<N, F>, d: DType, xs: seq<N>): (r: Buffer)
    ensures |xs| == 1 ==> r == c.encode(d, xs[0])
  {
    if |xs| == 0 then [] else EncodeAll(c, d, xs[..|xs| - 1]) + c.encode(d, xs[|xs| - 1])
  }

  lemma {:induction false} EncodeAllLength<N, F>(c: Codec<N, F>, d: DType, xs: seq<N>)
    requires forall i {:trigger xs[i]} :: 0 <= i < |xs| ==> |c.encode(d, xs[i])| == ItemSize(d)
    ensures |EncodeAll(c, d, xs)| == Times(|xs|, ItemSize(d))
  {
    if xs != [] {
      EncodeAllLength(c, d, xs[..|xs| - 1]);
    }
  }

  /** Element `j` of an encoded list. */
  lemma {:induction false} EncodedElement<N, F>(c: Codec<N, F>, d: DType, xs: seq<N>, j: nat)
    requires j < |xs| && forall i {:trigger xs[i]} :: 0 <= i < |xs| ==> |c.encode(d, xs[i])| == ItemSize(d)
    ensures |EncodeAll(c, d, xs)| == Times(|xs|, ItemSize(d))
    ensures Times(j, ItemSize(d)) + ItemSize(d) <= |EncodeAll(c, d, xs)|
    ensures EncodeAll(c, d, xs)[Times(j, ItemSize(d))..Times(j, ItemSize(d)) + ItemSize(d)] == c.encode(d, xs[j])
  {
    var init := xs[..|xs| - 1];
    EncodeAllLength(c, d, xs);
    EncodeAllLength(c, d, init);
    if j < |init| {
      EncodedElement(c, d, init, j);
    }
  }

  /** What the array pass accepts for a field: the right element count, castable elements. */
  predicate Casts<N, F>(c: Codec<N, F>, f: Field, v: Value<N>)
  {
    |Flat(v)| == ElementCount(f.shape) && forall i :: 0 <= i < |Flat(v)| ==> c.casts(f.dtype, Flat(v)[i])
  }

  /** What the wire packer accepts: scalars go through `struct`, which takes no lists. */
  predicate Fits<N, F>(c: Codec<N, F>, f: Field, v: Value<N>)
  {
    if f.shape == [] then v.Scalar? && c.packs(f.dtype, v.n) else Casts(c, f, v)
  }

  function FieldBytes<N, F>(c: Codec<N, F>, f: Field, v: Value<N>): Buffer
  {
    EncodeAll(c, f.dtype, Flat(v))
  }

  lemma FieldBytesLength<N(!new), F>(c: Codec<N, F>, f: Field, v: Value<N>)
    requires CodecOk(c) && (Fits(c, f, v) || Casts(c, f, v))
    ensures |FieldBytes(c, f, v)| == ByteCount(f)
  {
    var xs := Flat(v);
    forall i | 0 <= i < |xs|
      ensures |c.encode(f.dtype, xs[i])| == ItemSize(f.dtype)
    {
      assert Flat(v)[i] == xs[i];
    }
    EncodeAllLength(c, f.dtype, xs);
    assert f.shape == [] ==> ElementCount(f.shape) == 1;
  }

  /** Field `i` of the row holds exactly the encoding of `v`. */
  ghost predicate HoldsField<N, F>(c: Codec<N, F>, s: Fields, row: Buffer, i: nat, v: Value<N>)
    requires i < |s|
  {
    var off := Offset(s, 0, i);
    off + ByteCount(s[i]) <= |row| && row[off..off + ByteCount(s[i])] == FieldBytes(c, s[i], v)
  }

  /** NumPy's test, said of the value itself: as many numbers as the field has elements. */
  predicate Fills<N, F>(c: Codec<N, F>, f: Field, v: Value<N>)
  {
    match v
    case Scalar(n) => ElementCount(f.shape) == 1 && c.casts(f.dtype, n)
    case Listed(flat) =>
      |flat| == ElementCount(f.shape) && forall j {:trigger flat[j]} :: 0 <= j < |flat| ==> c.casts(f.dtype, flat[j])
  }

  /** What each packer accepts: `struct` takes one number for a scalar field, NumPy as many as the
      field has elements. */
  lemma FitsMeans<N, F>(c: Codec<N, F>, f: Field, v: Value<N>)
    ensures Casts(c, f, v) <==> Fills(c, f, v)
    ensures f.shape == [] ==> (Fits(c, f, v) <==> v.Scalar? && c.packs(f.dtype, v.n))
    ensures f.shape != [] ==> (Fits(c, f, v) <==> Fills(c, f, v))
  {
    hide ElementCount;
    var xs := Flat(v);
    if Casts(c, f, v) {
      forall j | 0 <= j < |xs|
        ensures c.casts(f.dtype, xs[j])
      {
        assert c.casts(f.dtype, Flat(v)[j]);
      }
      if v.Scalar? {
        assert xs[0] == v.n;
      }
    }
  }

  /** Field `d` of the row has the value's numbers, each at its own place: number `j` of a list
      at the field's offset plus `j` items. */
  ghost predicate StoresNumbers<N, F>(c: Codec<N, F>, s: Fields, row: Buffer, d: nat, v: Value<N>)
    requires d < |s|
  {
    var off, t := Offset(s, 0, d), s[d].dtype;
    match v
    case Scalar(n) =>
      ElementCount(s[d].shape) == 1 && off + ItemSize(t) <= |row| && row[off..off + ItemSize(t)] == c.encode(t, n)
    case Listed(flat) =>
      |flat| == ElementCount(s[d].shape)
      && forall j {:trigger flat[j]} :: 0 <= j < |flat| ==>
           var at := off + Times(j, ItemSize(t));
           at + ItemSize(t) <= |row| && row[at..at + ItemSize(t)] == c.encode(t, flat[j])
  }

  lemma HeldNumbers<N(!new), F>(c: Codec<N, F>, s: Fields, row: Buffer, d: nat, v: Value<N>)
    requires CodecOk(c) && d < |s| && HoldsField(c, s, row, d, v) && (Fits(c, s[d], v) || Casts(c, s[d], v))
    ensures StoresNumbers(c, s, row, d, v)
  {
    hide Offset, Times, ElementCount, EncodeAll;
    var off, t, xs := Offset(s, 0, d), s[d].dtype, Flat(v);
    FieldBytesLength(c, s[d], v);
    assert ElementCount(s[d].shape) == |xs| by {
      ScalarCount(s[d]);
    }
    forall i | 0 <= i < |xs|
      ensures |c.encode(t, xs[i])| == ItemSize(t)
    {
      assert Flat(v)[i] == xs[i];
    }
    var bytes := row[off..off + ByteCount(s[d])];
    forall j | 0 <= j < |xs|
      ensures off + Times(j, ItemSize(t)) + ItemSize(t) <= |row|
      ensures row[off + Times(j, ItemSize(t))..off + Times(j, ItemSize(t)) + ItemSize(t)] == c.encode(t, xs[j])
    {
      EncodedElement(c, t, xs, j);
      SliceOfSlice(row, off, off + ByteCount(s[d]), Times(j, ItemSize(t)), Times(j, ItemSize(t)) + ItemSize(t));
    }
    if v.Scalar? {
      assert xs[0] == v.n && Times(0, ItemSize(t)) == 0 by {
        TimesStep(0, ItemSize(t));
      }
    }
  }

  lemma ScalarCount(f: Field)
    ensures f.shape == [] ==> ElementCount(f.shape) == 1
  {
  }

  lemma SliceOfSlice(b: Buffer, lo: nat, hi: nat, p: nat, q: nat)
    requires lo <= hi <= |b| && p <= q <= hi - lo
    ensures b[lo..hi][p..q] == b[lo + p..lo + q]
  {
    forall i | 0 <= i < q - p
      ensures b[lo..hi][p..q][i] == b[lo + p..lo + q][i]
    {
      assert b[lo..hi][p + i] == b[lo + (p + i)];
    }
  }

  // ---------------------------------------------------------------------------
  // The consolidated struct
  // ---------------------------------------------------------------------------

  datatype Code = Pad(n: nat) | Num(d: DType)

  function Width(code: Code): nat
  {
    match code
    case Pad(n) => n
    case Num(d) => ItemSize(d)
  }

  function Span(fmt: seq<Code>): nat
  {
    if fmt == [] then 0 else Span(fmt[..|fmt| - 1]) + Width(fmt[|fmt| - 1])
  }

  function Args(fmt: seq<Code>): nat
  {
    if fmt == [] then 0 else Args(fmt[..|fmt| - 1]) + (if fmt[|fmt| - 1].Num? then 1 else 0)
  }

  /** What `pack_into` writes: each number's encoding, and at pads whatever `junk` holds. */
  ghost function Packed<N, F>(c: Codec<N, F>, fmt: seq<Code>, args: seq<N>, junk: Buffer): Buffer
    requires Args(fmt) <= |args| && Span(fmt) <= |junk|
  {
    if fmt == [] then []
    else
      var init := fmt[..|fmt| - 1];
      Packed(c, init, args, junk) + Piece(c, fmt[|fmt| - 1], args[Args(init)..], junk[Span(init)..])
  }

  /** What one code writes, given the arguments and the junk still ahead of it. */
  ghost function Piece<N, F>(c: Codec<N, F>, code: Code, args: seq<N>, junk: Buffer): Buffer
    requires Width(code) <= |junk| && (code.Num? ==> args != [])
  {
    match code
    case Pad(n) => junk[..n]
    case Num(d) => c.encode(d, args[0])
  }

  ghost predicate ArgsFit<N, F>(c: Codec<N, F>, fmt: seq<Code>, args: seq<N>)
    requires Args(fmt) <= |args|
  {
    fmt == [] ||
    (var init, last := fmt[..|fmt| - 1], fmt[|fmt| - 1];
     ArgsFit(c, init, args) && (last.Num? ==> c.packs(last.d, args[Args(init)])))
  }

  lemma {:induction false} PackedLength<N(!new), F>(c: Codec<N, F>, fmt: seq<Code>, args: seq<N>, junk: Buffer)
    requires CodecOk(c) && Args(fmt) <= |args| && Span(fmt) <= |junk| && ArgsFit(c, fmt, args)
    ensures |Packed(c, fmt, args, junk)| == Span(fmt)
  {
    if fmt != [] {
      PackedLength(c, fmt[..|fmt| - 1], args, junk);
    }
  }

  lemma {:induction false} PrefixFits<N, F>(c: Codec<N, F>, fmt: seq<Code>, args: seq<N>, k: nat)
    requires k <= |fmt| && Args(fmt) <= |args|
    ensures Span(fmt[..k]) <= Span(fmt) && Args(fmt[..k]) <= Args(fmt)
    ensures ArgsFit(c, fmt, args) ==> ArgsFit(c, fmt[..k], args)
    decreases |fmt|
  {
    if k < |fmt| {
      PrefixFits(c, fmt[..|fmt| - 1], args, k);
      assert fmt[..|fmt| - 1][..k] == fmt[..k];
    } else {
      assert fmt[..k] == fmt;
    }
  }

  lemma PrefixStep(fmt: seq<Code>, k: nat)
    requires k < |fmt|
    ensures fmt[..k + 1] != [] && fmt[..k + 1][..|fmt[..k + 1]| - 1] == fmt[..k]
    ensures fmt[..k + 1][|fmt[..k + 1]| - 1] == fmt[k]
    ensures Span(fmt[..k + 1]) == Span(fmt[..k]) + Width(fmt[k])
    ensures Args(fmt[..k + 1]) == Args(fmt[..k]) + (if fmt[k].Num? then 1 else 0)
  {
  }

  lemma SpliceAppend(b: Buffer, p: Buffer, e: Buffer)
    requires |p| + |e| <= |b|
    ensures Splice(Splice(b, 0, p), |p|, e) == Splice(b, 0, p + e)
  {
  }

  lemma SpliceKeeps(b: Buffer, junk: Buffer, p: Buffer, n: nat)
    requires |p| + n <= |junk| <= |b|
    ensures Splice(Splice(b, 0, junk), 0, p) == Splice(Splice(b, 0, junk), 0, p + junk[|p|..|p| + n])
  {
  }

  /** `Struct.pack_into(out, 0, *args)`. On a number it cannot pack it raises with the
      span in an unknown state. */
  method PackInto<N(!new), F>(out: array<byte>, c: Codec<N, F>, fmt: seq<Code>, args: seq<N>, junk: Buffer)
    returns (ok: bool)
    requires CodecOk(c) && Args(fmt) == |args| && |junk| == Span(fmt) <= out.Length
    modifies out
    ensures ok <==> ArgsFit(c, fmt, args)
    ensures ok ==> |Packed(c, fmt, args, junk)| == Span(fmt)
    ensures ok ==> out[..] == Splice(Splice(old(out[..]), 0, junk), 0, Packed(c, fmt, args, junk))
  {
    hide ArgsFit, Packed, Span, Args, Splice, Piece;
    ghost var was := out[..];
    WriteAt(out, 0, junk);
    var cursor, next := 0, 0;
    Nothing(c, fmt, args, junk, Splice(was, 0, junk));
    for k := 0 to |fmt|
      invariant cursor == Span(fmt[..k]) <= |junk| && next == Args(fmt[..k]) <= |args|
      invariant ArgsFit(c, fmt[..k], args)
      invariant |Packed(c, fmt[..k], args, junk)| == cursor
      invariant out[..] == Splice(Splice(was, 0, junk), 0, Packed(c, fmt[..k], args, junk))
    {
      PrefixStep(fmt, k);
      PrefixFits(c, fmt, args, k + 1);
      PackedStep(c, fmt, args, junk, k);
      PieceIs(c, fmt[k], args, next, junk, cursor);
      ghost var p := Packed(c, fmt[..k], args, junk);
      if fmt[k].Num? {
        if !c.packs(fmt[k].d, args[next]) {
          return false;
        }
        SpliceAppend(Splice(was, 0, junk), p, c.encode(fmt[k].d, args[next]));
        WriteAt(out, cursor, c.encode(fmt[k].d, args[next]));
        next := next + 1;
      } else {
        SpliceKeeps(was, junk, p, Width(fmt[k]));
      }
      cursor := cursor + Width(fmt[k]);
    }
    assert fmt[..|fmt|] == fmt;
    return true;
  }

  lemma Nothing<N, F>(c: Codec<N, F>, fmt: seq<Code>, args: seq<N>, junk: Buffer, b: Buffer)
    requires Args(fmt) <= |args| && Span(fmt) <= |junk|
    ensures Span(fmt[..0]) == 0 && Args(fmt[..0]) == 0
    ensures ArgsFit(c, fmt[..0], args) && Packed(c, fmt[..0], args, junk) == []
    ensures Splice(b, 0, []) == b
  {
  }

  lemma PieceIs<N, F>(c: Codec<N, F>, code: Code, args: seq<N>, a: nat, junk: Buffer, at: nat)
    requires a <= |args| && at + Width(code) <= |junk| && (code.Num? ==> a < |args|)
    ensures Piece(c, code, args[a..], junk[at..]) == if code.Num? then c.encode(code.d, args[a])
              else junk[at..at + code.n]
  {
  }

  lemma PackedStep<N(!new), F>(c: Codec<N, F>, fmt: seq<Code>, args: seq<N>, junk: Buffer, k: nat)
    requires k < |fmt| && Args(fmt) <= |args| && Span(fmt) <= |junk|
    ensures Span(fmt[..k]) <= Span(fmt[..k + 1]) <= |junk| && Args(fmt[..k]) <= Args(fmt[..k + 1]) <= |args|
    ensures Span(fmt[..k + 1]) == Span(fmt[..k]) + Width(fmt[k])
    ensures fmt[k].Num? ==> Args(fmt[..k]) < |args|
    ensures ArgsFit(c, fmt[..k + 1], args)
       <==> ArgsFit(c, fmt[..k], args) && (fmt[k].Num? ==> c.packs(fmt[k].d, args[Args(fmt[..k])]))
    ensures Packed(c, fmt[..k + 1], args, junk) ==
            Packed(c, fmt[..k], args, junk) + Piece(c, fmt[k], args[Args(fmt[..k])..], junk[Span(fmt[..k])..])
  {
    PrefixStep(fmt, k);
    PrefixFits(c, fmt, args, k + 1);
    LastCode(c, fmt[..k + 1], fmt[..k], fmt[k], args, junk);
    hide ArgsFit, Packed, Span, Args, Piece;
  }

  lemma LastCode<N, F>(c: Codec<N, F>, fmt: seq<Code>, init: seq<Code>, last: Code, args: seq<N>, junk: Buffer)
    requires fmt != [] && fmt[..|fmt| - 1] == init && fmt[|fmt| - 1] == last
    requires Args(fmt) <= |args| && Span(fmt) <= |junk|
    ensures Span(fmt) == Span(init) + Width(last) && Args(fmt) == Args(init) + (if last.Num? then 1 else 0)
    ensures ArgsFit(c, fmt, args) <==> ArgsFit(c, init, args) && (last.Num? ==> c.packs(last.d, args[Args(init)]))
    ensures Packed(c, fmt, args, junk) ==
            Packed(c, init, args, junk) + Piece(c, last, args[Args(init)..], junk[Span(init)..])
  {
    assert Span(fmt) == Span(init) + Width(last) && Args(fmt) == Args(init) + (if last.Num? then 1 else 0);
    LastFits(c, fmt, init, last, args);
    LastPacked(c, fmt, init, last, args, junk);
    hide ArgsFit, Packed, Span, Args;
  }

  lemma LastFits<N, F>(c: Codec<N, F>, fmt: seq<Code>, init: seq<Code>, last: Code, args: seq<N>)
    requires fmt != [] && fmt[..|fmt| - 1] == init && fmt[|fmt| - 1] == last
    requires Args(fmt) <= |args| && Args(fmt) == Args(init) + (if last.Num? then 1 else 0)
    ensures ArgsFit(c, fmt, args) <==> ArgsFit(c, init, args) && (last.Num? ==> c.packs(last.d, args[Args(init)]))
  {
    hide Args;
  }

  lemma LastPacked<N, F>(c: Codec<N, F>, fmt: seq<Code>, init: seq<Code>, last: Code, args: seq<N>, junk: Buffer)
    requires fmt != [] && fmt[..|fmt| - 1] == init && fmt[|fmt| - 1] == last
    requires Args(fmt) <= |args| && Span(fmt) <= |junk|
    requires Span(fmt) == Span(init) + Width(last) && Args(fmt) == Args(init) + (if last.Num? then 1 else 0)
    ensures Packed(c, fmt, args, junk) ==
            Packed(c, init, args, junk) + Piece(c, last, args[Args(init)..], junk[Span(init)..])
  {
    hide Args, Span, Piece;
  }

  // ---------------------------------------------------------------------------
  // The plan
  // ---------------------------------------------------------------------------

  /** Declaration indices, among the first `n`, of the scalar (or shaped) fields. */
  function Chosen(s: Fields, scalar: bool, n: nat): (ds: seq<nat>)
    requires n <= |s|
    ensures forall k :: 0 <= k < |ds| ==> ds[k] < n && (s[ds[k]].shape == []) == scalar
  {
    if n == 0 then []
    else Chosen(s, scalar, n - 1) + (if (s[n - 1].shape == []) == scalar then [n - 1] else [])
  }

  lemma {:induction false} ChosenAll(s: Fields, scalar: bool, n: nat, d: nat)
    requires d < n <= |s| && (s[d].shape == []) == scalar
    ensures d in Chosen(s, scalar, n)
    decreases n
  {
    if d < n - 1 {
      ChosenAll(s, scalar, n - 1, d);
    }
  }

  function FieldCode(f: Field): Code
  {
    if f.shape == [] then Num(f.dtype) else Pad(ByteCount(f))
  }

  /** The consolidated format of the first `n` fields in byte order. */
  function Format(s: Fields, n: nat): seq<Code>
    requires n <= |s|
  {
    if n == 0 then []
    else
      var gap := if Offset(s, 0, n - 1) > Cursor(s, 0, n - 1) then [Pad(Offset(s, 0, n - 1) - Cursor(s, 0, n - 1))]
        else [];
      Format(s, n - 1) + gap + [FieldCode(s[n - 1])]
  }

  datatype Plan = Plan(fmt: seq<Code>, scalarIndices: seq<nat>, shapedSlots: seq<(nat, Extent)>, expectedLen: nat,
                       rowSize: nat)

  /** `at[d]` is the position of declared field `d` in the caller's values. */
  ghost predicate WirePositions(s: Fields, H: NameHash, at: seq<nat>)
  {
    |at| == |s| && forall d :: 0 <= d < |s| ==> at[d] < |s| && WireOrder(s, H)[at[d]] == d
  }

  ghost predicate PlanFor(s: Fields, H: NameHash, at: seq<nat>, plan: Plan)
  {
    && WirePositions(s, H, at)
    && plan.fmt == Format(s, |s|)
    && (var ds := Chosen(s, true, |s|);
        |plan.scalarIndices| == |ds| && forall k :: 0 <= k < |ds| ==> plan.scalarIndices[k] == at[ds[k]])
    && (var ds := Chosen(s, false, |s|);
        |plan.shapedSlots| == |ds| && forall k :: 0 <= k < |ds| ==>
          plan.shapedSlots[k] == (at[ds[k]], FieldExtent(s, H, ds[k])))
    && plan.expectedLen == |s| && plan.rowSize == RowSize(s)
  }

  lemma {:induction false} IncreasingIsIdentity(q: seq<nat>, k: nat)
    requires forall i, j {:trigger q[i], q[j]} :: 0 <= i < j < |q| ==> q[i] < q[j]
    requires forall i {:trigger q[i]} :: 0 <= i < |q| ==> q[i] < |q|
    requires k < |q|
    ensures k <= q[k] && q[|q| - 1 - k] <= |q| - 1 - k
  {
    if k > 0 {
      IncreasingIsIdentity(q, k - 1);
      assert q[k - 1] < q[k] && q[|q| - 1 - k] < q[|q| - k];
    }
  }

  lemma ByteCountPositive(f: Field)
    requires ValidField(f)
    ensures ByteCount(f) > 0
  {
    ElementsPositive(f.shape);
    TimesIsProduct(ElementCount(f.shape), ItemSize(f.dtype));
    assert ElementCount(f.shape) * ItemSize(f.dtype) >= ItemSize(f.dtype) by {
      MulGrows(ItemSize(f.dtype), ElementCount(f.shape));
    }
  }

  lemma {:induction false} ElementsPositive(shape: seq<nat>)
    requires forall i :: 0 <= i < |shape| ==> shape[i] > 0
    ensures ElementCount(shape) > 0
  {
    if shape != [] {
      ElementsPositive(shape[..|shape| - 1]);
      MulGrows(ElementCount(shape[..|shape| - 1]), shape[|shape| - 1]);
    }
  }

  /** Sorting the hash-ordered rows by byte offset restores declaration order. */
  lemma ByOffsetIsDeclaration(s: Fields, H: NameHash, offsets: seq<int>)
    requires ValidSchema(s, H) && |offsets| == |s|
    requires forall k :: 0 <= k < |s| ==> offsets[k] == Offset(s, 0, WireOrder(s, H)[k])
    ensures WirePositions(s, H, Argsort(offsets, |s|))
  {
    hide Argsort, Offset, Cursor, ValidField, ValidSchema, Hashes;
    var order, p := WireOrder(s, H), Argsort(offsets, |s|);
    var q := seq(|s|, k requires 0 <= k < |s| => order[p[k]]);
    forall i, j | 0 <= i < j < |s|
      ensures q[i] < q[j]
    {
      OffsetsInOrder(s, H, offsets, i, j);
    }
    forall d | 0 <= d < |s|
      ensures order[p[d]] == d
    {
      IncreasingIsIdentity(q, d);
      IncreasingIsIdentity(q, |s| - 1 - d);
      assert q[d] == order[p[d]];
    }
    ArgsortOk(offsets, |s|);
  }

  lemma OffsetsInOrder(s: Fields, H: NameHash, offsets: seq<int>, i: nat, j: nat)
    requires ValidSchema(s, H) && |offsets| == |s| && i < j < |s|
    requires forall k :: 0 <= k < |s| ==> offsets[k] == Offset(s, 0, WireOrder(s, H)[k])
    ensures var p := Argsort(offsets, |s|); p[i] < |s| && p[j] < |s| && WireOrder(s, H)[p[i]] < WireOrder(s, H)[p[j]]
  {
    hide Argsort, Offset, Cursor, ValidField, ValidSchema, Hashes;
    var order, p := WireOrder(s, H), Argsort(offsets, |s|);
    WireOrderOk(s, H);
    ArgsortOk(offsets, |s|);
    assert offsets[p[i]] <= offsets[p[j]];
    assert order[p[i]] != order[p[j]] by { assert p[i] < p[j] || p[j] < p[i]; }
    OffsetOrder(s, H, order[p[i]], order[p[j]]);
  }

  lemma OffsetOrder(s: Fields, H: NameHash, i: nat, j: nat)
    requires ValidSchema(s, H) && i < |s| && j < |s| && i != j && Offset(s, 0, i) <= Offset(s, 0, j)
    ensures i < j
  {
    if j < i {
      OffsetsIncrease(s, j, i);
    }
  }

  lemma OffsetsIncrease(s: Fields, i: nat, j: nat)
    requires i < j < |s| && ValidField(s[i])
    ensures Offset(s, 0, i) < Offset(s, 0, j)
  {
    hide AlignUp, Times, ElementCount, ValidField;
    OffsetSpan(s, 0, i);
    OffsetSpan(s, 0, j);
    CursorGrows(s, 0, i + 1, j);
    ByteCountPositive(s[i]);
  }

  /** The values of the scalar fields among the first `n`. */
  ghost predicate ScalarsListed(s: Fields, at: seq<nat>, indices: seq<nat>, n: nat)
    requires n <= |s| == |at|
  {
    |indices| == |Chosen(s, true, n)| && forall k :: 0 <= k < |indices| ==> indices[k] == at[Chosen(s, true, n)[k]]
  }

  /** The values and extents of the shaped fields among the first `n`. */
  ghost predicate ShapedListed(s: Fields, H: NameHash, at: seq<nat>, slots: seq<(nat, Extent)>, n: nat)
    requires n <= |s| == |at|
  {
    && |slots| == |Chosen(s, false, n)|
    && forall k :: 0 <= k < |slots| ==>
         slots[k] == (at[Chosen(s, false, n)[k]], FieldExtent(s, H, Chosen(s, false, n)[k]))
  }

  lemma ListedStep(s: Fields, H: NameHash, at: seq<nat>, indices: seq<nat>, slots: seq<(nat, Extent)>, n: nat)
    requires n < |s| == |at| && ScalarsListed(s, at, indices, n) && ShapedListed(s, H, at, slots, n)
    ensures ScalarsListed(s, at, if s[n].shape == [] then indices + [at[n]] else indices, n + 1)
    ensures ShapedListed(s, H, at, if s[n].shape == [] then slots else slots + [(at[n], FieldExtent(s, H, n))], n + 1)
  {
    hide FieldExtent;
    var ds, es := Chosen(s, true, n), Chosen(s, false, n);
    assert Chosen(s, true, n + 1) == ds + if s[n].shape == [] then [n] else [];
    assert Chosen(s, false, n + 1) == es + if s[n].shape == [] then [] else [n];
    hide Chosen;
  }

  lemma FormatNext(s: Fields, n: nat)
    requires n < |s|
    ensures Cursor(s, 0, n) <= Offset(s, 0, n) && Cursor(s, 0, n + 1) == Offset(s, 0, n) + ByteCount(s[n])
    ensures var gap := if Offset(s, 0, n) > Cursor(s, 0, n) then [Pad(Offset(s, 0, n) - Cursor(s, 0, n))] else [];
            Format(s, n + 1) ==
              Format(s, n) + gap + [if s[n].shape == [] then Num(s[n].dtype) else Pad(ByteCount(s[n]))]
    ensures s[n].shape == [] ==> ByteCount(s[n]) == ItemSize(s[n].dtype)
  {
    hide AlignUp, Times, ElementCount, ByteCount, Offset, Cursor;
    OffsetSpan(s, 0, n);
    CodeWidth(s[n]);
  }

  /** Walk the fields in byte order, emitting pads for gaps and shaped regions. */
  method BuildPlan(s: Fields, H: NameHash) returns (plan: Plan, ghost at: seq<nat>)
    requires ValidSchema(s, H)
    ensures PlanFor(s, H, at, plan)
    ensures exists places: seq<nat> :: PlanFor(s, H, places, plan)
  {
    hide AlignUp, Times, ElementCount, ValidField, Argsort, Cursor, Offset, Format, Chosen, ByteCount, ScalarsListed;
    hide ShapedListed;
    var table := ComputeRowOffsetTable(s, H);
    var rows := table.rows;
    var offsets := seq(|s|, k requires 0 <= k < |s| => rows[k].byteOffset as int);
    var byOffset := Argsort(offsets, |s|);
    ByOffsetIsDeclaration(s, H, offsets);
    at := byOffset;
    hide WireOrder;
    var fmt: seq<Code> := [];
    var scalarIndices: seq<nat> := [];
    var shapedSlots: seq<(nat, Extent)> := [];
    var cursor := 0;
    NothingListed(s, H, at);
    for d := 0 to |s|
      invariant cursor == Cursor(s, 0, d)
      invariant fmt == Format(s, d)
      invariant ScalarsListed(s, at, scalarIndices, d) && ShapedListed(s, H, at, shapedSlots, d)
    {
      var valueIdx := byOffset[d];
      var row := rows[valueIdx];
      assert row == FieldExtent(s, H, d);
      FormatNext(s, d);
      ListedStep(s, H, at, scalarIndices, shapedSlots, d);
      var gap: seq<Code> := [];
      if row.byteOffset > cursor {
        gap := [Pad(row.byteOffset - cursor)];
        cursor := row.byteOffset;
      }
      if s[WireOrder(s, H)[valueIdx]].shape == [] {
        fmt := fmt + gap + [Num(row.dtype)];
        scalarIndices := scalarIndices + [valueIdx];
        cursor := cursor + ItemSize(row.dtype);
      } else {
        fmt := fmt + gap + [Pad(row.byteCount)];
        shapedSlots := shapedSlots + [(valueIdx, row)];
        cursor := cursor + row.byteCount;
      }
    }
    var size := ComputeRowSize(s, H, rows);
    plan := Plan(fmt, scalarIndices, shapedSlots, |rows|, size);
    PlanListed(s, H, at, plan);
  }

  lemma NothingListed(s: Fields, H: NameHash, at: seq<nat>)
    requires |at| == |s|
    ensures Cursor(s, 0, 0) == 0 && Format(s, 0) == [] && ScalarsListed(s, at, [], 0) && ShapedListed(s, H, at, [], 0)
  {
  }

  lemma PlanListed(s: Fields, H: NameHash, at: seq<nat>, plan: Plan)
    requires WirePositions(s, H, at) && plan.fmt == Format(s, |s|) && plan.expectedLen == |s|
    requires plan.rowSize == RowSize(s)
    requires ScalarsListed(s, at, plan.scalarIndices, |s|) && ShapedListed(s, H, at, plan.shapedSlots, |s|)
    ensures PlanFor(s, H, at, plan)
  {
    hide Format, Chosen, RowSize, FieldExtent, WireOrder;
  }

  lemma CodeWidth(f: Field)
    ensures Width(FieldCode(f)) == ByteCount(f)
    ensures f.shape == [] ==> ByteCount(f) == ItemSize(f.dtype)
  {
    if f.shape == [] {
      assert ElementCount(f.shape) == 1;
      assert Times(1, ItemSize(f.dtype)) == Times(0, ItemSize(f.dtype)) + ItemSize(f.dtype);
    }
  }

  // ---------------------------------------------------------------------------
  // Where the struct puts each scalar
  // ---------------------------------------------------------------------------

  lemma SpanAppend(fmt: seq<Code>, code: Code)
    ensures Span(fmt + [code]) == Span(fmt) + Width(code)
    ensures Args(fmt + [code]) == Args(fmt) + (if code.Num? then 1 else 0)
  {
    assert (fmt + [code])[..|fmt|] == fmt;
  }

  lemma FormatStep(s: Fields, n: nat)
    requires n < |s|
    ensures Span(Format(s, n + 1)) == Span(Format(s, n)) + (Offset(s, 0, n) - Cursor(s, 0, n)) + ByteCount(s[n])
    ensures Args(Format(s, n + 1)) == Args(Format(s, n)) + (if s[n].shape == [] then 1 else 0)
  {
    hide AlignUp, Times, ElementCount, Span, Args, Cursor, Offset;
    OffsetSpan(s, 0, n);
    CodeWidth(s[n]);
    var pad := Pad(if Offset(s, 0, n) > Cursor(s, 0, n) then Offset(s, 0, n) - Cursor(s, 0, n) else 0);
    SpanAppend(Format(s, n), pad);
    SpanAppend(Format(s, n), FieldCode(s[n]));
    SpanAppend(Format(s, n) + [pad], FieldCode(s[n]));
    assert Format(s, n) + [] + [FieldCode(s[n])] == Format(s, n) + [FieldCode(s[n])];
  }

  lemma {:induction false} FormatSpan(s: Fields, n: nat)
    requires n <= |s|
    ensures Span(Format(s, n)) == Cursor(s, 0, n)
    ensures Args(Format(s, n)) == |Chosen(s, true, n)|
  {
    hide AlignUp, Times, ElementCount, Offset;
    if n > 0 {
      FormatSpan(s, n - 1);
      FormatStep(s, n - 1);
      OffsetSpan(s, 0, n - 1);
      hide Format, Span, Args, Cursor;
    }
  }

  lemma AppendCode<N, F>(c: Codec<N, F>, fmt: seq<Code>, code: Code, args: seq<N>, junk: Buffer)
    requires Args(fmt + [code]) <= |args| && Span(fmt + [code]) <= |junk|
    ensures Span(fmt + [code]) == Span(fmt) + Width(code)
    ensures Args(fmt + [code]) == Args(fmt) + (if code.Num? then 1 else 0)
    ensures ArgsFit(c, fmt + [code], args) <==>
              ArgsFit(c, fmt, args) && (code.Num? ==> c.packs(code.d, args[Args(fmt)]))
    ensures Packed(c, fmt + [code], args, junk) == Packed(c, fmt, args, junk)
                                                 + (if code.Num? then c.encode(code.d, args[Args(fmt)])
                                                    else junk[Span(fmt)..Span(fmt) + code.n])
  {
    hide ArgsFit, Packed, Span, Args, Piece;
    SpanAppend(fmt, code);
    assert (fmt + [code])[..|fmt + [code]| - 1] == fmt;
    LastCode(c, fmt + [code], fmt, code, args, junk);
    PieceIs(c, code, args, Args(fmt), junk, Span(fmt));
  }

  /** One more field: its gap, then its code. */
  lemma AppendField<N, F>(c: Codec<N, F>, s: Fields, n: nat, args: seq<N>, junk: Buffer)
    requires n < |s| && Args(Format(s, n + 1)) <= |args| && Span(Format(s, n + 1)) <= |junk|
    ensures Args(Format(s, n)) <= Args(Format(s, n + 1)) && Span(Format(s, n)) <= Span(Format(s, n + 1))
    ensures s[n].shape == [] ==> Args(Format(s, n)) < |args|
    ensures ArgsFit(c, Format(s, n + 1), args)
       <==> ArgsFit(c, Format(s, n), args) && (s[n].shape == [] ==> c.packs(s[n].dtype, args[Args(Format(s, n))]))
    ensures Offset(s, 0, n) <= |junk| && Cursor(s, 0, n) <= Offset(s, 0, n)
    ensures Offset(s, 0, n) + ByteCount(s[n]) <= |junk|
    ensures Packed(c, Format(s, n + 1), args, junk) ==
            Packed(c, Format(s, n), args, junk) + junk[Cursor(s, 0, n)..Offset(s, 0, n)]
            + (if s[n].shape == [] then c.encode(s[n].dtype, args[Args(Format(s, n))])
               else junk[Offset(s, 0, n)..Offset(s, 0, n) + ByteCount(s[n])])
  {
    hide AlignUp, Times, ElementCount, Span, Args, Cursor, Offset, Packed, ArgsFit;
    FormatSpan(s, n);
    FormatStep(s, n);
    OffsetSpan(s, 0, n);
    CodeWidth(s[n]);
    var was := Format(s, n);
    var gap := Offset(s, 0, n) - Cursor(s, 0, n);
    if gap > 0 {
      SpanAppend(was, Pad(gap));
      SpanAppend(was + [Pad(gap)], FieldCode(s[n]));
      AppendCode(c, was, Pad(gap), args, junk);
      AppendCode(c, was + [Pad(gap)], FieldCode(s[n]), args, junk);
    } else {
      assert was + [] + [FieldCode(s[n])] == was + [FieldCode(s[n])];
      AppendCode(c, was, FieldCode(s[n]), args, junk);
      assert junk[Cursor(s, 0, n)..Offset(s, 0, n)] == [];
    }
  }

  /** The struct puts every scalar exactly in its field's extent. */
  ghost predicate ScalarPlaced<N, F>(c: Codec<N, F>, s: Fields, image: Buffer, d: nat, x: N)
    requires d < |s|
  {
    var off := Offset(s, 0, d);
    off + ByteCount(s[d]) <= |image| && image[off..off + ByteCount(s[d])] == c.encode(s[d].dtype, x)
  }

  /** Each of the first scalars packs. */
  ghost predicate AllPack<N(!new), F>(c: Codec<N, F>, s: Fields, args: seq<N>, n: nat)
    requires n <= |s| && |Chosen(s, true, n)| <= |args|
  {
    forall k {:trigger args[k]} :: 0 <= k < |Chosen(s, true, n)| ==> c.packs(s[Chosen(s, true, n)[k]].dtype, args[k])
  }

  ghost predicate AllPlaced<N(!new), F>(c: Codec<N, F>, s: Fields, image: Buffer, args: seq<N>, n: nat)
    requires n <= |s| && |Chosen(s, true, n)| <= |args|
  {
    forall k {:trigger args[k]} :: 0 <= k < |Chosen(s, true, n)| ==>
      ScalarPlaced(c, s, image, Chosen(s, true, n)[k], args[k])
  }

  lemma AllPackStep<N(!new), F>(c: Codec<N, F>, s: Fields, args: seq<N>, n: nat)
    requires n < |s| && |Chosen(s, true, n + 1)| <= |args|
    ensures |Chosen(s, true, n + 1)| == |Chosen(s, true, n)| + if s[n].shape == [] then 1 else 0
    ensures AllPack(c, s, args, n + 1)
       <==> AllPack(c, s, args, n) && (s[n].shape == [] ==> c.packs(s[n].dtype, args[|Chosen(s, true, n)|]))
  {
    var ds, more := Chosen(s, true, n), Chosen(s, true, n + 1);
    assert forall k :: 0 <= k < |ds| ==> more[k] == ds[k];
    assert s[n].shape == [] ==> more[|ds|] == n;
    hide Chosen;
  }

  lemma PlacedGrow<N(!new), F>(c: Codec<N, F>, s: Fields, args: seq<N>, n: nat, was: Buffer, gap: Buffer, piece: Buffer)
    requires n < |s| && |Chosen(s, true, n + 1)| <= |args| && |Chosen(s, true, n)| <= |args|
    requires AllPlaced(c, s, was, args, n)
    requires |was + gap| == Offset(s, 0, n)
    requires s[n].shape == [] ==>
               |Chosen(s, true, n)| < |args| && piece == c.encode(s[n].dtype, args[|Chosen(s, true, n)|])
                 && |piece| == ByteCount(s[n])
    ensures AllPlaced(c, s, was + gap + piece, args, n + 1)
  {
    hide ScalarPlaced;
    var ds := Chosen(s, true, n);
    forall k | 0 <= k < |Chosen(s, true, n + 1)|
      ensures ScalarPlaced(c, s, was + gap + piece, Chosen(s, true, n + 1)[k], args[k])
    {
      if k < |ds| {
        PlacedStays(c, s, was, gap, ds[k], args[k]);
        PlacedStays(c, s, was + gap, piece, ds[k], args[k]);
      } else {
        PlacedLast(c, s, was + gap, piece, n, args[k]);
      }
    }
  }

  lemma {:induction false} ScalarsPlaced<N(!new), F>(c: Codec<N, F>, s: Fields, args: seq<N>, junk: Buffer, n: nat)
    requires CodecOk(c) && n <= |s| && |args| >= |Chosen(s, true, n)| && |junk| >= Cursor(s, 0, n)
    ensures Args(Format(s, n)) == |Chosen(s, true, n)| && Span(Format(s, n)) <= |junk|
    ensures ArgsFit(c, Format(s, n), args) <==> AllPack(c, s, args, n)
    ensures ArgsFit(c, Format(s, n), args) ==>
            var image := Packed(c, Format(s, n), args, junk);
            |image| == Cursor(s, 0, n) && AllPlaced(c, s, image, args, n)
  {
    hide *;
    FormatSpan(s, n);
    if n == 0 {
      NothingPlaced(c, s, args, junk);
    } else {
      FormatSpan(s, n - 1);
      OffsetSpan(s, 0, n - 1);
      AllPackStep(c, s, args, n - 1);
      ScalarsPlaced(c, s, args, junk, n - 1);
      AppendField(c, s, n - 1, args, junk);
      if ArgsFit(c, Format(s, n), args) {
        NextPlaced(c, s, args, junk, n - 1);
      }
    }
  }

  lemma NextPlaced<N(!new), F>(c: Codec<N, F>, s: Fields, args: seq<N>, junk: Buffer, n: nat)
    requires CodecOk(c) && n < |s| && |args| >= |Chosen(s, true, n + 1)| && |junk| >= Cursor(s, 0, n + 1)
    requires |Chosen(s, true, n + 1)| == |Chosen(s, true, n)| + if s[n].shape == [] then 1 else 0
    requires Args(Format(s, n)) == |Chosen(s, true, n)| && Span(Format(s, n)) <= |junk|
    requires Args(Format(s, n + 1)) == |Chosen(s, true, n + 1)| && Span(Format(s, n + 1)) <= |junk|
    requires ArgsFit(c, Format(s, n), args) && ArgsFit(c, Format(s, n + 1), args)
    requires var was := Packed(c, Format(s, n), args, junk);
             |was| == Cursor(s, 0, n) && AllPlaced(c, s, was, args, n)
    requires s[n].shape == [] ==> c.packs(s[n].dtype, args[|Chosen(s, true, n)|])
    ensures var image := Packed(c, Format(s, n + 1), args, junk);
            |image| == Cursor(s, 0, n + 1) && AllPlaced(c, s, image, args, n + 1)
  {
    assert s[n].shape == [] ==> |c.encode(s[n].dtype, args[|Chosen(s, true, n)|])| == ItemSize(s[n].dtype);
    hide *;
    AppendField(c, s, n, args, junk);
    OffsetSpan(s, 0, n);
    CodeWidth(s[n]);
    var was := Packed(c, Format(s, n), args, junk);
    var gap := junk[Cursor(s, 0, n)..Offset(s, 0, n)];
    var piece := if s[n].shape == [] then c.encode(s[n].dtype, args[Args(Format(s, n))])
                 else junk[Offset(s, 0, n)..Offset(s, 0, n) + ByteCount(s[n])];
    PlacedGrow(c, s, args, n, was, gap, piece);
  }

  lemma PlacedStays<N, F>(c: Codec<N, F>, s: Fields, image: Buffer, more: Buffer, d: nat, x: N)
    requires d < |s| && ScalarPlaced(c, s, image, d, x)
    ensures ScalarPlaced(c, s, image + more, d, x)
  {
    hide Offset, ByteCount;
    var off, size := Offset(s, 0, d), ByteCount(s[d]);
    assert (image + more)[off..off + size] == image[off..off + size];
  }

  lemma PlacedLast<N, F>(c: Codec<N, F>, s: Fields, image: Buffer, last: Buffer, d: nat, x: N)
    requires d < |s| && |image| == Offset(s, 0, d) && last == c.encode(s[d].dtype, x) && |last| == ByteCount(s[d])
    ensures ScalarPlaced(c, s, image + last, d, x)
  {
    hide Offset, ByteCount;
    assert (image + last)[|image|..|image| + |last|] == last;
  }

  lemma NothingPlaced<N(!new), F>(c: Codec<N, F>, s: Fields, args: seq<N>, junk: Buffer)
    ensures Args(Format(s, 0)) == 0 == |Chosen(s, true, 0)| && Span(Format(s, 0)) == 0
    ensures ArgsFit(c, Format(s, 0), args) && Packed(c, Format(s, 0), args, junk) == [] && Cursor(s, 0, 0) == 0
    ensures AllPack(c, s, args, 0) && AllPlaced(c, s, [], args, 0)
  {
  }
}
