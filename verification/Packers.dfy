/** The two row packers, and the round trip through a packed row: what was packed in wire
    order is read back, cast to float, at each field's place in declaration order. */
module Packers {
  import opened Bits
  import opened Bytes
  import opened Layout
  import opened Sorting
  import opened Schema
  import opened RowPack

  datatype PackResult = Done | WrongLength | WrongBuffer | BadScalar | BadShaped(index: nat)

  /** Every wire value is acceptable for its field. */
  ghost predicate AllFit<N, F>(c: Codec<N, F>, s: Fields, H: NameHash, values: seq<Value<N>>)
    requires |values| == |s|
  {
    forall k {:trigger values[k]} :: 0 <= k < |s| ==> Fits(c, s[WireOrder(s, H)[k]], values[k])
  }

  /** Every field of the row holds its wire value. */
  ghost predicate HoldsAll<N, F>(c: Codec<N, F>, s: Fields, H: NameHash, row: Buffer, values: seq<Value<N>>)
    requires |values| == |s|
  {
    forall k {:trigger values[k]} :: 0 <= k < |s| ==> HoldsField(c, s, row, WireOrder(s, H)[k], values[k])
  }

  lemma WirePositionUnique(s: Fields, H: NameHash, at: seq<nat>, k: nat)
    requires WirePositions(s, H, at) && k < |s|
    ensures at[WireOrder(s, H)[k]] == k
  {
    hide Argsort;
    var order := WireOrder(s, H);
    WireOrderOk(s, H);
    var j := at[order[k]];
    assert order[j] == order[k];
    assert j < k || k < j || j == k;
  }

  /** Writing one field's extent leaves every other field as it was. */
  lemma OtherFieldKept<N(!new), F>(c: Codec<N, F>, s: Fields, H: NameHash, row: Buffer, d: nat, data: Buffer, e: nat)
    requires d < |s| && e < |s| && d != e && |row| == RowSize(s) && |data| == ByteCount(s[d])
    ensures Offset(s, 0, d) + ByteCount(s[d]) <= |row| && Offset(s, 0, e) + ByteCount(s[e]) <= |row|
    ensures var o := Offset(s, 0, e);
            Splice(row, Offset(s, 0, d), data)[o..o + ByteCount(s[e])] == row[o..o + ByteCount(s[e])]
  {
    hide AlignUp, Times, ElementCount, Cursor, Splice;
    ExtentInRow(s, H, d);
    ExtentInRow(s, H, e);
    if d < e {
      ExtentsDisjoint(s, H, d, e);
    } else {
      ExtentsDisjoint(s, H, e, d);
    }
    SpliceOutside(row, Offset(s, 0, d), data, Offset(s, 0, e), Offset(s, 0, e) + ByteCount(s[e]));
  }

  lemma FieldWritten<N(!new), F>(c: Codec<N, F>, s: Fields, H: NameHash, row: Buffer, d: nat, v: Value<N>)
    requires d < |s| && |row| == RowSize(s) && |FieldBytes(c, s[d], v)| == ByteCount(s[d])
    ensures Offset(s, 0, d) + ByteCount(s[d]) <= |row|
    ensures HoldsField(c, s, Splice(row, Offset(s, 0, d), FieldBytes(c, s[d], v)), d, v)
  {
    hide AlignUp, Times, ElementCount, Cursor, Splice, FieldBytes;
    ExtentInRow(s, H, d);
    SpliceInside(row, Offset(s, 0, d), FieldBytes(c, s[d], v));
  }

  // ---------------------------------------------------------------------------
  // The wire packer
  // ---------------------------------------------------------------------------

  ghost predicate Positions<N>(s: Fields, values: seq<Value<N>>, at: seq<nat>)
  {
    |values| == |s| == |at| && forall d {:trigger at[d]} :: 0 <= d < |s| ==> at[d] < |s|
  }

  /** Every scalar field's value packs. */
  ghost predicate ScalarsFit<N, F>(c: Codec<N, F>, s: Fields, values: seq<Value<N>>, at: seq<nat>)
    requires Positions(s, values, at)
  {
    forall d {:trigger at[d]} :: 0 <= d < |s| && s[d].shape == [] ==> Fits(c, s[d], values[at[d]])
  }

  /** Every scalar field holds its value. */
  ghost predicate ScalarsHeld<N, F>(c: Codec<N, F>, s: Fields, row: Buffer, values: seq<Value<N>>, at: seq<nat>)
    requires Positions(s, values, at)
  {
    forall d {:trigger at[d]} :: 0 <= d < |s| && s[d].shape == [] ==> HoldsField(c, s, row, d, values[at[d]])
  }

  /** The plan's indices point at the scalar values, in declaration order. */
  lemma PlanScalars<N>(s: Fields, H: NameHash, plan: Plan, at: seq<nat>, values: seq<Value<N>>)
    requires PlanFor(s, H, at, plan) && |values| == |s|
    ensures Positions(s, values, at) && plan.fmt == Format(s, |s|) && plan.rowSize == RowSize(s)
    ensures ScalarsListed(s, at, plan.scalarIndices, |s|)
    ensures forall k {:trigger plan.scalarIndices[k]} :: 0 <= k < |plan.scalarIndices| ==> plan.scalarIndices[k] < |s|
  {
    hide Format, Chosen, RowSize, FieldExtent, WireOrder;
  }

  lemma ListedFails<N, F>(c: Codec<N, F>, s: Fields, values: seq<Value<N>>, at: seq<nat>, indices: seq<nat>, k: nat)
    requires Positions(s, values, at) && ScalarsListed(s, at, indices, |s|) && k < |indices| && indices[k] < |s|
    requires values[indices[k]].Listed?
    ensures !ScalarsFit(c, s, values, at)
  {
    var d := Chosen(s, true, |s|)[k];
    assert indices[k] == at[d];
    hide Chosen;
    assert !Fits(c, s[d], values[at[d]]);
  }

  /** The arguments are the values of the scalar fields. */
  ghost predicate ArgsAre<N>(values: seq<Value<N>>, indices: seq<nat>, args: seq<N>)
  {
    |args| == |indices| && forall k {:trigger args[k]} :: 0 <= k < |indices| ==>
      indices[k] < |values| && values[indices[k]] == Scalar(args[k])
  }

  lemma ArgsDecide<N(!new), F>(c: Codec<N, F>, s: Fields, values: seq<Value<N>>, at: seq<nat>, indices: seq<nat>,
                               args: seq<N>)
    requires Positions(s, values, at) && ScalarsListed(s, at, indices, |s|) && ArgsAre(values, indices, args)
    ensures |Chosen(s, true, |s|)| == |args|
    ensures AllPack(c, s, args, |s|) <==> ScalarsFit(c, s, values, at)
  {
    var ds := Chosen(s, true, |s|);
    forall d | 0 <= d < |s| && s[d].shape == []
      ensures d in ds
    {
      ChosenAll(s, true, |s|, d);
    }
    hide Chosen;
    assert forall k {:trigger args[k]} :: 0 <= k < |args| ==> values[at[ds[k]]] == Scalar(args[k]);
    if AllPack(c, s, args, |s|) {
      forall d | 0 <= d < |s| && s[d].shape == []
        ensures Fits(c, s[d], values[at[d]])
      {
        var k :| 0 <= k < |ds| && ds[k] == d;
        assert c.packs(s[ds[k]].dtype, args[k]);
      }
    }
    if ScalarsFit(c, s, values, at) {
      forall k | 0 <= k < |args|
        ensures c.packs(s[ds[k]].dtype, args[k])
      {
        assert Fits(c, s[ds[k]], values[at[ds[k]]]);
      }
    }
  }

  lemma PlacedHeld<N(!new), F>(c: Codec<N, F>, s: Fields, values: seq<Value<N>>, at: seq<nat>, indices: seq<nat>,
                               args: seq<N>, image: Buffer, row: Buffer)
    requires Positions(s, values, at) && ScalarsListed(s, at, indices, |s|) && ArgsAre(values, indices, args)
    requires |Chosen(s, true, |s|)| == |args| && AllPlaced(c, s, image, args, |s|)
    requires |image| <= |row| && row[..|image|] == image
    ensures ScalarsHeld(c, s, row, values, at)
  {
    hide HoldsField, ScalarPlaced;
    var ds := Chosen(s, true, |s|);
    forall d | 0 <= d < |s| && s[d].shape == []
      ensures HoldsField(c, s, row, d, values[at[d]])
    {
      ChosenAll(s, true, |s|, d);
      var k :| 0 <= k < |ds| && ds[k] == d;
      assert ScalarPlaced(c, s, image, ds[k], args[k]);
      ScalarHeld(c, s, image, row, d, args[k]);
    }
  }

  lemma NoScalars<N(!new), F>(c: Codec<N, F>, s: Fields, row: Buffer, values: seq<Value<N>>, at: seq<nat>)
    requires Positions(s, values, at) && ScalarsListed(s, at, [], |s|)
    ensures ScalarsFit(c, s, values, at) && ScalarsHeld(c, s, row, values, at)
  {
    forall d | 0 <= d < |s|
      ensures s[d].shape != []
    {
      if s[d].shape == [] {
        ChosenAll(s, true, |s|, d);
      }
    }
  }

  lemma SplicedPrefix(b: Buffer, junk: Buffer, image: Buffer)
    requires |image| == |junk| <= |b|
    ensures |Splice(Splice(b, 0, junk), 0, image)| == |b| && Splice(Splice(b, 0, junk), 0, image)[..|image|] == image
  {
  }

  /** The scalar pass: one `pack_into` for all scalars. */
  method PackScalars<N(!new), F>(c: Codec<N, F>, s: Fields, H: NameHash, plan: Plan, ghost at: seq<nat>,
                                 values: seq<Value<N>>, out: array<byte>, junk: Buffer) returns (ok: bool)
    requires CodecOk(c) && PlanFor(s, H, at, plan)
    requires |values| == |s| && out.Length == RowSize(s) == |junk|
    modifies out
    ensures Positions(s, values, at)
    ensures ok <==> ScalarsFit(c, s, values, at)
    ensures ok ==> ScalarsHeld(c, s, out[..], values, at)
  {
    hide *;
    PlanScalars(s, H, plan, at, values);
    if plan.scalarIndices == [] {
      NoScalars(c, s, out[..], values, at);
      return true;
    }
    assert plan.scalarIndices[0] < |s|;
    FormatSpan(s, |s|);
    SpanInRow(s, H);
    var span := Span(plan.fmt);
    if exists k :: 0 <= k < |plan.scalarIndices| && values[plan.scalarIndices[k]].Listed? {
      WriteAt(out, 0, junk[..span]);
      ghost var k :| 0 <= k < |plan.scalarIndices| && values[plan.scalarIndices[k]].Listed?;
      ListedFails(c, s, values, at, plan.scalarIndices, k);
      return false;
    }
    var args := seq(|plan.scalarIndices|, k requires 0 <= k < |plan.scalarIndices|
      && values[plan.scalarIndices[k]].Scalar? =>
                      values[plan.scalarIndices[k]].n);
    assert ArgsAre(values, plan.scalarIndices, args) by {
      AreArgs(values, plan.scalarIndices, args);
    }
    ArgsDecide(c, s, values, at, plan.scalarIndices, args);
    ScalarsPlaced(c, s, args, junk[..span], |s|);
    ghost var was := out[..];
    ok := PackInto(out, c, plan.fmt, args, junk[..span]);
    if ok {
      ghost var image := Packed(c, plan.fmt, args, junk[..span]);
      SplicedPrefix(was, junk[..span], image);
      PlacedHeld(c, s, values, at, plan.scalarIndices, args, image, out[..]);
    }
  }

  lemma AreArgs<N>(values: seq<Value<N>>, indices: seq<nat>, args: seq<N>)
    requires |args| == |indices|
    requires forall k :: 0 <= k < |indices| ==>
               indices[k] < |values| && values[indices[k]].Scalar? && args[k] == values[indices[k]].n
    ensures ArgsAre(values, indices, args)
  {
  }

  lemma SpanInRow(s: Fields, H: NameHash)
    requires s != []
    ensures Cursor(s, 0, |s|) <= RowSize(s)
  {
    hide AlignUp;
    AlignToLine(Cursor(s, 0, |s|));
  }

  lemma ScalarHeld<N, F>(c: Codec<N, F>, s: Fields, image: Buffer, row: Buffer, d: nat, x: N)
    requires d < |s| && ScalarPlaced(c, s, image, d, x) && |image| <= |row| && row[..|image|] == image
    ensures HoldsField(c, s, row, d, Scalar(x))
  {
    hide Offset, ByteCount;
    var off := Offset(s, 0, d);
    SliceOfPrefix(row, image, off, off + ByteCount(s[d]));
  }

  lemma SliceOfPrefix(row: Buffer, image: Buffer, lo: nat, hi: nat)
    requires lo <= hi <= |image| <= |row| && row[..|image|] == image
    ensures row[lo..hi] == image[lo..hi]
  {
    forall k | 0 <= k < hi - lo
      ensures row[lo..hi][k] == image[lo..hi][k]
    {
      assert row[..|image|][lo + k] == row[lo + k];
    }
  }

  lemma AllHeldNumbers<N(!new), F>(c: Codec<N, F>, s: Fields, H: NameHash, row: Buffer, values: seq<Value<N>>)
    requires CodecOk(c) && |values| == |s| && AllFit(c, s, H, values) && HoldsAll(c, s, H, row, values)
    ensures forall k {:trigger values[k]} :: 0 <= k < |s| ==>
              StoresNumbers(c, s, row, WireOrder(s, H)[k], values[k])
  {
    hide HoldsField, Fits, WireOrder, StoresNumbers, Casts;
    forall k {:trigger values[k]} | 0 <= k < |s|
      ensures StoresNumbers(c, s, row, WireOrder(s, H)[k], values[k])
    {
      var v := values[k];
      HeldNumbers(c, s, row, WireOrder(s, H)[k], v);
    }
  }

  /** Pack wire-ordered values into a reused buffer: scalars first, through the struct,
      then each shaped field. Nothing is assumed about what the buffer held before or
      about the bytes the struct leaves at its pads. */
  method PackRowFromList<N(!new), F>(c: Codec<N, F>, s: Fields, H: NameHash, values: seq<Value<N>>, out: array<byte>,
                                     junk: Buffer)
    returns (r: PackResult)
    requires CodecOk(c) && ValidSchema(s, H) && |junk| == RowSize(s)
    modifies out
    ensures r.WrongLength? <==> |values| != |s|
    ensures r.WrongBuffer? <==> |values| == |s| && out.Length != RowSize(s)
    ensures r.WrongLength? || r.WrongBuffer? ==> out[..] == old(out[..])
    ensures r.Done? <==> |values| == |s| && out.Length == RowSize(s) && AllFit(c, s, H, values)
    ensures r.Done? ==> HoldsAll(c, s, H, out[..], values)
    ensures r.Done? ==> forall k {:trigger values[k]} :: 0 <= k < |s| ==>
              StoresNumbers(c, s, out[..], WireOrder(s, H)[k], values[k])
  {
    hide AlignUp, Times, ElementCount, Cursor, Argsort, Offset, Format, EncodeAll, ByteCount, ValidSchema, HoldsField;
    hide Fits, FieldBytes, WireOrder, StoresNumbers;
    var plan, at := BuildPlan(s, H);
    if |values| != plan.expectedLen {
      return WrongLength;
    }
    if out.Length != plan.rowSize {
      return WrongBuffer;
    }
    FitsByDeclaration(c, s, H, at, values);
    var ok := PackScalars(c, s, H, plan, at, values, out, junk);
    if !ok {
      return BadScalar;
    }
    ghost var ds := Chosen(s, false, |s|);
    for j := 0 to |plan.shapedSlots|
      invariant forall d {:trigger at[d]} :: 0 <= d < |s| && s[d].shape == [] ==>
                  HoldsField(c, s, out[..], d, values[at[d]])
      invariant forall i {:trigger ds[i]} :: 0 <= i < j ==> Fits(c, s[ds[i]], values[at[ds[i]]])
      invariant forall i {:trigger ds[i]} :: 0 <= i < j ==> HoldsField(c, s, out[..], ds[i], values[at[ds[i]]])
    {
      var (idx, slot) := plan.shapedSlots[j];
      var v := values[idx];
      ghost var d := ds[j];
      ShapedFits(c, s[d], v);
      if !CastsTo(c, slot, v) {
        return BadShaped(idx);
      }
      FieldBytesLength(c, s[d], v);
      ExtentInRow(s, H, d);
      forall e | 0 <= e < |s| && e != d && HoldsField(c, s, out[..], e, values[at[e]])
        ensures HoldsField(c, s, Splice(out[..], slot.byteOffset, FieldBytes(c, s[d], v)), e, values[at[e]])
      {
        HeldStays(c, s, H, out[..], d, FieldBytes(c, s[d], v), e, values[at[e]]);
      }
      FieldWritten(c, s, H, out[..], d, v);
      BytesOfSlot(c, s, H, d, v);
      ChosenDistinct(s, false, |s|, j);
      WriteAt(out, slot.byteOffset, EncodeAll(c, slot.dtype, Flat(v)));
    }
    forall d | 0 <= d < |s|
      ensures Fits(c, s[d], values[at[d]]) && HoldsField(c, s, out[..], d, values[at[d]])
    {
      if s[d].shape != [] {
        ChosenAll(s, false, |s|, d);
        var i :| 0 <= i < |ds| && ds[i] == d;
      }
    }
    forall k | 0 <= k < |s|
      ensures HoldsField(c, s, out[..], WireOrder(s, H)[k], values[k])
    {
      WirePositionUnique(s, H, at, k);
    }
    AllHeldNumbers(c, s, H, out[..], values);
    return Done;
  }

  /** The shaped pass's own test, on the plan's slot. */
  predicate CastsTo<N, F>(c: Codec<N, F>, slot: Extent, v: Value<N>)
  {
    |Flat(v)| == slot.elementCount && forall i :: 0 <= i < |Flat(v)| ==> c.casts(slot.dtype, Flat(v)[i])
  }

  lemma ShapedFits<N, F>(c: Codec<N, F>, f: Field, v: Value<N>)
    requires f.shape != []
    ensures Fits(c, f, v) <==> Casts(c, f, v)
  {
  }

  lemma BytesOfSlot<N, F>(c: Codec<N, F>, s: Fields, H: NameHash, d: nat, v: Value<N>)
    requires d < |s|
    ensures FieldBytes(c, s[d], v) == EncodeAll(c, FieldExtent(s, H, d).dtype, Flat(v))
  {
  }

  lemma HeldStays<N(!new), F>(c: Codec<N, F>, s: Fields, H: NameHash, row: Buffer, d: nat, data: Buffer, e: nat,
                              v: Value<N>)
    requires d < |s| && e < |s| && d != e && |row| == RowSize(s) && |data| == ByteCount(s[d])
    requires HoldsField(c, s, row, e, v)
    ensures Offset(s, 0, d) + ByteCount(s[d]) <= |row|
    ensures HoldsField(c, s, Splice(row, Offset(s, 0, d), data), e, v)
  {
    hide AlignUp, Times, ElementCount, Cursor, Splice, Offset, FieldBytes;
    OtherFieldKept(c, s, H, row, d, data, e);
  }

  lemma {:induction false} ChosenDistinct(s: Fields, scalar: bool, n: nat, j: nat)
    requires n <= |s| && j < |Chosen(s, scalar, n)|
    ensures forall i :: 0 <= i < |Chosen(s, scalar, n)| && i != j ==> Chosen(s, scalar, n)[i] != Chosen(s, scalar, n)[j]
    decreases n
  {
    if n > 0 {
      var init := Chosen(s, scalar, n - 1);
      if j < |init| {
        ChosenDistinct(s, scalar, n - 1, j);
      }
    }
  }

  lemma FitsByDeclaration<N, F>(c: Codec<N, F>, s: Fields, H: NameHash, at: seq<nat>, values: seq<Value<N>>)
    requires WirePositions(s, H, at) && |values| == |s|
    ensures AllFit(c, s, H, values) <==> forall d {:trigger at[d]} :: 0 <= d < |s| ==> Fits(c, s[d], values[at[d]])
  {
    hide Fits, WireOrder;
    forall k | 0 <= k < |s|
      ensures at[WireOrder(s, H)[k]] == k
    {
      WirePositionUnique(s, H, at, k);
    }
    if forall d {:trigger at[d]} :: 0 <= d < |s| ==> Fits(c, s[d], values[at[d]]) {
      forall k | 0 <= k < |s|
        ensures Fits(c, s[WireOrder(s, H)[k]], values[k])
      {
        var d := WireOrder(s, H)[k];
        assert Fits(c, s[d], values[at[d]]);
      }
    }
  }

  // ---------------------------------------------------------------------------
  // The keyword packer
  // ---------------------------------------------------------------------------

  datatype PackedRow = Row(bytes: Buffer) | MissingFields | UnknownFields | BadShape(index: nat)

  ghost predicate InsideField(s: Fields, p: nat, n: nat)
    requires n <= |s|
  {
    exists i: nat {:trigger Offset(s, 0, i)} :: i < n && Offset(s, 0, i) <= p < Offset(s, 0, i) + ByteCount(s[i])
  }

  /** Every byte outside the first `n` fields' extents is zero. */
  ghost predicate ZeroElsewhere(s: Fields, row: Buffer, n: nat)
    requires n <= |s|
  {
    forall p {:trigger row[p]} :: 0 <= p < |row| && !InsideField(s, p, n) ==> row[p] == 0
  }

  lemma ZeroStays(s: Fields, row: Buffer, n: nat, data: Buffer)
    requires n < |s| && ZeroElsewhere(s, row, n)
    requires Offset(s, 0, n) + |data| <= |row| && |data| == ByteCount(s[n])
    ensures ZeroElsewhere(s, Splice(row, Offset(s, 0, n), data), n + 1)
  {
    hide Offset, ByteCount;
    var after := Splice(row, Offset(s, 0, n), data);
    forall p | 0 <= p < |row| && !InsideField(s, p, n + 1)
      ensures after[p] == 0
    {
      assert !InsideField(s, p, n);
      assert p < Offset(s, 0, n) || p >= Offset(s, 0, n) + |data|;
      assert after[p] == row[p];
    }
  }

  /** Pack one row from named values into fresh zeroed bytes. */
  method PackRow<N(!new), F>(c: Codec<N, F>, s: Fields, H: NameHash, given: map<Buffer, Value<N>>)
    returns (r: PackedRow)
    requires CodecOk(c)
    ensures r.MissingFields? <==> exists i {:trigger s[i]} :: 0 <= i < |s| && s[i].name !in given
    ensures r.UnknownFields? <==> (forall i {:trigger s[i]} :: 0 <= i < |s| ==> s[i].name in given)
                                  && exists n :: n in given && forall i {:trigger s[i]} :: 0 <= i < |s| ==>
                                       s[i].name != n
    ensures r.BadShape? ==> r.index < |s| && s[r.index].name in given && !Casts(c, s[r.index], given[s[r.index].name])
    ensures r.Row? ==> |r.bytes| == RowSize(s) && ZeroElsewhere(s, r.bytes, |s|)
    ensures r.Row? ==> forall i {:trigger s[i]} :: 0 <= i < |s| ==>
              && s[i].name in given && Casts(c, s[i], given[s[i].name])
              && HoldsField(c, s, r.bytes, i, given[s[i].name])
              && StoresNumbers(c, s, r.bytes, i, given[s[i].name])
  {
    hide StoresNumbers;
    hide AlignUp, Times, ElementCount, Cursor, Offset, ByteCount, HoldsField, FieldBytes, Casts, InsideField, EncodeAll;
    if exists i :: 0 <= i < |s| && s[i].name !in given {
      return MissingFields;
    }
    if exists n :: n in given && forall i :: 0 <= i < |s| ==> s[i].name != n {
      return UnknownFields;
    }
    var out := new byte[RowSize(s)](_ => 0);
    var table := ComputeAssemblyTable(s, H);
    for i := 0 to |s|
      invariant ZeroElsewhere(s, out[..], i)
      invariant forall j {:trigger s[j]} :: 0 <= j < i ==>
                  Casts(c, s[j], given[s[j].name]) && HoldsField(c, s, out[..], j, given[s[j].name])
    {
      var v := given[s[i].name];
      if !Casts(c, s[i], v) {
        return BadShape(i);
      }
      FieldBytesLength(c, s[i], v);
      ExtentInRow(s, H, i);
      ZeroStays(s, out[..], i, FieldBytes(c, s[i], v));
      FieldWritten(c, s, H, out[..], i, v);
      forall j | 0 <= j < i
        ensures HoldsField(c, s, Splice(out[..], table[i].byteOffset, FieldBytes(c, s[i], v)), j, given[s[j].name])
      {
        HeldStays(c, s, H, out[..], i, FieldBytes(c, s[i], v), j, given[s[j].name]);
      }
      BytesOfSlot(c, s, H, i, v);
      WriteAt(out, table[i].byteOffset, EncodeAll(c, table[i].dtype, Flat(v)));
    }
    forall i | 0 <= i < |s|
      ensures StoresNumbers(c, s, out[..], i, given[s[i].name])
    {
      HeldNumbers(c, s, out[..], i, given[s[i].name]);
    }
    return Row(out[..]);
  }

  /** Two rows that hold a value at the same field have the same bytes there. */
  lemma PackersAgree<N(!new), F>(c: Codec<N, F>, s: Fields, H: NameHash, values: seq<Value<N>>, a: Buffer, b: Buffer,
                                 k: nat)
    requires |values| == |s| && k < |s| && HoldsAll(c, s, H, a, values)
    requires HoldsField(c, s, b, WireOrder(s, H)[k], values[k])
    ensures var o, n := Offset(s, 0, WireOrder(s, H)[k]), ByteCount(s[WireOrder(s, H)[k]]);
            o + n <= |a| && o + n <= |b| && a[o..o + n] == b[o..o + n]
  {
    hide Offset, ByteCount;
    assert HoldsField(c, s, a, WireOrder(s, H)[k], values[k]);
  }

  /** The wire-ordered values and the named ones are the same. */
  ghost predicate SameValues<N>(s: Fields, H: NameHash, values: seq<Value<N>>, given: map<Buffer, Value<N>>)
  {
    && |values| == |s|
    && (forall k {:trigger values[k]} :: 0 <= k < |s| ==>
          s[WireOrder(s, H)[k]].name in given && given[s[WireOrder(s, H)[k]].name] == values[k])
    && (forall n {:trigger n in given} :: n in given ==> exists i {:trigger s[i]} :: 0 <= i < |s| && s[i].name == n)
  }

  lemma NamedValue<N>(s: Fields, H: NameHash, values: seq<Value<N>>, given: map<Buffer, Value<N>>, d: nat)
    returns (k: nat)
    requires SameValues(s, H, values, given) && d < |s|
    ensures k < |s| && WireOrder(s, H)[k] == d && s[d].name in given && given[s[d].name] == values[k]
  {
    hide WireOrder;
    WireOrderOk(s, H);
    k := PlaceOf(WireOrder(s, H), |s|, d);
    var v := values[k];
    assert s[WireOrder(s, H)[k]].name in given && given[s[WireOrder(s, H)[k]].name] == v;
  }

  lemma NoneMissing<N>(s: Fields, H: NameHash, values: seq<Value<N>>, given: map<Buffer, Value<N>>)
    requires SameValues(s, H, values, given)
    ensures forall i {:trigger s[i]} :: 0 <= i < |s| ==> s[i].name in given
    ensures !exists n :: n in given && forall i {:trigger s[i]} :: 0 <= i < |s| ==> s[i].name != n
  {
    forall i | 0 <= i < |s|
      ensures s[i].name in given
    {
      var k := NamedValue(s, H, values, given, i);
    }
  }

  /** The same bytes in the extent of field `d`. */
  ghost predicate SameField(s: Fields, a: Buffer, b: Buffer, d: nat)
    requires d < |s|
  {
    var o, n := Offset(s, 0, d), ByteCount(s[d]);
    o + n <= |a| && o + n <= |b| && a[o..o + n] == b[o..o + n]
  }

  /** One set of values through both packers: what each made agrees in every field, the
      named packer fails exactly on a value that does not cast, and only the bytes between
      the fields may differ, where it leaves zeros. */
  method PackBoth<N(!new), F>(c: Codec<N, F>, s: Fields, H: NameHash, values: seq<Value<N>>,
                              given: map<Buffer, Value<N>>, out: array<byte>, junk: Buffer)
    returns (a: PackResult, b: PackedRow)
    requires CodecOk(c) && ValidSchema(s, H) && |junk| == RowSize(s) && SameValues(s, H, values, given)
    modifies out
    ensures a.Done? <==> out.Length == RowSize(s) && AllFit(c, s, H, values)
    ensures b.Row? <==> forall i {:trigger s[i]} :: 0 <= i < |s| ==>
              s[i].name in given && Casts(c, s[i], given[s[i].name])
    ensures a.Done? && b.Row? ==> |b.bytes| == out.Length && forall d {:trigger s[d]} :: 0 <= d < |s| ==>
              SameField(s, out[..], b.bytes, d)
    ensures b.Row? ==> ZeroElsewhere(s, b.bytes, |s|)
  {
    hide *;
    NoneMissing(s, H, values, given);
    assert |values| == |s| by {
      SameCount(s, H, values, given);
    }
    a := PackRowFromList(c, s, H, values, out, junk);
    b := PackRow(c, s, H, given);
    if a.Done? && b.Row? {
      forall d | 0 <= d < |s|
        ensures SameField(s, out[..], b.bytes, d)
      {
        var k := NamedValue(s, H, values, given, d);
        PackersAgree(c, s, H, values, out[..], b.bytes, k);
        FieldsSame(s, out[..], b.bytes, d);
      }
    }
  }

  lemma SameCount<N>(s: Fields, H: NameHash, values: seq<Value<N>>, given: map<Buffer, Value<N>>)
    requires SameValues(s, H, values, given)
    ensures |values| == |s|
  {
  }

  lemma FieldsSame(s: Fields, a: Buffer, b: Buffer, d: nat)
    requires d < |s|
    requires var o, n := Offset(s, 0, d), ByteCount(s[d]); o + n <= |a| && o + n <= |b| && a[o..o + n] == b[o..o + n]
    ensures SameField(s, a, b, d)
  {
  }
}
