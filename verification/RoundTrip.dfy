/** From wire values to a served vector: pack, insert, read. */
module RoundTrip {
  import opened Bits
  import opened Bytes
  import opened Layout
  import opened SlotTable
  import opened Segment
  import opened Upsert
  import opened Schema
  import opened RowPack
  import opened Packers
  import opened Assembly
  import opened FeatureReader

  /** A field's elements, each stored in its dtype and cast to float32. */
  function ValueFloats<N>(c: Codec<N, Float>, d: DType, xs: seq<N>): (v: seq<Float>)
    ensures |v| == |xs|
  {
    seq(|xs|, j requires 0 <= j < |xs| => c.asFloat(d, c.encode(d, xs[j])))
  }

  /** The vector the first `n` declared fields stand for; `at` gives each field's wire place. */
  function ExpectedFloats<N>(c: Codec<N, Float>, s: Fields, values: seq<Value<N>>, at: seq<nat>, n: nat): seq<Float>
    requires n <= |s| == |at| && forall d :: 0 <= d < |s| ==> at[d] < |values|
  {
    if n == 0 then []
    else ExpectedFloats(c, s, values, at, n - 1) + ValueFloats(c, s[n - 1].dtype, Flat(values[at[n - 1]]))
  }

  lemma {:induction false} FloatsOfEncoded<N>(c: Codec<N, Float>, d: DType, xs: seq<N>, k: nat)
    requires k <= |xs| && forall i {:trigger xs[i]} :: 0 <= i < |xs| ==> |c.encode(d, xs[i])| == ItemSize(d)
    ensures Times(k, ItemSize(d)) <= |EncodeAll(c, d, xs)|
    ensures Floats(c.asFloat, d, EncodeAll(c, d, xs), k) == ValueFloats(c, d, xs)[..k]
  {
    if k > 0 {
      FloatsOfEncoded(c, d, xs, k - 1);
      EncodedElement(c, d, xs, k - 1);
    } else {
      EncodeAllLength(c, d, xs);
    }
  }

  /** A field that holds a value reads back as that value's floats. */
  lemma FieldReadsBack<N(!new)>(c: Codec<N, Float>, s: Fields, row: Buffer, d: nat, v: Value<N>)
    requires CodecOk(c) && d < |s| && |row| == RowSize(s)
    requires HoldsField(c, s, row, d, v) && (Fits(c, s[d], v) || Casts(c, s[d], v))
    ensures ElementCount(s[d].shape) == |Flat(v)|
    ensures Floats(c.asFloat, s[d].dtype, FieldSlice(s, row, d), ElementCount(s[d].shape))
         == ValueFloats(c, s[d].dtype, Flat(v))
  {
    hide AlignUp, Cursor, Offset;
    var xs, t := Flat(v), s[d].dtype;
    FieldBytesLength(c, s[d], v);
    forall i | 0 <= i < |xs|
      ensures |c.encode(t, xs[i])| == ItemSize(t)
    {
      assert Flat(v)[i] == xs[i];
    }
    FloatsOfEncoded(c, t, xs, |xs|);
    assert ValueFloats(c, t, xs)[..|xs|] == ValueFloats(c, t, xs);
    assert s[d].shape == [] ==> ElementCount(s[d].shape) == 1;
  }

  /** A packed row reads back in declaration order, whatever surrounds its fields. */
  lemma {:induction false} RowReadsBack<N(!new)>(c: Codec<N, Float>, s: Fields, H: NameHash, at: seq<nat>,
                                                 values: seq<Value<N>>, row: Buffer, n: nat)
    requires CodecOk(c) && WirePositions(s, H, at) && |values| == |s| && |row| == RowSize(s) && n <= |s|
    requires AllFit(c, s, H, values) && HoldsAll(c, s, H, row, values)
    ensures Assembled(c.asFloat, s, row, n) == ExpectedFloats(c, s, values, at, n)
  {
    hide WireOrder, Fits, HoldsField, Floats, ElementCount;
    if n > 0 {
      RowReadsBack(c, s, H, at, values, row, n - 1);
      var v := values[at[n - 1]];
      assert WireOrder(s, H)[at[n - 1]] == n - 1;
      FieldReadsBack(c, s, row, n - 1, v);
    }
  }

  /** From place `base` on the vector has the value's numbers, each stored in the dtype and cast
      to float32: one for a scalar, and those of a list in their order. */
  ghost predicate ServesNumbers<N>(c: Codec<N, Float>, t: DType, v: Value<N>, out: seq<Float>, base: nat)
  {
    match v
    case Scalar(n) => base < |out| && out[base] == c.asFloat(t, c.encode(t, n))
    case Listed(flat) =>
      base + |flat| <= |out|
      && forall j {:trigger flat[j]} :: 0 <= j < |flat| ==> out[base + j] == c.asFloat(t, c.encode(t, flat[j]))
  }

  /** Where a field's floats are in the expected vector. */
  lemma {:induction false} ExpectedAt<N>(c: Codec<N, Float>, s: Fields, values: seq<Value<N>>, at: seq<nat>, n: nat,
                                         d: nat)
    requires d < n <= |s| == |at| && forall i :: 0 <= i < |s| ==> at[i] < |values|
    requires forall i :: 0 <= i < n ==> |Flat(values[at[i]])| == ElementCount(s[i].shape)
    ensures var v, all := ValueFloats(c, s[d].dtype, Flat(values[at[d]])), ExpectedFloats(c, s, values, at, n);
            && |all| == ElementsBefore(s, n) && ElementsBefore(s, d) + |v| <= |all|
            && all[ElementsBefore(s, d)..ElementsBefore(s, d) + |v|] == v
    decreases n
  {
    hide ElementCount;
    var init := ExpectedFloats(c, s, values, at, n - 1);
    if d < n - 1 {
      ExpectedAt(c, s, values, at, n - 1, d);
    } else {
      ExpectedLength(c, s, values, at, n - 1);
    }
  }

  lemma {:induction false} ExpectedLength<N>(c: Codec<N, Float>, s: Fields, values: seq<Value<N>>, at: seq<nat>, n: nat)
    requires n <= |s| == |at| && forall i :: 0 <= i < |s| ==> at[i] < |values|
    requires forall i :: 0 <= i < n ==> |Flat(values[at[i]])| == ElementCount(s[i].shape)
    ensures |ExpectedFloats(c, s, values, at, n)| == ElementsBefore(s, n)
  {
    hide ElementCount;
    if n > 0 {
      ExpectedLength(c, s, values, at, n - 1);
    }
  }

  lemma ServedHere<N>(c: Codec<N, Float>, t: DType, v: Value<N>, out: seq<Float>, base: nat)
    requires var floats := ValueFloats(c, t, Flat(v)); base + |floats| <= |out| && out[base..base + |floats|] == floats
    ensures ServesNumbers(c, t, v, out, base)
  {
    var floats := ValueFloats(c, t, Flat(v));
    forall j | 0 <= j < |floats|
      ensures out[base + j] == floats[j]
    {
      assert out[base..base + |floats|][j] == out[base + j];
    }
    if v.Scalar? {
      assert floats[0] == c.asFloat(t, c.encode(t, v.n));
      assert out[base + 0] == floats[0];
    }
  }

  /** A packed row serves every number at its own place: those of field `d` after the elements of
      the fields declared before it. */
  lemma RowServes<N(!new)>(c: Codec<N, Float>, s: Fields, H: NameHash, at: seq<nat>, values: seq<Value<N>>,
                           row: Buffer, d: nat)
    requires CodecOk(c) && WirePositions(s, H, at) && |values| == |s| && |row| == RowSize(s) && d < |s|
    requires AllFit(c, s, H, values) && HoldsAll(c, s, H, row, values)
    ensures ServesNumbers(c, s[d].dtype, values[at[d]], Assembled(c.asFloat, s, row, |s|), ElementsBefore(s, d))
  {
    hide WireOrder, HoldsField, Floats, ElementCount, ExpectedFloats, Assembled, Fits, ValueFloats, ServesNumbers;
    RowReadsBack(c, s, H, at, values, row, |s|);
    forall i | 0 <= i < |s|
      ensures |Flat(values[at[i]])| == ElementCount(s[i].shape)
    {
      var v := values[at[i]];
      assert WireOrder(s, H)[at[i]] == i;
      FieldReadsBack(c, s, row, i, v);
    }
    ExpectedAt(c, s, values, at, |s|, d);
    ServedHere(c, s[d].dtype, values[at[d]], ExpectedFloats(c, s, values, at, |s|), ElementsBefore(s, d));
  }

  /** Pack on any dirty buffer, insert, read: the stored entity serves exactly its values,
      at declaration positions, and every other entity is served as before. */
  method PackInsertRead<N(!new)>(c: Codec<N, Float>, s: Fields, H: NameHash, values: seq<Value<N>>,
                                 rowBuffer: array<byte>, junk: Buffer, seg: array<byte>, L: SegmentLayout, h: HashFn,
                                 id: Buffer, out: array<Float>)
    returns (packed: PackResult, inserted: InsertResult, read: ReadResult, ghost at: seq<nat>)
    requires CodecOk(c) && ValidSchema(s, H) && |junk| == RowSize(s)
    requires WellFormed(L, h, seg[..]) && RowsOf(L, s) && rowBuffer != seg && out.Length == TotalElementCount(s)
    modifies rowBuffer, seg, out
    ensures WellFormed(L, h, seg[..]) && WirePositions(s, H, at)
    ensures packed.Done? && (inserted.Inserted? || inserted.Updated?) ==>
              && |values| == |s| && read.Read?
              && out[..] == ExpectedFloats(c, s, values, at, |s|)
              && (forall d {:trigger at[d]} :: 0 <= d < |s| ==>
                    ServesNumbers(c, s[d].dtype, values[at[d]], out[..], ElementsBefore(s, d)))
    ensures packed.Done? && (inserted.Inserted? || inserted.Updated?) ==>
              forall other :: other != id ==>
                ReadMeaning(c.asFloat, s, L, h, seg[..], other) == ReadMeaning(c.asFloat, s, L, h, old(seg[..]), other)
  {
    hide WellFormed, StoreMap, RowMap, RowSize, TotalElementCount, HoldsAll, AllFit, ValidSchema, Assembled;
    hide ExpectedFloats, WireOrder, ServesNumbers, StoresNumbers;
    inserted, read := EmptyIdError, EmptyId;
    var plan;
    plan, at := BuildPlan(s, H);
    packed := PackRowFromList(c, s, H, values, rowBuffer, junk);
    if packed.Done? {
      var row := rowBuffer[..];
      inserted := Insert(seg, L, h, id, row);
      if inserted.Inserted? || inserted.Updated? {
        var table := ComputeAssemblyTable(s, H);
        read := Assemble(seg, L, h, c.asFloat, s, H, table, id, out);
        RowReadsBack(c, s, H, at, values, row, |s|);
        forall d {:trigger at[d]} | 0 <= d < |s|
          ensures ServesNumbers(c, s[d].dtype, values[at[d]], out[..], ElementsBefore(s, d))
        {
          var k := at[d];
          RowServes(c, s, H, at, values, row, d);
        }
      }
    }
  }
}
