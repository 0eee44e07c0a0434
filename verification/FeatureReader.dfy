/** `assemble`, `assemble_batch` and their kernels: every path reads the same vectors. */
module FeatureReader {
  import opened Bits
  import opened Bytes
  import opened Layout
  import opened SlotTable
  import opened Segment
  import opened SegmentRuns
  import opened Sorting
  import opened Schema
  import opened Assembly

  /** A layout whose rows belong to schema `s`. */
  ghost predicate RowsOf(L: SegmentLayout, s: Fields)
  {
    L.rowSize == RowSize(s)
  }

  ghost predicate TableFor(s: Fields, N: NameHash, table: seq<Extent>)
  {
    |table| == |s| && forall i :: 0 <= i < |s| ==> table[i] == FieldExtent(s, N, i)
  }

  /** The vector stored at a row offset. */
  ghost function RowFloats(view: View, s: Fields, b: Buffer, off: nat): (v: seq<Float>)
    requires off + RowSize(s) <= |b|
    ensures |v| == TotalElementCount(s)
  {
    Assembled(view, s, b[off..off + RowSize(s)], |s|)
  }

  /** What a read of `id` means: its stored vector, or zeros. */
  ghost function ReadMeaning(view: View, s: Fields, L: SegmentLayout, H: HashFn, b: Buffer, id: Buffer): (v: seq<Float>)
    requires WellFormed(L, H, b) && RowsOf(L, s)
    ensures |v| == TotalElementCount(s)
  {
    if id in StoreMap(L, H, b) then
      StoredRowSize(L, H, b, id);
      Assembled(view, s, StoreMap(L, H, b)[id], |s|)
    else seq(TotalElementCount(s), i => ZERO)
  }

  lemma StoredRowSize(L: SegmentLayout, H: HashFn, b: Buffer, id: Buffer)
    requires WellFormed(L, H, b) && id in StoreMap(L, H, b)
    ensures |StoreMap(L, H, b)[id]| == L.rowSize
  {
    MapWellDefined(L, H, b);
  }

  /** A raw answer points at the stored row, or there is none. */
  lemma RawReadsRow(L: SegmentLayout, H: HashFn, b: Buffer, id: Buffer)
    requires WellFormed(L, H, b)
    ensures var r := RawMeaning(L, H, b, id);
            && (r == -1 <==> id !in StoreMap(L, H, b))
            && (r != -1 ==> 0 <= r && r + L.rowSize <= |b| && b[r..r + L.rowSize] == StoreMap(L, H, b)[id])
  {
    hide Decode, TableOk, Probe, Entries, Bits.Times, SlotAt;
    MapWellDefined(L, H, b);
  }

  lemma ElementsGrow(s: Fields, i: nat)
    requires i < |s|
    ensures ElementsBefore(s, i + 1) == ElementsBefore(s, i) + ElementCount(s[i].shape)
    ensures ElementsBefore(s, i + 1) <= TotalElementCount(s)
  {
    ElementsMonotone(s, i + 1, |s|);
  }

  lemma {:induction false} ElementsMonotone(s: Fields, i: nat, j: nat)
    requires i <= j <= |s|
    ensures ElementsBefore(s, i) <= ElementsBefore(s, j)
    decreases j
  {
    if i < j {
      ElementsMonotone(s, i, j - 1);
    }
  }

  /** Element `j` of field `f`, read straight from the segment. */
  lemma ElementRead(view: View, s: Fields, N: NameHash, b: Buffer, off: nat, f: nat, j: nat)
    requires off + RowSize(s) <= |b| && f < |s| && j < ElementCount(s[f].shape)
    ensures var e := FieldExtent(s, N, f);
            var row := b[off..off + RowSize(s)];
            var at := off + e.byteOffset + Times(j, ItemSize(e.dtype));
            && at + ItemSize(e.dtype) <= |b|
            && Times(j + 1, ItemSize(e.dtype)) <= e.byteCount
            && Floats(view, e.dtype, FieldSlice(s, row, f), j + 1)
               == Floats(view, e.dtype, FieldSlice(s, row, f), j) + [view(e.dtype, b[at..at + ItemSize(e.dtype)])]
  {
    hide AlignUp, ElementCount, Cursor, Offset;
    var e := FieldExtent(s, N, f);
    ExtentInRow(s, N, f);
    TimesMonotone(j + 1, ElementCount(s[f].shape), ItemSize(e.dtype));
    var row := b[off..off + RowSize(s)];
    var slice := FieldSlice(s, row, f);
    var lo := Times(j, ItemSize(e.dtype));
    NestedSlice(b, off, RowSize(s), e.byteOffset, e.byteCount, lo, ItemSize(e.dtype));
  }

  lemma NestedSlice(b: Buffer, off: nat, size: nat, o: nat, c: nat, lo: nat, z: nat)
    requires off + size <= |b| && o + c <= size && lo + z <= c
    ensures b[off..off + size][o..o + c][lo..lo + z] == b[off + o + lo..off + o + lo + z]
  {
    var deep, flat := b[off..off + size][o..o + c][lo..lo + z], b[off + o + lo..off + o + lo + z];
    forall k | 0 <= k < z
      ensures deep[k] == flat[k]
    {
      assert b[off..off + size][o..o + c][lo + k] == b[off..off + size][o + lo + k];
    }
  }

  // ---------------------------------------------------------------------------
  // One entity
  // ---------------------------------------------------------------------------

  lemma NoElements(view: View, d: DType, bytes: Buffer)
    ensures Times(0, ItemSize(d)) == 0 && Floats(view, d, bytes, 0) == []
  {
  }

  /** `_assemble_core`: declaration order, element by element, through a moving cursor. */
  method AssembleCore(seg: array<byte>, rowOffset: nat, view: View, s: Fields, ghost N: NameHash, table: seq<Extent>,
                      out: array<Float>)
    requires TableFor(s, N, table) && rowOffset + RowSize(s) <= seg.Length && out.Length == TotalElementCount(s)
    modifies out
    ensures out[..] == RowFloats(view, s, seg[..], rowOffset)
  {
    hide AlignUp, ElementCount, Cursor, Offset, Times, ByteCount, FieldSlice, RowSize;
    ghost var b := seg[..];
    ghost var row := b[rowOffset..rowOffset + RowSize(s)];
    var cursor := 0;
    for f := 0 to |table|
      invariant cursor == ElementsBefore(s, f) <= out.Length
      invariant out[..cursor] == Assembled(view, s, row, f)
    {
      ElementsGrow(s, f);
      AssembleField(seg, rowOffset, view, s, N, table[f], f, cursor, out);
      cursor := cursor + table[f].elementCount;
    }
    assert out[..] == out[..cursor];
  }

  method AssembleField(seg: array<byte>, rowOffset: nat, view: View, s: Fields, ghost N: NameHash, e: Extent,
                       ghost f: nat, cursor: nat, out: array<Float>)
    requires f < |s| && e == FieldExtent(s, N, f) && rowOffset + RowSize(s) <= seg.Length
    requires cursor + e.elementCount <= out.Length
    modifies out
    ensures out[..cursor] == old(out[..cursor])
    ensures e.elementCount == ElementCount(s[f].shape) && Times(e.elementCount, ItemSize(s[f].dtype)) == ByteCount(s[f])
    ensures out[cursor..cursor + e.elementCount]
         == Floats(view, s[f].dtype, FieldSlice(s, seg[..][rowOffset..rowOffset + RowSize(s)], f), e.elementCount)
  {
    hide AlignUp, ElementCount, Cursor, Offset, Times, FieldSlice, RowSize, Floats;
    ghost var b := seg[..];
    ghost var slice := FieldSlice(s, b[rowOffset..rowOffset + RowSize(s)], f);
    NoElements(view, e.dtype, slice);
    for j := 0 to e.elementCount
      invariant Times(j, ItemSize(e.dtype)) <= |slice|
      invariant out[..cursor] == old(out[..cursor])
      invariant out[cursor..cursor + j] == Floats(view, e.dtype, slice, j)
    {
      ElementRead(view, s, N, b, rowOffset, f, j);
      var at := rowOffset + e.byteOffset + Times(j, ItemSize(e.dtype));
      var x := view(e.dtype, seg[at..at + ItemSize(e.dtype)]);
      assert b[at..at + ItemSize(e.dtype)] == seg[at..at + ItemSize(e.dtype)];
      ghost var was := out[cursor..cursor + j];
      out[cursor + j] := x;
      assert out[cursor..cursor + (j + 1)] == was + [x];
    }
  }

  datatype ReadResult = Read | NoSuchEntity | EmptyId | BadOut

  /** `assemble`: look the entity up, then read its row. */
  method Assemble(seg: array<byte>, L: SegmentLayout, H: HashFn, view: View, s: Fields, ghost N: NameHash,
                     table: seq<Extent>, id: Buffer, out: array<Float>) returns (r: ReadResult)
    requires WellFormed(L, H, seg[..]) && RowsOf(L, s) && TableFor(s, N, table)
    modifies out
    ensures r.EmptyId? <==> id == []
    ensures r.NoSuchEntity? <==> id != [] && id !in StoreMap(L, H, seg[..])
    ensures r.BadOut? <==> id in StoreMap(L, H, seg[..]) && out.Length != TotalElementCount(s)
    ensures r.Read? ==> out[..] == ReadMeaning(view, s, L, H, seg[..], id)
    ensures !r.Read? ==> out[..] == old(out[..])
  {
    hide WellFormed, StoreMap, Assembled, RowSize, TotalElementCount, LookupMeaning;
    var found := Lookup(seg, L, H, id);
    LookupReadsMap(L, H, seg[..], id);
    LookupKinds(L, H, seg[..], id);
    if !found.RowAt? {
      return if found.InvalidId? then EmptyId else NoSuchEntity;
    }
    if out.Length != TotalElementCount(s) {
      return BadOut;
    }
    AssembleCore(seg, found.offset, view, s, N, table, out);
    return Read;
  }

  lemma LookupKinds(L: SegmentLayout, H: HashFn, b: Buffer, id: Buffer)
    requires WellFormed(L, H, b)
    ensures LookupMeaning(L, H, b, id).InvalidId? <==> id == []
    ensures LookupMeaning(L, H, b, id).RowAt? ==> id != []
  {
  }

  // ---------------------------------------------------------------------------
  // A batch
  // ---------------------------------------------------------------------------

  ghost function RowOf(out: array2<Float>, b: nat): (v: seq<Float>)
    requires b < out.Length0
    reads out
    ensures |v| == out.Length1
  {
    seq(out.Length1, k requires 0 <= k < out.Length1 reads out => out[b, k])
  }

  method BatchField(seg: array<byte>, rowOffset: nat, view: View, s: Fields, ghost N: NameHash, e: Extent, ghost f: nat,
                    cursor: nat, out: array2<Float>, b: nat)
    requires f < |s| && e == FieldExtent(s, N, f) && rowOffset + RowSize(s) <= seg.Length
    requires b < out.Length0 && cursor + e.elementCount <= out.Length1
    modifies out
    ensures forall i, k {:trigger out[i, k]} :: 0 <= i < out.Length0 && 0 <= k < out.Length1 && i != b ==>
              out[i, k] == old(out[i, k])
    ensures forall k {:trigger out[b, k]} :: 0 <= k < cursor ==> out[b, k] == old(out[b, k])
    ensures e.elementCount == ElementCount(s[f].shape) && Times(e.elementCount, ItemSize(s[f].dtype)) == ByteCount(s[f])
    ensures var v := Floats(view, s[f].dtype, FieldSlice(s, seg[..][rowOffset..rowOffset + RowSize(s)], f),
              e.elementCount);
            forall j {:trigger out[b, j]} :: cursor <= j < cursor + e.elementCount ==> out[b, j] == v[j - cursor]
  {
    hide AlignUp, ElementCount, Cursor, Offset, Times, FieldSlice, RowSize, Floats;
    ghost var bytes := seg[..];
    ghost var slice := FieldSlice(s, bytes[rowOffset..rowOffset + RowSize(s)], f);
    NoElements(view, e.dtype, slice);
    for j := 0 to e.elementCount
      invariant Times(j, ItemSize(e.dtype)) <= |slice|
      invariant forall i, k {:trigger out[i, k]} :: 0 <= i < out.Length0 && 0 <= k < out.Length1 && i != b ==>
                  out[i, k] == old(out[i, k])
      invariant forall k {:trigger out[b, k]} :: 0 <= k < cursor ==> out[b, k] == old(out[b, k])
      invariant forall k {:trigger out[b, k]} :: cursor <= k < cursor + j ==>
                  out[b, k] == Floats(view, e.dtype, slice, j)[k - cursor]
    {
      ElementRead(view, s, N, bytes, rowOffset, f, j);
      var at := rowOffset + e.byteOffset + Times(j, ItemSize(e.dtype));
      assert bytes[at..at + ItemSize(e.dtype)] == seg[at..at + ItemSize(e.dtype)];
      out[b, cursor + j] := view(e.dtype, seg[at..at + ItemSize(e.dtype)]);
    }
  }

  /** The hit branch of the batch kernels. */
  method BatchHit(seg: array<byte>, rowOffset: nat, view: View, s: Fields, ghost N: NameHash, table: seq<Extent>,
                  out: array2<Float>, b: nat)
    requires TableFor(s, N, table) && rowOffset + RowSize(s) <= seg.Length
    requires b < out.Length0 && out.Length1 == TotalElementCount(s)
    modifies out
    ensures RowOf(out, b) == RowFloats(view, s, seg[..], rowOffset)
    ensures forall i {:trigger RowOf(out, i)} :: 0 <= i < out.Length0 && i != b ==> RowOf(out, i) == old(RowOf(out, i))
  {
    hide AlignUp, ElementCount, Cursor, Offset, Times, ByteCount, FieldSlice, RowSize, Floats;
    ghost var bytes := seg[..];
    ghost var row := bytes[rowOffset..rowOffset + RowSize(s)];
    var cursor := 0;
    for f := 0 to |table|
      invariant cursor == ElementsBefore(s, f) <= out.Length1
      invariant forall i, k {:trigger out[i, k]} :: 0 <= i < out.Length0 && 0 <= k < out.Length1 && i != b ==>
                  out[i, k] == old(out[i, k])
      invariant forall k {:trigger out[b, k]} :: 0 <= k < cursor ==> out[b, k] == Assembled(view, s, row, f)[k]
    {
      ElementsGrow(s, f);
      BatchField(seg, rowOffset, view, s, N, table[f], f, cursor, out, b);
      cursor := cursor + table[f].elementCount;
    }
  }

  /** The miss branch: the whole row is overwritten with zeros. */
  method BatchMiss(out: array2<Float>, b: nat)
    requires b < out.Length0
    modifies out
    ensures RowOf(out, b) == seq(out.Length1, i => ZERO)
    ensures forall i {:trigger RowOf(out, i)} :: 0 <= i < out.Length0 && i != b ==> RowOf(out, i) == old(RowOf(out, i))
  {
    for j := 0 to out.Length1
      invariant forall i, k {:trigger out[i, k]} :: 0 <= i < out.Length0 && 0 <= k < out.Length1 && i != b ==>
                  out[i, k] == old(out[i, k])
      invariant forall k {:trigger out[b, k]} :: 0 <= k < j ==> out[b, k] == ZERO
    {
      out[b, j] := ZERO;
    }
  }

  /** The queries as the wrapper lays them out: padded bytes, lengths, hashes. */
  datatype Queries = Queries(padded: seq<Buffer>, lens: seq<nat>, hashes: seq<u64>)

  ghost predicate QueriesFor(q: Queries, H: HashFn, ids: seq<Buffer>)
  {
    && |q.padded| == |q.lens| == |q.hashes| == |ids|
    && forall b {:trigger ids[b]} :: 0 <= b < |ids| ==> QueryFor(q.padded[b], q.lens[b], q.hashes[b], H, ids[b])
  }

  ghost predicate QueryFor(padded: Buffer, len: nat, hash: u64, H: HashFn, id: Buffer)
  {
    len <= |padded| && padded[..len] == id && hash == H(id)
  }

  /** Row `b` of the answer: the vector a single read gives, or zeros, and the mask bit. */
  ghost predicate Answered(view: View, s: Fields, L: SegmentLayout, H: HashFn, bytes: Buffer, id: Buffer,
                           out: array2<Float>, found: array<bool>, b: nat)
    requires WellFormed(L, H, bytes) && RowsOf(L, s) && b < out.Length0 && b < found.Length
    reads out, found
  {
    RowOf(out, b) == ReadMeaning(view, s, L, H, bytes, id) && (found[b] <==> id in StoreMap(L, H, bytes))
  }

  /** Iteration `b` of the batch kernels. */
  method BatchOne(seg: array<byte>, q: Queries, b: nat, L: SegmentLayout, view: View, s: Fields, table: seq<Extent>,
                  out: array2<Float>, found: array<bool>, ghost H: HashFn, ghost N: NameHash, ghost ids: seq<Buffer>)
    requires WellFormed(L, H, seg[..]) && RowsOf(L, s) && TableFor(s, N, table) && QueriesFor(q, H, ids) && b < |ids|
    requires out.Length0 == found.Length == |ids| && out.Length1 == TotalElementCount(s)
    modifies out, found
    ensures Answered(view, s, L, H, seg[..], ids[b], out, found, b)
    ensures forall i {:trigger RowOf(out, i)} :: 0 <= i < out.Length0 && i != b ==> RowOf(out, i) == old(RowOf(out, i))
    ensures forall i {:trigger found[i]} :: 0 <= i < found.Length && i != b ==> found[i] == old(found[i])
  {
    hide WellFormed, StoreMap, Assembled, RowSize, TotalElementCount, RawMeaning;
    ghost var id := ids[b];
    var rowOffset := ProbeQuery(seg, q.padded[b], q.lens[b], q.hashes[b], L, false, H);
    RawReadsRow(L, H, seg[..], ids[b]);
    if rowOffset == -1 {
      BatchMiss(out, b);
      found[b] := false;
    } else {
      BatchHit(seg, rowOffset, view, s, N, table, out, b);
      found[b] := true;
    }
  }

  /** Both batch kernels: the iterations may run in any order, and neither buffer's
      earlier contents matter. */
  method AssembleBatchCore(seg: array<byte>, q: Queries, L: SegmentLayout, view: View, s: Fields, table: seq<Extent>,
                           out: array2<Float>, found: array<bool>, order: seq<nat>,
                           ghost H: HashFn, ghost N: NameHash, ghost ids: seq<Buffer>)
    requires WellFormed(L, H, seg[..]) && RowsOf(L, s) && TableFor(s, N, table) && QueriesFor(q, H, ids)
    requires out.Length0 == found.Length == |ids| && out.Length1 == TotalElementCount(s)
    requires IsPermutation(order, |ids|)
    modifies out, found
    ensures forall b {:trigger ids[b]} :: 0 <= b < |ids| ==> Answered(view, s, L, H, seg[..], ids[b], out, found, b)
  {
    hide WellFormed, StoreMap, ReadMeaning, RowSize, TotalElementCount, RowsOf, TableFor, QueriesFor;
    ghost var bytes := seg[..];
    for t := 0 to |order|
      invariant seg[..] == bytes
      invariant forall j {:trigger order[j]} :: 0 <= j < t ==>
                  Answered(view, s, L, H, bytes, ids[order[j]], out, found, order[j])
    {
      BatchOne(seg, q, order[t], L, view, s, table, out, found, H, N, ids);
    }
    forall b | 0 <= b < |ids|
      ensures Answered(view, s, L, H, bytes, ids[b], out, found, b)
    {
      assert b in order;
    }
  }

  datatype BatchResult = Filled | EmptyIdAt(index: nat) | BadShape

  /** Lengths, hashes and zero-padded bytes of the queries. */
  method PrepareQueries(ids: seq<Buffer>, H: HashFn) returns (q: Queries, empty: Option<nat>)
    ensures empty.Some? ==> empty.value < |ids| && ids[empty.value] == []
                            && forall i {:trigger ids[i]} :: 0 <= i < empty.value ==> ids[i] != []
    ensures empty.None? ==> QueriesFor(q, H, ids) && forall i {:trigger ids[i]} :: 0 <= i < |ids| ==> ids[i] != []
  {
    var maxLen := 0;
    q := Queries([], [], []);
    for i := 0 to |ids|
      invariant forall j {:trigger ids[j]} :: 0 <= j < i ==> ids[j] != [] && |ids[j]| <= maxLen
    {
      if ids[i] == [] {
        return q, Some(i);
      }
      if |ids[i]| > maxLen {
        maxLen := |ids[i]|;
      }
    }
    var padded: seq<Buffer>, lens: seq<nat>, hashes: seq<u64> := [], [], [];
    for i := 0 to |ids|
      invariant |padded| == |lens| == |hashes| == i
      invariant forall b {:trigger ids[b]} :: 0 <= b < i ==> QueryFor(padded[b], lens[b], hashes[b], H, ids[b])
    {
      var id := ids[i];
      var row := id + Zeros(maxLen - |id|);
      assert row[..|id|] == id;
      padded := padded + [row];
      lens := lens + [|id|];
      hashes := hashes + [H(row[..|id|])];
      assert QueryFor(row, |id|, H(row[..|id|]), H, id);
    }
    q, empty := Queries(padded, lens, hashes), None;
    assert QueriesFor(q, H, ids);
  }

  /** `assemble_batch`: each row is what a single read of that id gives, or zeros with the
      mask bit clear; an empty id or a wrong shape leaves the buffers alone. */
  method AssembleBatch(seg: array<byte>, L: SegmentLayout, H: HashFn, view: View, s: Fields, ghost N: NameHash,
                       table: seq<Extent>, ids: seq<Buffer>, out: array2<Float>, found: array<bool>, order: seq<nat>)
    returns (r: BatchResult)
    requires WellFormed(L, H, seg[..]) && RowsOf(L, s) && TableFor(s, N, table) && IsPermutation(order, |ids|)
    modifies out, found
    ensures r.BadShape? <==> out.Length0 != |ids| || out.Length1 != TotalElementCount(s) || found.Length != |ids|
    ensures r.EmptyIdAt? ==> r.index < |ids| && ids[r.index] == []
                             && forall i {:trigger ids[i]} :: 0 <= i < r.index ==> ids[i] != []
    ensures r.Filled? ==> forall b {:trigger ids[b]} :: 0 <= b < |ids| ==>
              ids[b] != [] && Answered(view, s, L, H, seg[..], ids[b], out, found, b)
    ensures !r.Filled? ==>
              (forall i {:trigger RowOf(out, i)} :: 0 <= i < out.Length0 ==> RowOf(out, i) == old(RowOf(out, i)))
                           && found[..] == old(found[..])
  {
    hide WellFormed, StoreMap, ReadMeaning, RowSize, TotalElementCount, RowsOf, TableFor, QueriesFor, Answered;
    if out.Length0 != |ids| || out.Length1 != TotalElementCount(s) || found.Length != |ids| {
      return BadShape;
    }
    var q, empty := PrepareQueries(ids, H);
    if empty.Some? {
      return EmptyIdAt(empty.value);
    }
    AssembleBatchCore(seg, q, L, view, s, table, out, found, order, H, N, ids);
    return Filled;
  }
}
