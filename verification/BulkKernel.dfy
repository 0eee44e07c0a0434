/** `insert_many`: the kernel's loops over a raw buffer, and the exact condition under
    which the fast path equals inserting row by row. */
module BulkKernel {
  import opened Bits
  import opened Bytes
  import opened Layout
  import opened SlotTable
  import opened Segment
  import opened SegmentInsert
  import opened Upsert
  import opened SegmentRuns
  import opened Schema
  import opened BulkInsert
  import opened BulkColumns

  /** Row `i` after scattering its first `n` fields over zeros. */
  function ScatteredRow(s: Fields, cols: seq<seq<Buffer>>, i: nat, n: nat): (row: Buffer)
    requires n <= |s| && |cols| == |s| && forall f :: 0 <= f < |s| ==> i < |cols[f]| && |cols[f][i]| == ByteCount(s[f])
    ensures |row| == RowSize(s)
  {
    if n == 0 then Zeros(RowSize(s))
    else
      ExtentInRow(s, _ => 0, n - 1);
      Splice(ScatteredRow(s, cols, i, n - 1), Offset(s, 0, n - 1), cols[n - 1][i])
  }

  /** The single inserts a table stands for: rows zero-padded between fields. */
  ghost function RowOps(s: Fields, ids: seq<Buffer>, cols: seq<seq<Buffer>>): (ops: seq<Op>)
    requires ColumnSizes(s, |ids|, cols)
    ensures |ops| == |ids| && forall i :: 0 <= i < |ids| ==> ops[i].id == ids[i] && |ops[i].row| == RowSize(s)
  {
    seq(|ids|, i requires 0 <= i < |ids| => (CellsSized(s, |ids|, cols, i); Op(ids[i], ScatteredRow(s, cols, i, |s|))))
  }

  lemma CellsSized(s: Fields, n: nat, cols: seq<seq<Buffer>>, i: nat)
    requires ColumnSizes(s, n, cols) && i < n
    ensures |cols| == |s| && forall f :: 0 <= f < |s| ==> i < |cols[f]| && |cols[f][i]| == ByteCount(s[f])
  {
    forall f | 0 <= f < |s|
      ensures i < |cols[f]| && |cols[f][i]| == ByteCount(s[f])
    {
      assert SizedCells(cols[f], ByteCount(s[f]));
    }
  }

  lemma SpliceZeros(b: Buffer, off: nat, n: nat)
    requires off + n <= |b| && forall k :: off <= k < off + n ==> b[k] == 0
    ensures Splice(b, off, Zeros(n)) == b
  {
  }

  lemma SpliceNested(b: Buffer, off: nat, row: Buffer, o: nat, d: Buffer)
    requires off + |row| <= |b| && o + |d| <= |row|
    ensures Splice(Splice(b, off, row), off + o, d) == Splice(b, off, Splice(row, o, d))
  {
  }

  /** The kernel's field loop for one row: scatter the cells over a zeroed row. */
  method ScatterRow(buf: array<byte>, rowAbs: nat, i: nat, s: Fields, c: Columns, ghost H: HashFn,
                    ghost ids: seq<Buffer>, ghost cols: seq<seq<Buffer>>)
    requires ColumnsFor(s, H, ids, cols, c) && i < |ids| && rowAbs + RowSize(s) <= buf.Length
    requires forall k :: rowAbs <= k < rowAbs + RowSize(s) ==> buf[k] == 0
    modifies buf
    ensures buf[..] == Splice(old(buf[..]), rowAbs, RowOps(s, ids, cols)[i].row)
  {
    hide ByteCount, Offset, RowSize, Splice, IdsAt;
    ghost var was := buf[..];
    CellsSized(s, |ids|, cols, i);
    SpliceZeros(was, rowAbs, RowSize(s));
    for f := 0 to |s|
      invariant buf[..] == Splice(was, rowAbs, ScatteredRow(s, cols, i, f))
    {
      ExtentInRow(s, _ => 0, f);
      ghost var cell := cols[f][i];
      assert CellAt(c.starts, c.fieldData, f, i, cell);
      var cnt := ByteCount(s[f]);
      var src := c.starts[f] + Times(i, cnt);
      SpliceNested(was, rowAbs, ScatteredRow(s, cols, i, f), Offset(s, 0, f), cell);
      WriteAt(buf, rowAbs + Offset(s, 0, f), c.fieldData[src..src + cnt]);
    }
  }

  // ---------------------------------------------------------------------------
  // The kernel keeps enough empty slots, whatever the ids
  // ---------------------------------------------------------------------------

  function FlagAt(L: SegmentLayout, b: Buffer, j: nat): nat
    requires L.slotTableOffset + SLOT_BYTES * L.slotCapacity <= |b| && j < L.slotCapacity
  {
    ReadU32(b, SlotOff(L, j) + SLOT_FLAGS_OFFSET)
  }

  /** After `i` rows: the rows still to come are zero, and only `taken` slots are in use. */
  ghost predicate RowsLeft(L: SegmentLayout, b: Buffer, i: nat, taken: seq<nat>)
  {
    && Sized(L, b) && |taken| == i
    && ZeroFrom(b, RowOff(L, i))
    && forall j {:trigger FlagAt(L, b, j)} :: 0 <= j < L.slotCapacity && FlagAt(L, b, j) != 0 ==> j in taken
  }

  lemma {:induction false} Covered(s: seq<nat>, n: nat)
    requires forall j :: 0 <= j < n ==> j in s
    ensures n <= |s|
  {
    if n > 0 {
      assert n - 1 in s;
      var k :| 0 <= k < |s| && s[k] == n - 1;
      var rest := s[..k] + s[k + 1..];
      forall j | 0 <= j < n - 1
        ensures j in rest
      {
        assert j in s;
        var m :| 0 <= m < |s| && s[m] == j;
        assert rest[if m < k then m else m - 1] == j;
      }
      Covered(rest, n - 1);
    }
  }

  lemma {:induction false} NoEmptyVisits(L: SegmentLayout, b: Buffer, at: nat, fuel: nat, j: nat)
    requires L.slotTableOffset + SLOT_BYTES * L.slotCapacity <= |b| && at < L.slotCapacity && j < L.slotCapacity
    requires fuel <= L.slotCapacity && FirstEmpty(L, b, at, fuel).None? && Distance(at, j, L.slotCapacity) < fuel
    ensures FlagAt(L, b, j) != 0
    decreases fuel
  {
    if j != at {
      NoEmptyVisits(L, b, Succ(at, L.slotCapacity), fuel - 1, j);
    }
  }

  lemma {:induction false} FirstEmptyIs(L: SegmentLayout, b: Buffer, at: nat, fuel: nat)
    requires L.slotTableOffset + SLOT_BYTES * L.slotCapacity <= |b| && at < L.slotCapacity
    requires FirstEmpty(L, b, at, fuel).Some?
    ensures FirstEmpty(L, b, at, fuel).value < L.slotCapacity && FlagAt(L, b, FirstEmpty(L, b, at, fuel).value) == 0
    decreases fuel
  {
    if FlagAt(L, b, at) != 0 {
      FirstEmptyIs(L, b, Succ(at, L.slotCapacity), fuel - 1);
    }
  }

  /** While rows are left, the kernel always finds an empty slot. */
  lemma EmptyExists(L: SegmentLayout, b: Buffer, i: nat, taken: seq<nat>, at: nat)
    requires RowsLeft(L, b, i, taken) && i < L.capacity && at < L.slotCapacity
    ensures L.slotTableOffset + SLOT_BYTES * L.slotCapacity <= |b|
    ensures FirstEmpty(L, b, at, L.slotCapacity).Some?
  {
    if FirstEmpty(L, b, at, L.slotCapacity).None? {
      forall j | 0 <= j < L.slotCapacity
        ensures j in taken
      {
        NoEmptyVisits(L, b, at, L.slotCapacity, j);
        assert FlagAt(L, b, j) != 0;
      }
      Covered(taken, L.slotCapacity);
    }
  }

  /** Where a kernel row's writes go. */
  ghost predicate KernelPlace(L: SegmentLayout, i: nat, poolCursor: nat, e: nat, id: Buffer, row: Buffer)
  {
    && Valid(L) && i < L.capacity && e < L.slotCapacity && |row| == L.rowSize
    && poolCursor + LEN_PREFIX_BYTES + |id| <= L.poolDataBytes
  }

  lemma KernelFits(L: SegmentLayout, b: Buffer, i: nat, poolCursor: nat, e: nat, h: u64, id: Buffer, row: Buffer)
    requires KernelPlace(L, i, poolCursor, e, id, row) && |b| == L.totalSize
    ensures AllFit(|b|, KernelWrites(L, i, poolCursor, e, h, id, row))
    ensures L.poolDataOffset + poolCursor + LEN_PREFIX_BYTES + |id| <= L.rowsOffset <= RowOff(L, i)
    ensures RowOff(L, i) + L.rowSize == RowOff(L, i + 1) <= |b|
    ensures SlotOff(L, e) + SLOT_BYTES <= L.poolOffset
  {
    SlotInBounds(L, e);
    RowInBounds(L, i);
  }

  /** A kernel row takes one more slot and leaves every later row zero. */
  lemma RowsLeftStep(L: SegmentLayout, b: Buffer, i: nat, taken: seq<nat>, poolCursor: nat, e: nat, h: u64, id: Buffer,
                     row: Buffer)
    requires RowsLeft(L, b, i, taken) && KernelPlace(L, i, poolCursor, e, id, row)
    ensures var ws := KernelWrites(L, i, poolCursor, e, h, id, row);
            AllFit(|b|, ws) && RowsLeft(L, ApplyAll(b, ws), i + 1, taken + [e])
  {
    hide Decode, Encode, ApplyAll, Bits.Times;
    KernelFits(L, b, i, poolCursor, e, h, id, row);
    var ws := KernelWrites(L, i, poolCursor, e, h, id, row);
    var x := ApplyAll(b, ws);
    TailStays(b, ws, RowOff(L, i), RowOff(L, i + 1));
    forall j | 0 <= j < L.slotCapacity && FlagAt(L, x, j) != 0
      ensures j in taken + [e]
    {
      if j != e {
        SlotInBounds(L, j);
        KeptOutside(b, ws, SlotOff(L, j) + SLOT_FLAGS_OFFSET, SlotOff(L, j) + SLOT_FLAGS_OFFSET + 4);
        assert FlagAt(L, b, j) != 0;
      }
    }
  }

  lemma TailStays(b: Buffer, ws: seq<Write>, from: nat, lo: nat)
    requires AllFit(|b|, ws) && from <= lo <= |b| && ZeroFrom(b, from)
    requires forall k :: 0 <= k < |ws| ==> ws[k].off + |ws[k].data| <= lo
    ensures ZeroFrom(ApplyAll(b, ws), lo)
  {
    hide ApplyAll;
    var x := ApplyAll(b, ws);
    KeptOutside(b, ws, lo, |b|);
    forall k | lo <= k < |x|
      ensures x[k] == 0
    {
      assert x[lo..][k - lo] == b[lo..][k - lo];
    }
  }

  // ---------------------------------------------------------------------------
  // The kernel
  // ---------------------------------------------------------------------------

  lemma ApplyNext(b: Buffer, ws: seq<Write>, k: nat)
    requires AllFit(|b|, ws) && k < |ws|
    ensures AllFit(|b|, ws[..k]) && AllFit(|b|, ws[..k + 1])
    ensures ApplyAll(b, ws[..k + 1]) == Apply(ApplyAll(b, ws[..k]), ws[k])
  {
    hide Apply;
    var upto := ws[..k + 1];
    assert upto[..|upto| - 1] == ws[..k] && upto[|upto| - 1] == ws[k];
  }

  /** The probe of the kernel: the first slot whose flags are empty. */
  method FindEmpty(buf: array<byte>, L: SegmentLayout, h: u64) returns (found: bool, e: nat)
    requires Sized(L, buf[..])
    ensures L.slotTableOffset + SLOT_BYTES * L.slotCapacity <= buf.Length && L.slotCapacity > 0
    ensures var r := FirstEmpty(L, buf[..], Bits.Remainder(h, L.slotCapacity), L.slotCapacity);
            (found <==> r.Some?) && (found ==> r == Some(e) && e < L.slotCapacity)
  {
    hide Decode, Bits.And, Bits.Remainder, Bits.Times;
    var b := buf[..];
    MaskIsHome(L, h);
    SlotInBounds(L, 0);
    e := Bits.And(h, L.slotCapacity - 1);
    for k := 0 to L.slotCapacity
      invariant 0 <= e < L.slotCapacity
      invariant FirstEmpty(L, b, Bits.Remainder(h, L.slotCapacity), L.slotCapacity) ==
                  FirstEmpty(L, b, e, L.slotCapacity - k)
    {
      SlotInBounds(L, e);
      if ReadU32(b, SlotOff(L, e) + SLOT_FLAGS_OFFSET) == 0 {
        return true, e;
      }
      MaskIsSucc(L, e);
      e := Bits.And(e + 1, L.slotCapacity - 1);
    }
    return false, 0;
  }

  /** The length-prefixed pool entry. */
  method WritePool(buf: array<byte>, poolAbs: nat, i: nat, c: Columns, ghost ws: seq<Write>, ghost id: Buffer)
    requires IdAt(c.idOffsets, c.idBytes, i, id)
    requires AllFit(buf.Length, ws) && |ws| > 3
    requires ws[0] == Write(poolAbs, Encode(|id|, 4)) && ws[1] == Write(poolAbs + LEN_PREFIX_BYTES, id)
    modifies buf
    ensures AllFit(buf.Length, ws[..2]) && buf[..] == ApplyAll(old(buf[..]), ws[..2])
  {
    hide Encode, ApplyAll, Splice;
    ghost var b := buf[..];
    var strOff := c.idOffsets[i];
    var strLen := c.idOffsets[i + 1] - strOff;
    ApplyNone(b, ws);
    ApplyNext(b, ws, 0);
    assert ws[0].Fits(|b|) && ws[1].Fits(|b|);
    WriteAt(buf, poolAbs, Encode(strLen, 4));
    ApplyNext(b, ws, 1);
    WriteAt(buf, poolAbs + LEN_PREFIX_BYTES, c.idBytes[strOff..strOff + strLen]);
  }

  /** The pool entry and the row cells. */
  method WritePoolAndRow(buf: array<byte>, L: SegmentLayout, i: nat, poolCursor: nat, s: Fields, c: Columns,
                         ghost ws: seq<Write>, ghost H: HashFn, ghost ids: seq<Buffer>, ghost cols: seq<seq<Buffer>>)
    requires ColumnsFor(s, H, ids, cols, c) && i < |ids|
    requires AllFit(buf.Length, ws) && |ws| > 3 && ws[0] == Write(L.poolDataOffset + poolCursor, Encode(|ids[i]|, 4))
    requires ws[1] == Write(L.poolDataOffset + poolCursor + LEN_PREFIX_BYTES, ids[i])
    requires ws[2] == Write(RowOff(L, i), RowOps(s, ids, cols)[i].row)
    requires ws[1].off + |ids[i]| <= RowOff(L, i) && ZeroFrom(buf[..], RowOff(L, i))
    modifies buf
    ensures AllFit(buf.Length, ws[..3]) && buf[..] == ApplyAll(old(buf[..]), ws[..3])
  {
    hide Encode, RowSize, ApplyAll, RowOps, ColumnSizes, IdsAt, RowOff, Splice;
    ghost var b := buf[..];
    IdFound(ids, c.idOffsets, c.idBytes, i);
    WritePool(buf, L.poolDataOffset + poolCursor, i, c, ws, ids[i]);
    assert ws[2].Fits(|b|) && |ws[2].data| == RowSize(s);
    TailStays(b, ws[..2], RowOff(L, i), RowOff(L, i));
    ScatterRow(buf, RowOff(L, i), i, s, c, H, ids, cols);
    ApplyNext(b, ws, 2);
  }

  lemma IdFound(ids: seq<Buffer>, offsets: seq<nat>, bytes: Buffer, i: nat)
    requires IdsAt(ids, offsets, bytes) && i < |ids|
    ensures IdAt(offsets, bytes, i, ids[i])
  {
  }

  /** The slot fields, the flags last. */
  method WriteSlot(buf: array<byte>, L: SegmentLayout, i: nat, poolCursor: nat, e: nat, h: u64, ghost ws: seq<Write>,
                   ghost b: Buffer)
    requires |ws| == 7 && |b| == buf.Length && AllFit(buf.Length, ws)
    requires ws[3] == Write(SlotOff(L, e) + SLOT_NAME_HASH_OFFSET, Encode(h, 8))
    requires ws[4] == Write(SlotOff(L, e) + SLOT_ID_OFFSET_OFFSET, Encode(poolCursor, 8))
    requires ws[5] == Write(SlotOff(L, e) + SLOT_FEATURE_ROW_INDEX_OFFSET, Encode(i, 4))
    requires ws[6] == Write(SlotOff(L, e) + SLOT_FLAGS_OFFSET, Encode(OCCUPIED, 4))
    requires AllFit(buf.Length, ws[..3]) && buf[..] == ApplyAll(b, ws[..3])
    modifies buf
    ensures buf[..] == ApplyAll(b, ws)
  {
    hide Encode, ApplyAll, Splice;
    var base := SlotOff(L, e);
    ApplyNext(b, ws, 3);
    WriteAt(buf, base + SLOT_NAME_HASH_OFFSET, Encode(h, 8));
    ApplyNext(b, ws, 4);
    WriteAt(buf, base + SLOT_ID_OFFSET_OFFSET, Encode(poolCursor, 8));
    ApplyNext(b, ws, 5);
    WriteAt(buf, base + SLOT_FEATURE_ROW_INDEX_OFFSET, Encode(i, 4));
    ApplyNext(b, ws, 6);
    WriteAt(buf, base + SLOT_FLAGS_OFFSET, Encode(OCCUPIED, 4));
    assert ws[..7] == ws;
  }

  /** Pool entry, row cells, slot fields, and the flags last. */
  method WriteKernelRow(buf: array<byte>, L: SegmentLayout, i: nat, poolCursor: nat, e: nat, s: Fields, c: Columns,
                        ghost H: HashFn, ghost ids: seq<Buffer>, ghost cols: seq<seq<Buffer>>)
    requires ColumnsFor(s, H, ids, cols, c) && i < |ids| && L.rowSize == RowSize(s)
    requires buf.Length == L.totalSize && KernelPlace(L, i, poolCursor, e, ids[i], RowOps(s, ids, cols)[i].row)
    requires ZeroFrom(buf[..], RowOff(L, i))
    modifies buf
    ensures var ws := KernelWrites(L, i, poolCursor, e, H(ids[i]), ids[i], RowOps(s, ids, cols)[i].row);
            AllFit(buf.Length, ws) && buf[..] == ApplyAll(old(buf[..]), ws)
  {
    hide Decode, Encode, Bits.Times, RowSize, ApplyAll, RowOps, ColumnSizes, Valid, IdsAt;
    ghost var id, row := ids[i], RowOps(s, ids, cols)[i].row;
    var h := c.hashes[i];
    ghost var ws := KernelWrites(L, i, poolCursor, e, h, id, row);
    KernelFits(L, buf[..], i, poolCursor, e, h, id, row);
    WritePoolAndRow(buf, L, i, poolCursor, s, c, ws, H, ids, cols);
    WriteSlot(buf, L, i, poolCursor, e, h, ws, old(buf[..]));
  }

  lemma ApplyNone(b: Buffer, ws: seq<Write>)
    ensures ApplyAll(b, ws[..0]) == b
  {
  }

  /** The pool budget, spent at most `4 + max_id_bytes` a row. */
  lemma {:induction false} PoolBudget(ids: seq<Buffer>, offsets: seq<nat>, bytes: Buffer, maxId: nat, i: nat)
    requires IdsAt(ids, offsets, bytes) && i <= |ids|
    requires forall j {:trigger ids[j]} :: 0 <= j < |ids| ==> |ids[j]| <= maxId
    ensures offsets[i] + LEN_PREFIX_BYTES * i <= Times(i, LEN_PREFIX_BYTES + maxId)
  {
    if i > 0 {
      PoolBudget(ids, offsets, bytes, maxId, i - 1);
      assert |ids[i - 1]| <= maxId && IdAt(offsets, bytes, i - 1, ids[i - 1]);
    }
  }

  lemma BudgetFits(L: SegmentLayout, ids: seq<Buffer>, offsets: seq<nat>, bytes: Buffer, i: nat)
    requires Valid(L) && IdsAt(ids, offsets, bytes) && |ids| <= L.capacity && i <= |ids|
    requires forall j {:trigger ids[j]} :: 0 <= j < |ids| ==> |ids[j]| <= L.maxIdBytes
    ensures offsets[i] + LEN_PREFIX_BYTES * i <= L.poolDataBytes
    ensures i < |ids| ==> offsets[i] + LEN_PREFIX_BYTES * i + LEN_PREFIX_BYTES + |ids[i]| <= L.poolDataBytes
    ensures i < |ids| ==> offsets[i + 1] == offsets[i] + |ids[i]|
  {
    PoolBudget(ids, offsets, bytes, L.maxIdBytes, i);
    TimesMonotone(i, L.capacity, LEN_PREFIX_BYTES + L.maxIdBytes);
    if i < |ids| {
      PoolBudget(ids, offsets, bytes, L.maxIdBytes, i + 1);
      TimesMonotone(i + 1, L.capacity, LEN_PREFIX_BYTES + L.maxIdBytes);
      assert IdAt(offsets, bytes, i, ids[i]);
    }
  }

  /** `_insert_many_core`: never runs out of slots, and on distinct non-empty ids leaves the
      bytes of the row-by-row fold, cursors aside. */
  method InsertManyCore(buf: array<byte>, L: SegmentLayout, s: Fields, c: Columns, ghost H: HashFn,
                        ghost ids: seq<Buffer>, ghost cols: seq<seq<Buffer>>)
    returns (r: int, ghost x: Buffer)
    requires Blank(L, buf[..]) && WellFormed(L, H, buf[..])
    requires ColumnsFor(s, H, ids, cols, c) && L.rowSize == RowSize(s)
    requires |ids| <= L.capacity && forall j {:trigger ids[j]} :: 0 <= j < |ids| ==> |ids[j]| <= L.maxIdBytes
    modifies buf
    ensures r >= 0 && |c.idOffsets| == |ids| + 1 && r == c.idOffsets[|ids|] + LEN_PREFIX_BYTES * |ids|
    ensures buf.Length >= DATA_REGION_OFFSET
    ensures DistinctFilled(ids, |ids|) ==>
              && |x| == buf.Length
              && Folded(L, H, old(buf[..]), RowOps(s, ids, cols), |ids|, x, r)
              && buf[..] == Uncounted(x)
  {
    hide Decode, Bits.Times, Bits.Remainder, RowSize, RowOps, ColumnSizes, Valid, WellFormed, KernelWrites, ApplyAll;
    hide Folded, Uncounted, FirstEmpty, IdsAt;
    ghost var b := buf[..];
    ghost var ops := RowOps(s, ids, cols);
    ghost var taken: seq<nat> := [];
    x := b;
    FoldStart(L, H, b, ops);
    BlankRowsLeft(L, b);
    OffsetsShape(ids, c.idOffsets, c.idBytes);
    var poolCursor := 0;
    for i := 0 to |c.hashes|
      invariant buf[..] == buf[..] && RowsLeft(L, buf[..], i, taken)
      invariant poolCursor == c.idOffsets[i] + LEN_PREFIX_BYTES * i
      invariant DistinctFilled(ids, i) ==>
                  Folded(L, H, b, ops, i, x, poolCursor) && |x| == |b| && buf[..] == Uncounted(x)
    {
      ghost var id, row := ids[i], ops[i].row;
      ghost var was := buf[..];
      HashAt(s, H, ids, cols, c, i);
      var found, e := FindEmpty(buf, L, c.hashes[i]);
      EmptyExists(L, was, i, taken, Bits.Remainder(c.hashes[i], L.slotCapacity));
      if !found {
        r := -(i + 1);
        assert false;
      }
      BudgetOf(L, H, ids, c, s, cols, b, i, e);
      assert buf.Length == L.totalSize;
      WriteKernelRow(buf, L, i, poolCursor, e, s, c, H, ids, cols);
      RowsLeftStep(L, was, i, taken, poolCursor, e, H(id), id, row);
      if DistinctFilled(ids, i + 1) {
        FoldFurther(L, H, b, s, ids, cols, i, x, poolCursor);
        ghost var e', y := FoldStep(L, H, b, ops, i, x, poolCursor);
        x := y;
      }
      taken := taken + [e];
      poolCursor := poolCursor + LEN_PREFIX_BYTES + (c.idOffsets[i + 1] - c.idOffsets[i]);
    }
    r := poolCursor;
  }

  lemma BlankRowsLeft(L: SegmentLayout, b: Buffer)
    requires Blank(L, b)
    ensures RowsLeft(L, b, 0, []) && |b| >= DATA_REGION_OFFSET
  {
    hide Decode;
    forall j | 0 <= j < L.slotCapacity
      ensures FlagAt(L, b, j) == 0
    {
      SlotInBounds(L, j);
      assert SlotsOf(L, b)[j].Vacant?;
    }
  }

  lemma OffsetsShape(ids: seq<Buffer>, offsets: seq<nat>, bytes: Buffer)
    requires IdsAt(ids, offsets, bytes)
    ensures |offsets| == |ids| + 1 && offsets[0] == 0
  {
  }

  lemma HashAt(s: Fields, H: HashFn, ids: seq<Buffer>, cols: seq<seq<Buffer>>, c: Columns, i: nat)
    requires ColumnsFor(s, H, ids, cols, c) && i < |ids|
    ensures c.hashes[i] == H(ids[i])
  {
    hide IdsAt, ColumnSizes;
    assert ids[i] == ids[i];
  }

  lemma BudgetOf(L: SegmentLayout, H: HashFn, ids: seq<Buffer>, c: Columns, s: Fields, cols: seq<seq<Buffer>>,
                 b: Buffer, i: nat, e: nat)
    requires WellFormed(L, H, b) && ColumnsFor(s, H, ids, cols, c) && L.rowSize == RowSize(s) && i < |ids| <= L.capacity
    requires forall j {:trigger ids[j]} :: 0 <= j < |ids| ==> |ids[j]| <= L.maxIdBytes
    requires e < L.slotCapacity
    ensures |c.idOffsets| == |ids| + 1 && c.idOffsets[i + 1] == c.idOffsets[i] + |ids[i]|
    ensures KernelPlace(L, i, c.idOffsets[i] + LEN_PREFIX_BYTES * i, e, ids[i], RowOps(s, ids, cols)[i].row)
  {
    hide RowSize, RowOps, ColumnSizes, IdsAt, TableOk, TableOf;
    OffsetsShape(ids, c.idOffsets, c.idBytes);
    BudgetFits(L, ids, c.idOffsets, c.idBytes, i);
  }

  lemma FoldFurther(L: SegmentLayout, H: HashFn, b: Buffer, s: Fields, ids: seq<Buffer>, cols: seq<seq<Buffer>>, i: nat,
                    x: Buffer, poolCursor: nat)
    requires ColumnSizes(s, |ids|, cols) && L.rowSize == RowSize(s) && i < |ids| && DistinctFilled(ids, i + 1)
    requires forall j {:trigger ids[j]} :: 0 <= j < |ids| ==> |ids[j]| <= L.maxIdBytes
    ensures DistinctFilled(ids, i)
    ensures Acceptable(L, RowOps(s, ids, cols)[i])
    ensures forall j :: 0 <= j < i ==> RowOps(s, ids, cols)[j].id != RowOps(s, ids, cols)[i].id
  {
    hide RowSize, RowOps, ColumnSizes;
    var ops := RowOps(s, ids, cols);
    assert ids[i] != [] && |ids[i]| <= L.maxIdBytes;
    forall j | 0 <= j < i
      ensures ops[j].id != ops[i].id
    {
      assert ids[j] != ids[i];
    }
  }

  // ---------------------------------------------------------------------------
  // insert_many
  // ---------------------------------------------------------------------------

  datatype BulkResult = Rows(n: nat) | NotFresh | TooManyRows | IdTooLong | PoolTooSmall | SlotsFull(row: nat)

  lemma UpdateSize(m: map<Buffer, Buffer>, id: Buffer, row: Buffer)
    ensures |m[id := row]| == if id in m then |m| else |m| + 1
  {
    assert m[id := row].Keys == m.Keys + {id};
    assert |m| == |m.Keys| && |m[id := row]| == |m[id := row].Keys|;
  }

  /** The last operation of a fold adds at most its own id, and only when it was not held. */
  lemma LastOp(L: SegmentLayout, ops: seq<Op>)
    requires ops != []
    ensures var was, now, op := MapRun(L, map[], ops[..|ops| - 1]), MapRun(L, map[], ops), ops[|ops| - 1];
            && (forall id {:trigger id in now} :: id in now ==> id in was || id == op.id)
            && (forall id {:trigger id in was} :: id in was ==> id in now)
            && |now| <= |was| + 1
            && (|now| == |was| + 1 ==> op.id !in was && op.id != [] && op.id in now)
  {
    var op := ops[|ops| - 1];
    UpdateSize(MapRun(L, map[], ops[..|ops| - 1]), op.id, op.row);
  }

  lemma {:induction false} RunIdsFromOps(L: SegmentLayout, ops: seq<Op>)
    ensures |MapRun(L, map[], ops)| <= |ops|
    ensures forall id :: id in MapRun(L, map[], ops) ==> exists j :: 0 <= j < |ops| && ops[j].id == id
  {
    if ops != [] {
      var init := ops[..|ops| - 1];
      RunIdsFromOps(L, init);
      LastOp(L, ops);
      hide MapRun;
      forall id | id in MapRun(L, map[], ops)
        ensures exists j :: 0 <= j < |ops| && ops[j].id == id
      {
        if id in MapRun(L, map[], init) {
          var j :| 0 <= j < |init| && init[j].id == id;
          assert ops[j].id == id;
        } else {
          assert ops[|ops| - 1].id == id;
        }
      }
    }
  }

  ghost predicate AllHeld(ops: seq<Op>, m: map<Buffer, Buffer>)
  {
    forall j {:trigger ops[j]} :: 0 <= j < |ops| ==> ops[j].id != [] && ops[j].id in m
  }

  ghost predicate DistinctIds(ops: seq<Op>)
  {
    forall j, k {:trigger ops[j], ops[k]} :: 0 <= j < k < |ops| ==> ops[j].id != ops[k].id
  }

  lemma AppendOp(ops: seq<Op>, was: map<Buffer, Buffer>, now: map<Buffer, Buffer>)
    requires ops != [] && AllHeld(ops[..|ops| - 1], was) && DistinctIds(ops[..|ops| - 1])
    requires forall id {:trigger id in was} :: id in was ==> id in now
    requires var op := ops[|ops| - 1]; op.id !in was && op.id != [] && op.id in now
    ensures AllHeld(ops, now) && DistinctIds(ops)
  {
    var init := ops[..|ops| - 1];
    assert ops == init + [ops[|ops| - 1]];
    assert forall j {:trigger init[j]} :: 0 <= j < |init| ==> init[j].id in was;
  }

  lemma {:induction false} FullRunHeld(L: SegmentLayout, ops: seq<Op>)
    requires |MapRun(L, map[], ops)| == |ops|
    ensures AllHeld(ops, MapRun(L, map[], ops)) && DistinctIds(ops)
  {
    hide MapRun;
    if ops != [] {
      LastOp(L, ops);
      RunIdsFromOps(L, ops[..|ops| - 1]);
      FullRunHeld(L, ops[..|ops| - 1]);
      AppendOp(ops, MapRun(L, map[], ops[..|ops| - 1]), MapRun(L, map[], ops));
    }
  }

  /** A fold that uses one row per operation saw only distinct, acceptable ids. */
  lemma {:induction false} FullRunIsDistinct(L: SegmentLayout, ops: seq<Op>)
    ensures |MapRun(L, map[], ops)| <= |ops|
    ensures forall id :: id in MapRun(L, map[], ops) ==> exists j :: 0 <= j < |ops| && ops[j].id == id
    ensures |MapRun(L, map[], ops)| == |ops| ==>
              && (forall j {:trigger ops[j]} :: 0 <= j < |ops| ==>
                    ops[j].id != [] && ops[j].id in MapRun(L, map[], ops))
              && (forall j, k {:trigger ops[j], ops[k]} :: 0 <= j < k < |ops| ==> ops[j].id != ops[k].id)
  {
    hide MapRun;
    RunIdsFromOps(L, ops);
    if |MapRun(L, map[], ops)| == |ops| {
      FullRunHeld(L, ops);
    }
  }

  lemma FullFoldIsDistinct(L: SegmentLayout, H: HashFn, b: Buffer, ops: seq<Op>, ids: seq<Buffer>)
    requires Fresh(L, b) && WellFormed(L, H, b) && |ops| == |ids|
    requires forall i {:trigger ids[i]} :: 0 <= i < |ids| ==> ops[i].id == ids[i]
    requires NextRow(SegmentRun(L, H, b, ops)) == |ids|
    ensures DistinctFilled(ids, |ids|)
  {
    hide Decode, SegmentRun, WellFormed, MapRun, Fresh, StoreMap;
    RunRefinesMap(L, H, b, ops);
    FullRunIsDistinct(L, ops);
    forall i | 0 <= i < |ids|
      ensures ids[i] != []
    {
      assert ops[i].id == ids[i];
    }
    forall i, j | 0 <= i < j < |ids|
      ensures ids[i] != ids[j]
    {
      assert ops[i].id == ids[i] && ops[j].id == ids[j];
    }
  }

  /** Bulk insert equals the row-by-row fold exactly on distinct non-empty ids. */
  lemma EqualsFoldIff(L: SegmentLayout, H: HashFn, b: Buffer, s: Fields, ids: seq<Buffer>, cols: seq<seq<Buffer>>,
                      y: Buffer)
    requires Blank(L, b) && WellFormed(L, H, b) && ColumnSizes(s, |ids|, cols)
    requires |y| == |b| && |y| >= DATA_REGION_OFFSET && NextRow(y) == |ids|
    requires DistinctFilled(ids, |ids|) ==> y == SegmentRun(L, H, b, RowOps(s, ids, cols))
    ensures y == SegmentRun(L, H, b, RowOps(s, ids, cols)) <==> DistinctFilled(ids, |ids|)
  {
    hide Decode, RowOps, SegmentRun, WellFormed, Fresh, DistinctFilled, ColumnSizes;
    if y == SegmentRun(L, H, b, RowOps(s, ids, cols)) {
      FullFoldIsDistinct(L, H, b, RowOps(s, ids, cols), ids);
    }
  }

  lemma FinalCursors(x: Buffer, n: nat, poolCursor: nat)
    requires |x| >= DATA_REGION_OFFSET
    ensures n < U64_LIMIT ==> NextRow(Splice(Uncounted(x), METADATA_OFFSET, CursorWords(n, poolCursor))) == n
    ensures x[METADATA_OFFSET..METADATA_OFFSET + CURSOR_BYTES] == CursorWords(n, poolCursor) ==>
              Splice(Uncounted(x), METADATA_OFFSET, CursorWords(n, poolCursor)) == x
  {
    hide Decode, Encode;
    var y := Splice(Uncounted(x), METADATA_OFFSET, CursorWords(n, poolCursor));
    assert y[METADATA_OFFSET..METADATA_OFFSET + 8] == Encode(n, 8);
    if n < U64_LIMIT {
      Word64(n);
    }
  }

  lemma WrittenRow(b: Buffer, n: nat, poolCursor: nat)
    requires |b| >= DATA_REGION_OFFSET && n < U64_LIMIT
    ensures NextRow(Splice(b, METADATA_OFFSET, CursorWords(n, poolCursor))) == n
  {
    hide Decode, Encode;
    var y := Splice(b, METADATA_OFFSET, CursorWords(n, poolCursor));
    assert y[METADATA_OFFSET..METADATA_OFFSET + 8] == Encode(n, 8);
    Word64(n);
  }

  /** Bulk-insert a table into a fresh segment. Its whole effect equals inserting the rows
      one by one if and only if the ids are distinct and non-empty; the slot-table and
      pool-total errors never occur. */
  method InsertMany(buf: array<byte>, L: SegmentLayout, s: Fields, H: HashFn, ids: seq<Buffer>, cols: seq<seq<Buffer>>)
    returns (r: BulkResult)
    requires Sized(L, buf[..]) && ColumnSizes(s, |ids|, cols) && L.rowSize == RowSize(s)
    requires NextRow(buf[..]) == 0 && PoolCursor(buf[..]) == 0 ==> Blank(L, buf[..])
    modifies buf
    ensures ids == [] ==> r == Rows(0)
    ensures ids != [] ==>
              var blank := NextRow(old(buf[..])) == 0 && PoolCursor(old(buf[..])) == 0;
              && (r.NotFresh? <==> !blank)
              && (r.TooManyRows? <==> blank && |ids| > L.capacity)
              && (r.IdTooLong? <==> blank && |ids| <= L.capacity && exists i {:trigger ids[i]} ::
                    0 <= i < |ids| && |ids[i]| > L.maxIdBytes)
              && !r.PoolTooSmall? && !r.SlotsFull?
              && (r.Rows? ==> r.n == |ids| && Blank(L, old(buf[..])) && WellFormed(L, H, old(buf[..])))
    ensures r.Rows? && ids != [] ==>
              (buf[..] == SegmentRun(L, H, old(buf[..]), RowOps(s, ids, cols)) <==> DistinctFilled(ids, |ids|))
    ensures !r.Rows? || ids == [] ==> buf[..] == old(buf[..])
  {
    hide Decode, Encode, RowSize, RowOps, ColumnSizes, WellFormed, SegmentRun, Blank, Splice, Uncounted, ColumnsFor;
    hide IdsAt, CursorWords;
    ghost var b := buf[..];
    if ids == [] {
      return Rows(0);
    }
    if NextRow(buf[..]) != 0 || PoolCursor(buf[..]) != 0 {
      return NotFresh;
    }
    if |ids| > L.capacity {
      return TooManyRows;
    }
    var c := PrepareInsertColumns(s, H, ids, cols);
    if exists i {:trigger ids[i]} :: 0 <= i < |ids| && |ids[i]| > L.maxIdBytes {
      return IdTooLong;
    }
    BlankIsEmpty(L, H, b);
    ColumnParts(s, H, ids, cols, c);
    OffsetsShape(ids, c.idOffsets, c.idBytes);
    BudgetFits(L, ids, c.idOffsets, c.idBytes, |ids|);
    if c.idOffsets[|ids|] + |ids| * LEN_PREFIX_BYTES > L.poolDataBytes {
      return PoolTooSmall;
    }
    ghost var x;
    var core;
    core, x := InsertManyCore(buf, L, s, c, H, ids, cols);
    if core < 0 {
      assert false;
    }
    ghost var before := buf[..];
    WriteAt(buf, METADATA_OFFSET, CursorWords(|ids|, core));
    WrittenRow(before, |ids|, core);
    if DistinctFilled(ids, |ids|) {
      FoldedWhole(L, H, b, RowOps(s, ids, cols), x, core);
      FinalCursors(x, |ids|, core);
    }
    EqualsFoldIff(L, H, b, s, ids, cols, buf[..]);
    return Rows(|ids|);
  }

  lemma BlankIsEmpty(L: SegmentLayout, H: HashFn, b: Buffer)
    requires Blank(L, b)
    ensures WellFormed(L, H, b)
  {
    FreshIsEmpty(L, H, b);
  }

  lemma ColumnParts(s: Fields, H: HashFn, ids: seq<Buffer>, cols: seq<seq<Buffer>>, c: Columns)
    requires ColumnsFor(s, H, ids, cols, c)
    ensures IdsAt(ids, c.idOffsets, c.idBytes)
  {
  }

  lemma FoldedWhole(L: SegmentLayout, H: HashFn, b: Buffer, ops: seq<Op>, x: Buffer, poolCursor: nat)
    requires WellFormed(L, H, b) && ops != [] && Folded(L, H, b, ops, |ops|, x, poolCursor)
    ensures x == SegmentRun(L, H, b, ops) && |x| == |b| && |x| >= DATA_REGION_OFFSET
    ensures x[METADATA_OFFSET..METADATA_OFFSET + CURSOR_BYTES] == CursorWords(|ops|, poolCursor)
  {
    assert ops[..|ops|] == ops;
  }
}
