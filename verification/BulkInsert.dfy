/** The bulk-insert fast path: columns laid out for the kernel, the kernel itself, and the
    proof that on distinct non-empty ids it leaves exactly the bytes that inserting the
    rows one by one leaves. */
module BulkInsert {
  import opened Bits
  import opened Bytes
  import opened Layout
  import opened SlotTable
  import opened Segment
  import opened SegmentInsert
  import opened Upsert
  import opened SegmentRuns
  import opened Schema
  import opened CrashSafety

  // ---------------------------------------------------------------------------
  // Cursors held back
  // ---------------------------------------------------------------------------

  const CURSOR_BYTES: nat := 16

  /** `x` with both cursors zero: what the kernel sees before the final metadata write. */
  function Uncounted(x: Buffer): (z: Buffer)
    requires |x| >= DATA_REGION_OFFSET
    ensures |z| == |x|
  {
    Splice(x, METADATA_OFFSET, Zeros(CURSOR_BYTES))
  }

  predicate ClearOfCursors(w: Write)
  {
    w.off + |w.data| <= METADATA_OFFSET || METADATA_OFFSET + CURSOR_BYTES <= w.off
  }

  lemma UncountedSame(x: Buffer, lo: nat, hi: nat)
    requires |x| >= DATA_REGION_OFFSET && lo <= hi <= |x|
    requires hi <= METADATA_OFFSET || METADATA_OFFSET + CURSOR_BYTES <= lo
    ensures Uncounted(x)[lo..hi] == x[lo..hi]
  {
    SpliceOutside(x, METADATA_OFFSET, Zeros(CURSOR_BYTES), lo, hi);
  }

  lemma UncountedWrite(x: Buffer, w: Write)
    requires |x| >= DATA_REGION_OFFSET && w.Fits(|x|)
    ensures ClearOfCursors(w) ==> Uncounted(Apply(x, w)) == Apply(Uncounted(x), w)
    ensures METADATA_OFFSET <= w.off && w.off + |w.data| <= METADATA_OFFSET + CURSOR_BYTES ==>
              Uncounted(Apply(x, w)) == Uncounted(x)
  {
    if ClearOfCursors(w) {
      SpliceCommute(x, METADATA_OFFSET, Zeros(CURSOR_BYTES), w.off, w.data);
    }
  }

  lemma {:induction false} UncountedWrites(x: Buffer, ws: seq<Write>)
    requires |x| >= DATA_REGION_OFFSET && AllFit(|x|, ws) && forall k :: 0 <= k < |ws| ==> ClearOfCursors(ws[k])
    ensures Uncounted(ApplyAll(x, ws)) == ApplyAll(Uncounted(x), ws)
  {
    hide Uncounted, Apply, ClearOfCursors;
    if ws != [] {
      var init := ws[..|ws| - 1];
      UncountedWrites(x, init);
      UncountedWrite(ApplyAll(x, init), ws[|ws| - 1]);
    }
  }

  lemma ApplyLast(x: Buffer, ws: seq<Write>)
    requires AllFit(|x|, ws) && ws != []
    ensures AllFit(|x|, ws[..|ws| - 1]) && ws[|ws| - 1].Fits(|x|)
    ensures ApplyAll(x, ws) == Apply(ApplyAll(x, ws[..|ws| - 1]), ws[|ws| - 1])
  {
    hide Apply;
  }

  lemma FitConcat(n: nat, a: seq<Write>, b: seq<Write>)
    requires AllFit(n, a) && AllFit(n, b)
    ensures AllFit(n, a + b)
  {
  }

  lemma ConcatInit<T>(a: seq<T>, b: seq<T>)
    requires b != []
    ensures a + b != [] && (a + b)[..|a + b| - 1] == a + b[..|b| - 1] && (a + b)[|a + b| - 1] == b[|b| - 1]
  {
  }

  lemma {:induction false} ApplyConcat(x: Buffer, a: seq<Write>, b: seq<Write>)
    requires AllFit(|x|, a) && AllFit(|x|, b)
    ensures AllFit(|x|, a + b) && ApplyAll(x, a + b) == ApplyAll(ApplyAll(x, a), b)
  {
    FitConcat(|x|, a, b);
    if b == [] {
      assert a + b == a;
    } else {
      hide Apply, ApplyAll, AllFit;
      ConcatInit(a, b);
      ApplyLast(x, a + b);
      ApplyLast(ApplyAll(x, a), b);
      ApplyConcat(x, a, b[..|b| - 1]);
    }
  }

  // ---------------------------------------------------------------------------
  // One row
  // ---------------------------------------------------------------------------

  /** The kernel's writes for row `i`: an insert's, without the cursors. */
  function KernelWrites(L: SegmentLayout, i: nat, poolCursor: nat, e: nat, h: u64, id: Buffer,
                        row: Buffer): (ws: seq<Write>)
  {
    var entry := L.poolDataOffset + poolCursor;
    [ Write(entry, Encode(|id|, 4)),
      Write(entry + LEN_PREFIX_BYTES, id),
      Write(RowOff(L, i), row),
      Write(SlotOff(L, e) + SLOT_NAME_HASH_OFFSET, Encode(h, 8)),
      Write(SlotOff(L, e) + SLOT_ID_OFFSET_OFFSET, Encode(poolCursor, 8)),
      Write(SlotOff(L, e) + SLOT_FEATURE_ROW_INDEX_OFFSET, Encode(i, 4)),
      Write(SlotOff(L, e) + SLOT_FLAGS_OFFSET, Encode(OCCUPIED, 4)) ]
  }

  /** One kernel row is one insert, cursors aside. */
  lemma KernelRowIsInsert(L: SegmentLayout, H: HashFn, x: Buffer, e: nat, id: Buffer, row: Buffer)
    requires CanInsert(L, H, x, e, id, row)
    ensures |x| >= DATA_REGION_OFFSET && AllFit(|x|, InsertWrites(L, x, e, H(id), id, row))
    ensures var ws := KernelWrites(L, NextRow(x), PoolCursor(x), e, H(id), id, row);
            && AllFit(|x|, ws)
            && Uncounted(InsertedBytes(L, x, e, H(id), id, row)) == ApplyAll(Uncounted(x), ws)
  {
    hide Encode, Decode, Probe, TableOk, Uncounted, Apply, Bits.Times;
    WritesFit(L, H, x, e, id, row);
    InsertPlacement(L, H, x, e, id, row);
    var all := InsertWrites(L, x, e, H(id), id, row);
    var ws := KernelWrites(L, NextRow(x), PoolCursor(x), e, H(id), id, row);
    var cursors := all[..2];
    assert all[..FLAG_WRITE + 1] == cursors + ws;
    assert AllFit(|x|, cursors) && AllFit(|x|, ws);
    ApplyConcat(x, cursors, ws);
    UncountedWrites(ApplyAll(x, cursors), ws);
    UncountedCursors(x, cursors);
  }

  lemma UncountedCursors(x: Buffer, ws: seq<Write>)
    requires |x| >= DATA_REGION_OFFSET && |ws| == 2 && AllFit(|x|, ws)
    requires forall k :: 0 <= k < 2 ==>
               METADATA_OFFSET <= ws[k].off && ws[k].off + |ws[k].data| <= METADATA_OFFSET + CURSOR_BYTES
    ensures Uncounted(ApplyAll(x, ws)) == Uncounted(x)
  {
    hide Uncounted, Apply;
    var one := ws[..1];
    assert one[..0] == [] && ApplyAll(x, one) == Apply(ApplyAll(x, one[..0]), ws[0]);
    assert ws[..|ws| - 1] == one;
    UncountedWrite(x, ws[0]);
    UncountedWrite(ApplyAll(x, one), ws[1]);
  }

  /** The first slot at or after `at` whose flags read empty. */
  function FirstEmpty(L: SegmentLayout, b: Buffer, at: nat, fuel: nat): Option<nat>
    requires L.slotTableOffset + SLOT_BYTES * L.slotCapacity <= |b| && at < L.slotCapacity
    decreases fuel
  {
    if fuel == 0 then None
    else if ReadU32(b, SlotOff(L, at) + SLOT_FLAGS_OFFSET) == 0 then Some(at)
    else FirstEmpty(L, b, Succ(at, L.slotCapacity), fuel - 1)
  }

  /** A probe that ends at a vacancy ends at the first empty slot. */
  lemma {:induction false} ProbeFreeIsFirstEmpty(L: SegmentLayout, H: HashFn, x: Buffer, h: nat, id: Buffer, at: nat,
                                                 fuel: nat, e: nat)
    requires WellFormed(L, H, x) && at < L.slotCapacity
    requires Probe(SlotsOf(L, x), h, id, at, fuel) == Free(e)
    ensures L.slotTableOffset + SLOT_BYTES * L.slotCapacity <= |x|
    ensures FirstEmpty(L, Uncounted(x), at, fuel) == Some(e)
    decreases fuel
  {
    hide Decode, Uncounted, TableOk, StoredId, Bits.Times;
    SlotInBounds(L, at);
    UncountedSame(x, SlotOff(L, at) + SLOT_FLAGS_OFFSET, SlotOff(L, at) + SLOT_FLAGS_OFFSET + 4);
    assert SlotsOf(L, x)[at] == SlotAt(L, x, at);
    if !SlotsOf(L, x)[at].Vacant? {
      ProbeFreeIsFirstEmpty(L, H, x, h, id, Succ(at, L.slotCapacity), fuel - 1, e);
    }
  }

  // ---------------------------------------------------------------------------
  // The fold the kernel must match
  // ---------------------------------------------------------------------------

  ghost predicate ZeroFrom(b: Buffer, lo: nat)
  {
    forall k {:trigger b[k]} :: lo <= k < |b| ==> b[k] == 0
  }

  /** A segment as creation leaves it: empty, with untouched rows. */
  ghost predicate Blank(L: SegmentLayout, b: Buffer)
  {
    Fresh(L, b) && ZeroFrom(b, L.rowsOffset)
  }

  ghost predicate DistinctFilled(ids: seq<Buffer>, n: nat)
    requires n <= |ids|
  {
    && (forall i {:trigger ids[i]} :: 0 <= i < n ==> ids[i] != [])
    && (forall i, j {:trigger ids[i], ids[j]} :: 0 <= i < j < n ==> ids[i] != ids[j])
  }

  function CursorWords(i: nat, poolCursor: nat): (b: Buffer)
    ensures |b| == CURSOR_BYTES
  {
    Encode(i, 8) + Encode(poolCursor, 8)
  }

  /** The segment after inserting the first `i` rows one by one. */
  ghost predicate Folded(L: SegmentLayout, H: HashFn, b: Buffer, ops: seq<Op>, i: nat, x: Buffer, poolCursor: nat)
    requires WellFormed(L, H, b)
  {
    && i <= |ops| && x == SegmentRun(L, H, b, ops[..i])
    && WellFormed(L, H, x) && |x| == |b|
    && NextRow(x) == i && PoolCursor(x) == poolCursor
    && (forall id {:trigger id in RowMap(L, H, x)} :: id in RowMap(L, H, x) ==>
          exists j :: 0 <= j < i && ops[j].id == id)
    && ZeroFrom(x, RowOff(L, i))
    && (i > 0 ==> x[METADATA_OFFSET..METADATA_OFFSET + CURSOR_BYTES] == CursorWords(i, poolCursor))
  }

  lemma FoldStart(L: SegmentLayout, H: HashFn, b: Buffer, ops: seq<Op>)
    requires Blank(L, b)
    ensures WellFormed(L, H, b) && Folded(L, H, b, ops, 0, b, 0) && Uncounted(b) == b
  {
    hide Decode, Probe, TableOk;
    FreshIsEmpty(L, H, b);
    assert ops[..0] == [];
    DecodeZeroBytes(b[METADATA_OFFSET..METADATA_OFFSET + 8]);
    DecodeZeroBytes(b[POOL_CURSOR_OFFSET..POOL_CURSOR_OFFSET + 8]);
    var rows, pool := b[METADATA_OFFSET..METADATA_OFFSET + 8], b[POOL_CURSOR_OFFSET..POOL_CURSOR_OFFSET + 8];
    forall k | METADATA_OFFSET <= k < METADATA_OFFSET + CURSOR_BYTES
      ensures b[k] == 0
    {
      if k < POOL_CURSOR_OFFSET {
        assert rows[k - METADATA_OFFSET] == 0;
      } else {
        assert pool[k - POOL_CURSOR_OFFSET] == 0;
      }
    }
    ZeroCursors(b);
  }

  lemma ZeroCursors(b: Buffer)
    requires |b| >= DATA_REGION_OFFSET
    requires forall k :: METADATA_OFFSET <= k < METADATA_OFFSET + CURSOR_BYTES ==> b[k] == 0
    ensures Uncounted(b) == b
  {
  }

  /** A new id takes the insert branch, at a vacancy. */
  lemma NewIdInserts(L: SegmentLayout, H: HashFn, x: Buffer, id: Buffer, row: Buffer) returns (e: nat)
    requires WellFormed(L, H, x) && id !in RowMap(L, H, x)
    requires 0 < |id| <= L.maxIdBytes && |row| == L.rowSize && NextRow(x) < L.capacity
    ensures CanInsert(L, H, x, e, id, row)
    ensures |x| >= DATA_REGION_OFFSET && AllFit(|x|, InsertWrites(L, x, e, H(id), id, row))
    ensures UpsertBytes(L, H, x, id, row) == InsertedBytes(L, x, e, H(id), id, row)
  {
    hide Decode, Probe, TableOk, Entries, InsertWrites, InsertedBytes;
    SearchIsMembership(TableOf(L, x), H, L.capacity, L.maxIdBytes, id);
    e := Search(SlotsOf(L, x), H(id), id).at;
    WritesFit(L, H, x, e, id, row);
  }

  lemma TailZero(x: Buffer, y: Buffer, lo: nat)
    requires |x| == |y| && lo <= |x| && y[lo..|x|] == x[lo..|x|] && ZeroFrom(x, lo)
    ensures ZeroFrom(y, lo)
  {
    forall k | lo <= k < |y|
      ensures y[k] == 0
    {
      assert y[lo..|x|][k - lo] == x[lo..|x|][k - lo];
    }
  }

  lemma ZeroFurther(x: Buffer, lo: nat, more: nat)
    requires ZeroFrom(x, lo) && lo <= more
    ensures ZeroFrom(x, more)
  {
  }

  lemma CursorsRead(L: SegmentLayout, H: HashFn, x: Buffer, e: nat, id: Buffer, row: Buffer)
    requires CanInsert(L, H, x, e, id, row)
    requires |x| >= DATA_REGION_OFFSET && AllFit(|x|, InsertWrites(L, x, e, H(id), id, row))
    ensures var y := InsertedBytes(L, x, e, H(id), id, row);
            y[METADATA_OFFSET..METADATA_OFFSET + CURSOR_BYTES] ==
              CursorWords(NextRow(x) + 1, PoolCursor(x) + LEN_PREFIX_BYTES + |id|)
  {
    hide Decode, Encode, Probe, TableOk, Stage, AllFit, Search, SlotsOf;
    var y := InsertedBytes(L, x, e, H(id), id, row);
    StageHolds(L, H, x, e, id, row, 0, FLAG_WRITE + 1);
    StageHolds(L, H, x, e, id, row, 1, FLAG_WRITE + 1);
    assert y[METADATA_OFFSET..METADATA_OFFSET + CURSOR_BYTES]
        == y[METADATA_OFFSET..METADATA_OFFSET + 8] + y[POOL_CURSOR_OFFSET..POOL_CURSOR_OFFSET + 8];
  }

  lemma InsertedTail(L: SegmentLayout, H: HashFn, x: Buffer, e: nat, id: Buffer, row: Buffer)
    requires CanInsert(L, H, x, e, id, row) && ZeroFrom(x, RowOff(L, NextRow(x)))
    requires |x| >= DATA_REGION_OFFSET && AllFit(|x|, InsertWrites(L, x, e, H(id), id, row))
    ensures var y := InsertedBytes(L, x, e, H(id), id, row);
            && ZeroFrom(y, RowOff(L, NextRow(x) + 1))
            && y[METADATA_OFFSET..METADATA_OFFSET + CURSOR_BYTES] ==
                 CursorWords(NextRow(x) + 1, PoolCursor(x) + LEN_PREFIX_BYTES + |id|)
  {
    hide Decode, Encode, Probe, TableOk, ZeroFrom;
    InsertPlacement(L, H, x, e, id, row);
    var y := InsertedBytes(L, x, e, H(id), id, row);
    var lo := RowOff(L, NextRow(x) + 1);
    assert lo == RowOff(L, NextRow(x)) + L.rowSize;
    KeptOutside(x, InsertWrites(L, x, e, H(id), id, row)[..FLAG_WRITE + 1], lo, |x|);
    ZeroFurther(x, RowOff(L, NextRow(x)), lo);
    TailZero(x, y, lo);
    CursorsRead(L, H, x, e, id, row);
  }

  /** One more distinct row: the fold advances by exactly the kernel's writes, at the first
      empty slot. */
  lemma FoldStep(L: SegmentLayout, H: HashFn, b: Buffer, ops: seq<Op>, i: nat, x: Buffer, poolCursor: nat)
    returns (e: nat, y: Buffer)
    requires WellFormed(L, H, b) && Folded(L, H, b, ops, i, x, poolCursor) && i < |ops| <= L.capacity
    requires Acceptable(L, ops[i]) && forall j :: 0 <= j < i ==> ops[j].id != ops[i].id
    ensures Folded(L, H, b, ops, i + 1, y, poolCursor + LEN_PREFIX_BYTES + |ops[i].id|)
    ensures e < L.slotCapacity && L.slotTableOffset + SLOT_BYTES * L.slotCapacity <= |x| && |x| >= DATA_REGION_OFFSET
    ensures FirstEmpty(L, Uncounted(x), Bits.Remainder(H(ops[i].id), L.slotCapacity), L.slotCapacity) == Some(e)
    ensures var ws := KernelWrites(L, i, poolCursor, e, H(ops[i].id), ops[i].id, ops[i].row);
            AllFit(|x|, ws) && Uncounted(y) == ApplyAll(Uncounted(x), ws)
  {
    hide Decode, Encode, Probe, TableOk, Entries, InsertWrites, Stage, KernelWrites, Uncounted, Bits.Times, UpsertBytes,
         FirstEmpty, CursorWords, SlotAt, RowMap;
    var id, row := ops[i].id, ops[i].row;
    e := NewIdInserts(L, H, x, id, row);
    y := InsertedBytes(L, x, e, H(id), id, row);
    assert ops[..i + 1][..i] == ops[..i] && ops[..i + 1][i] == ops[i];
    InsertedWellFormed(L, H, x, e, id, row);
    CursorsWritten(L, H, x, e, id, row, FLAG_WRITE + 1);
    InsertedTail(L, H, x, e, id, row);
    KernelRowIsInsert(L, H, x, e, id, row);
    SlotInBounds(L, e);
    assert |SlotsOf(L, x)| == L.slotCapacity;
    ProbeFreeIsFirstEmpty(L, H, x, H(id), id, Bits.Remainder(H(id), L.slotCapacity), L.slotCapacity, e);
  }
}
