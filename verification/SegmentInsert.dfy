/** Insertion: the single writer's ordered writes, what every prefix of them leaves
    visible, and the in-place upsert built from them. */
module SegmentInsert {
  import Bits
  import opened Bytes
  import opened Layout
  import opened SlotTable
  import opened Segment

  const OCCUPIED: nat := 1

  // ---------------------------------------------------------------------------
  // Writes
  // ---------------------------------------------------------------------------

  datatype Write = Write(off: nat, data: Buffer)
  {
    predicate Fits(n: nat) { off + |data| <= n }

    predicate Apart(w: Write) { off + |data| <= w.off || w.off + |w.data| <= off }
  }

  predicate AllFit(n: nat, ws: seq<Write>)
  {
    forall i :: 0 <= i < |ws| ==> ws[i].Fits(n)
  }

  function Apply(b: Buffer, w: Write): (r: Buffer)
    requires w.Fits(|b|)
    ensures |r| == |b|
  {
    Splice(b, w.off, w.data)
  }

  function ApplyAll(b: Buffer, ws: seq<Write>): (r: Buffer)
    requires AllFit(|b|, ws)
    ensures |r| == |b|
  {
    if ws == [] then b else Apply(ApplyAll(b, ws[..|ws| - 1]), ws[|ws| - 1])
  }

  lemma {:induction false} KeptOutside(b: Buffer, ws: seq<Write>, lo: nat, hi: nat)
    requires AllFit(|b|, ws) && lo <= hi <= |b|
    requires forall i :: 0 <= i < |ws| ==> hi <= ws[i].off || ws[i].off + |ws[i].data| <= lo
    ensures ApplyAll(b, ws)[lo..hi] == b[lo..hi]
  {
    if ws != [] {
      var init, last := ws[..|ws| - 1], ws[|ws| - 1];
      KeptOutside(b, init, lo, hi);
      SpliceOutside(ApplyAll(b, init), last.off, last.data, lo, hi);
    }
  }

  /** A write survives every later write that stays clear of it. */
  lemma {:induction false} WroteThere(b: Buffer, ws: seq<Write>, k: nat)
    requires AllFit(|b|, ws) && k < |ws|
    requires forall i :: k < i < |ws| ==> ws[i].Apart(ws[k])
    ensures ApplyAll(b, ws)[ws[k].off..ws[k].off + |ws[k].data|] == ws[k].data
  {
    var init, last := ws[..|ws| - 1], ws[|ws| - 1];
    if k == |ws| - 1 {
      SpliceInside(ApplyAll(b, init), last.off, last.data);
    } else {
      WroteThere(b, init, k);
      SpliceOutside(ApplyAll(b, init), last.off, last.data, ws[k].off, ws[k].off + |ws[k].data|);
    }
  }

  lemma SubSlice(x: Buffer, b: Buffer, lo: nat, hi: nat, p: nat, q: nat)
    requires lo <= p <= q <= hi <= |b| == |x|
    requires x[lo..hi] == b[lo..hi]
    ensures x[p..q] == b[p..q]
  {
    forall k | 0 <= k < q - p
      ensures x[p..q][k] == b[p..q][k]
    {
      assert x[lo..hi][p - lo + k] == b[lo..hi][p - lo + k];
    }
  }

  // ---------------------------------------------------------------------------
  // What a reader can see while an insert at slot `e` is unfinished
  // ---------------------------------------------------------------------------

  ghost predicate SameSlotBytes(L: SegmentLayout, b: Buffer, x: Buffer, i: nat)
    requires Sized(L, b) && |x| == |b| && i < L.slotCapacity
  {
    SlotInBounds(L, i);
    x[SlotOff(L, i)..SlotOff(L, i) + SLOT_BYTES] == b[SlotOff(L, i)..SlotOff(L, i) + SLOT_BYTES]
  }

  /** `x` differs from `b` at most in the cursors, in pool bytes beyond the cursor, in
      rows not yet handed out, and in the non-flag bytes of the vacant slot `e`. */
  ghost predicate SameVisible(L: SegmentLayout, H: HashFn, b: Buffer, x: Buffer, e: nat)
    requires WellFormed(L, H, b) && e < L.slotCapacity
  {
    VisibleBounds(L, H, b, e);
    && |x| == |b|
    && x[..METADATA_OFFSET] == b[..METADATA_OFFSET]
    && (forall i {:trigger SameSlotBytes(L, b, x, i)} :: 0 <= i < L.slotCapacity && i != e ==>
          SameSlotBytes(L, b, x, i))
    && ReadU32(x, SlotOff(L, e) + SLOT_FLAGS_OFFSET) == ReadU32(b, SlotOff(L, e) + SLOT_FLAGS_OFFSET)
    && x[L.poolOffset..L.poolDataOffset + PoolCursor(b)] == b[L.poolOffset..L.poolDataOffset + PoolCursor(b)]
    && x[L.rowsOffset..RowOff(L, NextRow(b))] == b[L.rowsOffset..RowOff(L, NextRow(b))]
  }

  lemma VisibleBounds(L: SegmentLayout, H: HashFn, b: Buffer, e: nat)
    requires WellFormed(L, H, b) && e < L.slotCapacity
    ensures METADATA_OFFSET <= |b| && SlotOff(L, e) + SLOT_BYTES <= |b|
    ensures L.poolOffset <= L.poolDataOffset + PoolCursor(b) <= L.rowsOffset
    ensures L.rowsOffset <= RowOff(L, NextRow(b)) <= |b|
  {
    SlotInBounds(L, e);
    Bits.TimesMonotone(NextRow(b), L.capacity, L.rowSize);
    Bits.TimesMonotone(NextRow(b), L.capacity, LEN_PREFIX_BYTES + L.maxIdBytes);
  }

  lemma SameEntry(L: SegmentLayout, b: Buffer, x: Buffer, cursor: nat, idOff: nat)
    requires |x| == |b| && L.poolOffset <= L.poolDataOffset && L.poolDataOffset + cursor <= |b|
    requires x[L.poolOffset..L.poolDataOffset + cursor] == b[L.poolOffset..L.poolDataOffset + cursor]
    requires StoredId(L, b, idOff).Some? && idOff + LEN_PREFIX_BYTES + |StoredId(L, b, idOff).value| <= cursor
    ensures StoredId(L, x, idOff) == StoredId(L, b, idOff)
  {
    var entry := L.poolDataOffset + idOff;
    var start := entry + LEN_PREFIX_BYTES;
    var len := |StoredId(L, b, idOff).value|;
    SubSlice(x, b, L.poolOffset, L.poolDataOffset + cursor, entry, start);
    SubSlice(x, b, L.poolOffset, L.poolDataOffset + cursor, start, start + len);
  }

  lemma SameSlot(L: SegmentLayout, b: Buffer, x: Buffer, i: nat, cursor: nat)
    requires Sized(L, b) && i < L.slotCapacity && |x| == |b|
    requires SlotOff(L, i) + SLOT_BYTES <= |b|
    requires SameSlotBytes(L, b, x, i)
    requires L.poolDataOffset + cursor <= |b|
    requires x[L.poolOffset..L.poolDataOffset + cursor] == b[L.poolOffset..L.poolDataOffset + cursor]
    requires var s := SlotAt(L, b, i); !s.Broken? && (s.Taken? ==> s.idOff + LEN_PREFIX_BYTES + |s.id| <= cursor)
    ensures SlotAt(L, x, i) == SlotAt(L, b, i)
  {
    var o := SlotOff(L, i);
    SubSlice(x, b, o, o + SLOT_BYTES, o, o + 8);
    SubSlice(x, b, o, o + SLOT_BYTES, o + 8, o + 16);
    SubSlice(x, b, o, o + SLOT_BYTES, o + 16, o + 20);
    SubSlice(x, b, o, o + SLOT_BYTES, o + 20, o + 24);
    if SlotAt(L, b, i).Taken? {
      SameEntry(L, b, x, cursor, SlotAt(L, b, i).idOff);
    }
  }

  /** An unfinished insert is invisible: every slot decodes as before. */
  lemma InvisibleSlots(L: SegmentLayout, H: HashFn, b: Buffer, x: Buffer, e: nat)
    requires WellFormed(L, H, b) && e < L.slotCapacity && SlotsOf(L, b)[e].Vacant?
    requires SameVisible(L, H, b, x, e)
    ensures SlotsOf(L, x) == SlotsOf(L, b)
  {
    hide Decode, Probe, StoredId, Bits.Times;
    VisibleBounds(L, H, b, e);
    forall i | 0 <= i < L.slotCapacity
      ensures SlotsOf(L, x)[i] == SlotsOf(L, b)[i]
    {
      if i != e {
        SlotInBounds(L, i);
        assert SameSlotBytes(L, b, x, i);
        assert SlotOk(SlotsOf(L, b)[i], TableOf(L, b), H, L.maxIdBytes);
        SameSlot(L, b, x, i, PoolCursor(b));
      }
    }
  }

  /** Advanced cursors keep the table well formed, whatever was leaked below them. */
  lemma CursorsMayLead(T: Table, R: Table, H: HashFn, capacity: nat, maxId: nat)
    requires TableOk(T, H, capacity, maxId)
    requires R.slots == T.slots && T.nextRow <= R.nextRow <= capacity
    requires T.poolCursor <= R.poolCursor <= Bits.Times(R.nextRow, 4 + maxId)
    ensures TableOk(R, H, capacity, maxId)
  {
    forall i | 0 <= i < |R.slots|
      ensures SlotOk(R.slots[i], R, H, maxId)
    {
      assert SlotOk(T.slots[i], T, H, maxId);
    }
  }

  lemma SameRow(L: SegmentLayout, b: Buffer, x: Buffer, n: nat, r: nat)
    requires |x| == |b| && r < n && RowOff(L, n) <= |b|
    requires x[L.rowsOffset..RowOff(L, n)] == b[L.rowsOffset..RowOff(L, n)]
    ensures RowOff(L, r) + L.rowSize <= |b|
    ensures RowBytes(L, x, r) == RowBytes(L, b, r)
  {
    Bits.TimesMonotone(r + 1, n, L.rowSize);
    SubSlice(x, b, L.rowsOffset, RowOff(L, n), RowOff(L, r), RowOff(L, r) + L.rowSize);
  }

  /** Cursors of an insert in progress: at or ahead of where they stood, within budget. */
  ghost predicate CursorsAhead(L: SegmentLayout, b: Buffer, x: Buffer)
    requires |b| >= DATA_REGION_OFFSET && |x| >= DATA_REGION_OFFSET
  {
    && NextRow(b) <= NextRow(x) <= L.capacity
    && PoolCursor(b) <= PoolCursor(x) <= Bits.Times(NextRow(x), LEN_PREFIX_BYTES + L.maxIdBytes)
  }

  lemma SameSlotsWellFormed(L: SegmentLayout, H: HashFn, b: Buffer, x: Buffer)
    requires WellFormed(L, H, b) && |x| == |b|
    requires SlotsOf(L, x) == SlotsOf(L, b) && CursorsAhead(L, b, x)
    ensures WellFormed(L, H, x)
  {
    var T, R := TableOf(L, b), TableOf(L, x);
    CursorsMayLead(T, R, H, L.capacity, L.maxIdBytes);
  }

  /** An unfinished insert leaves a well-formed segment ... */
  lemma InvisibleWellFormed(L: SegmentLayout, H: HashFn, b: Buffer, x: Buffer, e: nat)
    requires WellFormed(L, H, b) && e < L.slotCapacity && SlotsOf(L, b)[e].Vacant?
    requires SameVisible(L, H, b, x, e) && CursorsAhead(L, b, x)
    ensures WellFormed(L, H, x) && SlotsOf(L, x) == SlotsOf(L, b)
  {
    InvisibleSlots(L, H, b, x, e);
    SameSlotsWellFormed(L, H, b, x);
  }

  /** ... with the old map. */
  lemma InvisibleInsert(L: SegmentLayout, H: HashFn, b: Buffer, x: Buffer, e: nat)
    requires WellFormed(L, H, b) && WellFormed(L, H, x) && e < L.slotCapacity
    requires SameVisible(L, H, b, x, e) && SlotsOf(L, x) == SlotsOf(L, b)
    ensures RowMap(L, H, x) == RowMap(L, H, b)
    ensures StoreMap(L, H, x) == StoreMap(L, H, b)
  {
    hide Decode, Probe, TableOk, Entries, SlotAt, RowBytes, Bits.Times;
    VisibleBounds(L, H, b, e);
    MapWellDefined(L, H, b);
    forall id | id in RowMap(L, H, b)
      ensures StoreMap(L, H, x)[id] == StoreMap(L, H, b)[id]
    {
      SameRow(L, b, x, NextRow(b), RowMap(L, H, b)[id]);
    }
  }

  // ---------------------------------------------------------------------------
  // The writes of one new insert
  // ---------------------------------------------------------------------------

  /** The preconditions under which insert takes its new-entry branch at slot `e`. */
  ghost predicate CanInsert(L: SegmentLayout, H: HashFn, b: Buffer, e: nat, id: Buffer, row: Buffer)
  {
    && WellFormed(L, H, b)
    && 0 < |id| <= L.maxIdBytes && |row| == L.rowSize
    && NextRow(b) < L.capacity
    && Search(SlotsOf(L, b), H(id), id) == Free(e)
  }

  const FLAG_WRITE: nat := 8

  /** Cursors first, then pool entry, row and slot fields, and the flags last. */
  function InsertWrites(L: SegmentLayout, b: Buffer, e: nat, h: u64, id: Buffer, row: Buffer): (ws: seq<Write>)
    requires |b| >= DATA_REGION_OFFSET
    ensures |ws| == FLAG_WRITE + 1
  {
    var entry := L.poolDataOffset + PoolCursor(b);
    [ Write(METADATA_OFFSET, Encode(NextRow(b) + 1, 8)),
      Write(POOL_CURSOR_OFFSET, Encode(PoolCursor(b) + LEN_PREFIX_BYTES + |id|, 8)),
      Write(entry, Encode(|id|, 4)),
      Write(entry + LEN_PREFIX_BYTES, id),
      Write(RowOff(L, NextRow(b)), row),
      Write(SlotOff(L, e) + SLOT_NAME_HASH_OFFSET, Encode(h, 8)),
      Write(SlotOff(L, e) + SLOT_ID_OFFSET_OFFSET, Encode(PoolCursor(b), 8)),
      Write(SlotOff(L, e) + SLOT_FEATURE_ROW_INDEX_OFFSET, Encode(NextRow(b), 4)),
      Write(SlotOff(L, e) + SLOT_FLAGS_OFFSET, Encode(OCCUPIED, 4)) ]
  }

  /** Where the writes may go, as linear facts. */
  lemma InsertPlacement(L: SegmentLayout, H: HashFn, b: Buffer, e: nat, id: Buffer, row: Buffer)
    requires CanInsert(L, H, b, e, id, row)
    ensures e < L.slotCapacity && |b| >= DATA_REGION_OFFSET
    ensures DATA_REGION_OFFSET <= SlotOff(L, e) && SlotOff(L, e) + SLOT_BYTES <= L.poolOffset
    ensures L.poolDataOffset + PoolCursor(b) + LEN_PREFIX_BYTES + |id| <= L.rowsOffset <= RowOff(L, NextRow(b))
    ensures RowOff(L, NextRow(b)) + L.rowSize <= |b|
    ensures NextRow(b) < U32_LIMIT && PoolCursor(b) + LEN_PREFIX_BYTES + |id| < U64_LIMIT && |id| < U32_LIMIT
  {
    assert |SlotsOf(L, b)| == L.slotCapacity;
    SlotInBounds(L, e);
    PoolRoom(L, H, b, |id|);
    RowInBounds(L, NextRow(b));
  }

  /** A write confined to bytes no reader can reach before publication at slot `e`. */
  ghost predicate Quiet(L: SegmentLayout, b: Buffer, e: nat, w: Write)
    requires |b| >= DATA_REGION_OFFSET
  {
    var lo, hi := w.off, w.off + |w.data|;
    || (METADATA_OFFSET <= lo && hi <= METADATA_OFFSET + 16)
    || (L.poolDataOffset + PoolCursor(b) <= lo && hi <= L.rowsOffset)
    || (RowOff(L, NextRow(b)) <= lo && hi <= |b|)
    || (SlotOff(L, e) <= lo && hi <= SlotOff(L, e) + SLOT_FLAGS_OFFSET)
    || (SlotOff(L, e) + SLOT_FEATURE_ROW_INDEX_OFFSET <= lo && hi <= SlotOff(L, e) + SLOT_BYTES)
  }

  lemma QuietSlotKept(L: SegmentLayout, H: HashFn, b: Buffer, x: Buffer, e: nat, w: Write, i: nat)
    requires WellFormed(L, H, b) && |b| >= DATA_REGION_OFFSET && e < L.slotCapacity && i < L.slotCapacity && i != e
    requires |x| == |b| && w.Fits(|b|) && Quiet(L, b, e, w)
    requires SlotOff(L, i) + SLOT_BYTES <= |b| && SameSlotBytes(L, b, x, i)
    ensures SameSlotBytes(L, b, Apply(x, w), i)
  {
    hide Decode, Probe, TableOk, Bits.Times, SlotsOf, Splice;
    VisibleBounds(L, H, b, e);
    SlotInBounds(L, e);
    SlotInBounds(L, i);
    SpliceOutside(x, w.off, w.data, SlotOff(L, i), SlotOff(L, i) + SLOT_BYTES);
  }

  lemma QuietKeepsVisible(L: SegmentLayout, H: HashFn, b: Buffer, x: Buffer, e: nat, w: Write)
    requires WellFormed(L, H, b) && e < L.slotCapacity
    requires SameVisible(L, H, b, x, e) && w.Fits(|b|) && Quiet(L, b, e, w)
    ensures SameVisible(L, H, b, Apply(x, w), e)
  {
    hide Decode, Probe, TableOk, Bits.Times, SameSlotBytes, SlotsOf;
    VisibleBounds(L, H, b, e);
    SlotInBounds(L, e);
    var y := Apply(x, w);
    SpliceOutside(x, w.off, w.data, 0, METADATA_OFFSET);
    SpliceOutside(x, w.off, w.data, SlotOff(L, e) + SLOT_FLAGS_OFFSET, SlotOff(L, e) + SLOT_FLAGS_OFFSET + 4);
    SpliceOutside(x, w.off, w.data, L.poolOffset, L.poolDataOffset + PoolCursor(b));
    SpliceOutside(x, w.off, w.data, L.rowsOffset, RowOff(L, NextRow(b)));
    forall i | 0 <= i < L.slotCapacity && i != e
      ensures SlotOff(L, i) + SLOT_BYTES <= |b| && SameSlotBytes(L, b, y, i)
    {
      SlotInBounds(L, i);
      assert SameSlotBytes(L, b, x, i);
      QuietSlotKept(L, H, b, x, e, w, i);
    }
  }

  lemma WritesFit(L: SegmentLayout, H: HashFn, b: Buffer, e: nat, id: Buffer, row: Buffer)
    requires CanInsert(L, H, b, e, id, row)
    ensures |b| >= DATA_REGION_OFFSET && AllFit(|b|, InsertWrites(L, b, e, H(id), id, row))
  {
    InsertPlacement(L, H, b, e, id, row);
  }

  /** The nine writes touch pairwise disjoint bytes. */
  lemma WritesApart(L: SegmentLayout, H: HashFn, b: Buffer, e: nat, id: Buffer, row: Buffer, j: nat)
    requires CanInsert(L, H, b, e, id, row) && |b| >= DATA_REGION_OFFSET && j <= FLAG_WRITE
    ensures var ws := InsertWrites(L, b, e, H(id), id, row); forall i :: j < i < |ws| ==> ws[i].Apart(ws[j])
  {
    InsertPlacement(L, H, b, e, id, row);
  }

  lemma WritesQuiet(L: SegmentLayout, H: HashFn, b: Buffer, e: nat, id: Buffer, row: Buffer)
    requires CanInsert(L, H, b, e, id, row) && |b| >= DATA_REGION_OFFSET
    ensures var ws := InsertWrites(L, b, e, H(id), id, row); forall k :: 0 <= k < FLAG_WRITE ==> Quiet(L, b, e, ws[k])
  {
    InsertPlacement(L, H, b, e, id, row);
  }

  /** Every state before the flags are written looks like the old segment. */
  lemma {:induction false} StageVisible(L: SegmentLayout, H: HashFn, b: Buffer, e: nat, ws: seq<Write>)
    requires WellFormed(L, H, b) && e < L.slotCapacity
    requires AllFit(|b|, ws) && forall k :: 0 <= k < |ws| ==> Quiet(L, b, e, ws[k])
    ensures SameVisible(L, H, b, ApplyAll(b, ws), e)
  {
    if ws == [] {
      VisibleBounds(L, H, b, e);
    } else {
      StageVisible(L, H, b, e, ws[..|ws| - 1]);
      QuietKeepsVisible(L, H, b, ApplyAll(b, ws[..|ws| - 1]), e, ws[|ws| - 1]);
    }
  }

  /** State after the first `k` writes. */
  function Stage(L: SegmentLayout, b: Buffer, e: nat, h: u64, id: Buffer, row: Buffer, k: nat): (x: Buffer)
    requires |b| >= DATA_REGION_OFFSET && AllFit(|b|, InsertWrites(L, b, e, h, id, row)) && k <= FLAG_WRITE + 1
    ensures |x| == |b|
  {
    ApplyAll(b, InsertWrites(L, b, e, h, id, row)[..k])
  }

  function InsertedBytes(L: SegmentLayout, b: Buffer, e: nat, h: u64, id: Buffer, row: Buffer): (x: Buffer)
    requires |b| >= DATA_REGION_OFFSET && AllFit(|b|, InsertWrites(L, b, e, h, id, row))
    ensures |x| == |b|
  {
    Stage(L, b, e, h, id, row, FLAG_WRITE + 1)
  }

  /** Once made, write `j` stays readable through every later stage `k`. */
  lemma StageHolds(L: SegmentLayout, H: HashFn, b: Buffer, e: nat, id: Buffer, row: Buffer, j: nat, k: nat)
    requires CanInsert(L, H, b, e, id, row) && j < k <= FLAG_WRITE + 1
    ensures |b| >= DATA_REGION_OFFSET && AllFit(|b|, InsertWrites(L, b, e, H(id), id, row))
    ensures var w := InsertWrites(L, b, e, H(id), id, row)[j];
            w.Fits(|b|) && Stage(L, b, e, H(id), id, row, k)[w.off..w.off + |w.data|] == w.data
  {
    WritesFit(L, H, b, e, id, row);
    WritesApart(L, H, b, e, id, row, j);
    var ws := InsertWrites(L, b, e, H(id), id, row);
    assert ws[..k][j] == ws[j];
    WroteThere(b, ws[..k], j);
  }

  lemma StageWord64(L: SegmentLayout, H: HashFn, b: Buffer, e: nat, id: Buffer, row: Buffer, j: nat, k: nat, off: nat,
                    v: nat)
    requires CanInsert(L, H, b, e, id, row) && j < k <= FLAG_WRITE + 1 && v < U64_LIMIT
    requires |b| >= DATA_REGION_OFFSET && AllFit(|b|, InsertWrites(L, b, e, H(id), id, row))
    requires InsertWrites(L, b, e, H(id), id, row)[j] == Write(off, Encode(v, 8))
    ensures off + 8 <= |b| && ReadU64(Stage(L, b, e, H(id), id, row, k), off) == v
  {
    hide Encode, Decode, Probe, TableOk, InsertWrites, Bits.Times;
    StageHolds(L, H, b, e, id, row, j, k);
    Word64(v);
  }

  lemma StageWord32(L: SegmentLayout, H: HashFn, b: Buffer, e: nat, id: Buffer, row: Buffer, j: nat, k: nat, off: nat,
                    v: nat)
    requires CanInsert(L, H, b, e, id, row) && j < k <= FLAG_WRITE + 1 && v < U32_LIMIT
    requires |b| >= DATA_REGION_OFFSET && AllFit(|b|, InsertWrites(L, b, e, H(id), id, row))
    requires InsertWrites(L, b, e, H(id), id, row)[j] == Write(off, Encode(v, 4))
    ensures off + 4 <= |b| && ReadU32(Stage(L, b, e, H(id), id, row, k), off) == v
  {
    hide Encode, Decode, Probe, TableOk, InsertWrites, Bits.Times;
    StageHolds(L, H, b, e, id, row, j, k);
    Word32(v);
  }

  /** The cursors once both cursor words are written. */
  lemma CursorsWritten(L: SegmentLayout, H: HashFn, b: Buffer, e: nat, id: Buffer, row: Buffer, k: nat)
    requires CanInsert(L, H, b, e, id, row) && 2 <= k <= FLAG_WRITE + 1
    requires |b| >= DATA_REGION_OFFSET && AllFit(|b|, InsertWrites(L, b, e, H(id), id, row))
    ensures NextRow(Stage(L, b, e, H(id), id, row, k)) == NextRow(b) + 1
    ensures PoolCursor(Stage(L, b, e, H(id), id, row, k)) == PoolCursor(b) + LEN_PREFIX_BYTES + |id|
  {
    hide Encode, Probe;
    InsertPlacement(L, H, b, e, id, row);
    StageWord64(L, H, b, e, id, row, 0, k, METADATA_OFFSET, NextRow(b) + 1);
    StageWord64(L, H, b, e, id, row, 1, k, POOL_CURSOR_OFFSET, PoolCursor(b) + LEN_PREFIX_BYTES + |id|);
  }

  // ---------------------------------------------------------------------------
  // The finished insert
  // ---------------------------------------------------------------------------

  lemma PublishedId(L: SegmentLayout, H: HashFn, b: Buffer, e: nat, id: Buffer, row: Buffer)
    requires CanInsert(L, H, b, e, id, row)
    requires |b| >= DATA_REGION_OFFSET && AllFit(|b|, InsertWrites(L, b, e, H(id), id, row))
    ensures StoredId(L, InsertedBytes(L, b, e, H(id), id, row), PoolCursor(b)) == Some(id)
  {
    hide Encode, Probe, TableOk;
    InsertPlacement(L, H, b, e, id, row);
    StageWord32(L, H, b, e, id, row, 2, FLAG_WRITE + 1, L.poolDataOffset + PoolCursor(b), |id|);
    StageHolds(L, H, b, e, id, row, 3, FLAG_WRITE + 1);
  }

  lemma PublishedFields(L: SegmentLayout, H: HashFn, b: Buffer, e: nat, id: Buffer, row: Buffer)
    requires CanInsert(L, H, b, e, id, row)
    requires |b| >= DATA_REGION_OFFSET && AllFit(|b|, InsertWrites(L, b, e, H(id), id, row))
    ensures e < L.slotCapacity && SlotOff(L, e) + SLOT_BYTES <= |b|
    ensures var x, o := InsertedBytes(L, b, e, H(id), id, row), SlotOff(L, e);
            && ReadU64(x, o + SLOT_NAME_HASH_OFFSET) == H(id)
            && ReadU64(x, o + SLOT_ID_OFFSET_OFFSET) == PoolCursor(b)
            && ReadU32(x, o + SLOT_FEATURE_ROW_INDEX_OFFSET) == NextRow(b)
            && ReadU32(x, o + SLOT_FLAGS_OFFSET) == OCCUPIED
  {
    hide Encode, Decode, Probe, TableOk, Stage;
    InsertPlacement(L, H, b, e, id, row);
    StageWord64(L, H, b, e, id, row, 5, FLAG_WRITE + 1, SlotOff(L, e) + SLOT_NAME_HASH_OFFSET, H(id));
    StageWord64(L, H, b, e, id, row, 6, FLAG_WRITE + 1, SlotOff(L, e) + SLOT_ID_OFFSET_OFFSET, PoolCursor(b));
    StageWord32(L, H, b, e, id, row, 7, FLAG_WRITE + 1, SlotOff(L, e) + SLOT_FEATURE_ROW_INDEX_OFFSET, NextRow(b));
    StageWord32(L, H, b, e, id, row, 8, FLAG_WRITE + 1, SlotOff(L, e) + SLOT_FLAGS_OFFSET, OCCUPIED);
  }

  /** Bytes below the pool cursor, rows handed out before, every other slot and the
      segment header are untouched. */
  lemma InsertKeepsBytes(L: SegmentLayout, H: HashFn, b: Buffer, e: nat, id: Buffer, row: Buffer, lo: nat, hi: nat)
    requires CanInsert(L, H, b, e, id, row)
    requires |b| >= DATA_REGION_OFFSET && AllFit(|b|, InsertWrites(L, b, e, H(id), id, row))
    requires lo <= hi <= |b|
    requires || hi <= METADATA_OFFSET
             || (METADATA_OFFSET + 16 <= lo && hi <= SlotOff(L, e))
             || (SlotOff(L, e) + SLOT_BYTES <= lo && hi <= L.poolDataOffset + PoolCursor(b))
             || (L.rowsOffset <= lo && hi <= RowOff(L, NextRow(b)))
    ensures InsertedBytes(L, b, e, H(id), id, row)[lo..hi] == b[lo..hi]
  {
    InsertPlacement(L, H, b, e, id, row);
    KeptOutside(b, InsertWrites(L, b, e, H(id), id, row)[..FLAG_WRITE + 1], lo, hi);
  }

  lemma SlotIsOk(L: SegmentLayout, H: HashFn, b: Buffer, i: nat)
    requires WellFormed(L, H, b) && i < L.slotCapacity
    ensures Sized(L, b) && i < |SlotsOf(L, b)| && SlotOk(SlotsOf(L, b)[i], TableOf(L, b), H, L.maxIdBytes)
    ensures TableOf(L, b) == Table(SlotsOf(L, b), NextRow(b), PoolCursor(b)) && SlotsOf(L, b)[i] == SlotAt(L, b, i)
  {
    hide SlotOk, SlotAt, Reachable, RowsDistinct, NextRow, PoolCursor;
  }

  lemma OtherSlotKept(L: SegmentLayout, H: HashFn, b: Buffer, e: nat, id: Buffer, row: Buffer, i: nat)
    requires CanInsert(L, H, b, e, id, row) && i < L.slotCapacity && i != e
    requires |b| >= DATA_REGION_OFFSET && AllFit(|b|, InsertWrites(L, b, e, H(id), id, row))
    ensures SlotOff(L, i) + SLOT_BYTES <= |b|
    ensures SlotAt(L, InsertedBytes(L, b, e, H(id), id, row), i) == SlotAt(L, b, i)
  {
    hide Encode, Decode, Probe, InsertWrites, TableOk, SlotsOf, SlotAt, Stage, NextRow, PoolCursor, Bits.Times, Search;
    hide AllFit;
    var x := InsertedBytes(L, b, e, H(id), id, row);
    InsertPlacement(L, H, b, e, id, row);
    SlotInBounds(L, i);
    InsertKeepsBytes(L, H, b, e, id, row, SlotOff(L, i), SlotOff(L, i) + SLOT_BYTES);
    InsertKeepsBytes(L, H, b, e, id, row, L.poolOffset, L.poolDataOffset + PoolCursor(b));
    SlotIsOk(L, H, b, i);
    SameSlot(L, b, x, i, PoolCursor(b));
  }

  /** On the decoded table, a finished insert is exactly one new entry at slot `e`. */
  lemma InsertedTable(L: SegmentLayout, H: HashFn, b: Buffer, e: nat, id: Buffer, row: Buffer)
    requires CanInsert(L, H, b, e, id, row)
    ensures |b| >= DATA_REGION_OFFSET && AllFit(|b|, InsertWrites(L, b, e, H(id), id, row))
    ensures e < |SlotsOf(L, b)|
    ensures TableOf(L, InsertedBytes(L, b, e, H(id), id, row)) == WithEntry(TableOf(L, b), e, H(id), id)
  {
    hide Encode, Decode, Probe, TableOk, InsertWrites, StoredId;
    WritesFit(L, H, b, e, id, row);
    var x := InsertedBytes(L, b, e, H(id), id, row);
    CursorsWritten(L, H, b, e, id, row, FLAG_WRITE + 1);
    var slots := WithEntry(TableOf(L, b), e, H(id), id).slots;
    forall i | 0 <= i < L.slotCapacity
      ensures SlotsOf(L, x)[i] == slots[i]
    {
      if i == e {
        PublishedFields(L, H, b, e, id, row);
        PublishedId(L, H, b, e, id, row);
      } else {
        OtherSlotKept(L, H, b, e, id, row, i);
      }
    }
  }

  lemma InsertedWellFormed(L: SegmentLayout, H: HashFn, b: Buffer, e: nat, id: Buffer, row: Buffer)
    requires CanInsert(L, H, b, e, id, row)
    ensures |b| >= DATA_REGION_OFFSET && AllFit(|b|, InsertWrites(L, b, e, H(id), id, row))
    ensures WellFormed(L, H, InsertedBytes(L, b, e, H(id), id, row))
    ensures id !in RowMap(L, H, b)
    ensures RowMap(L, H, InsertedBytes(L, b, e, H(id), id, row)) == RowMap(L, H, b)[id := NextRow(b)]
  {
    InsertedTable(L, H, b, e, id, row);
    InsertKeepsOk(TableOf(L, b), H, L.capacity, L.maxIdBytes, e, id);
    InsertAddsEntry(TableOf(L, b), H, L.capacity, L.maxIdBytes, e, id);
  }

  lemma InsertedRows(L: SegmentLayout, H: HashFn, b: Buffer, e: nat, id: Buffer, row: Buffer, r: nat)
    requires CanInsert(L, H, b, e, id, row) && r <= NextRow(b)
    requires |b| >= DATA_REGION_OFFSET && AllFit(|b|, InsertWrites(L, b, e, H(id), id, row))
    ensures RowOff(L, r) + L.rowSize <= |b|
    ensures RowBytes(L, InsertedBytes(L, b, e, H(id), id, row), r) == if r == NextRow(b) then row else RowBytes(L, b, r)
  {
    hide Encode, Decode, Probe, TableOk, Bits.Times;
    InsertPlacement(L, H, b, e, id, row);
    if r == NextRow(b) {
      StageHolds(L, H, b, e, id, row, 4, FLAG_WRITE + 1);
    } else {
      InsertKeepsBytes(L, H, b, e, id, row, L.rowsOffset, RowOff(L, NextRow(b)));
      SameRow(L, b, InsertedBytes(L, b, e, H(id), id, row), NextRow(b), r);
    }
  }

  /** A finished insert adds the id with exactly the given row bytes. */
  lemma InsertedMap(L: SegmentLayout, H: HashFn, b: Buffer, e: nat, id: Buffer, row: Buffer)
    requires CanInsert(L, H, b, e, id, row)
    ensures |b| >= DATA_REGION_OFFSET && AllFit(|b|, InsertWrites(L, b, e, H(id), id, row))
    ensures WellFormed(L, H, InsertedBytes(L, b, e, H(id), id, row))
    ensures id !in StoreMap(L, H, b)
    ensures StoreMap(L, H, InsertedBytes(L, b, e, H(id), id, row)) == StoreMap(L, H, b)[id := row]
  {
    hide Encode, Decode, Probe, TableOk, InsertWrites, StoredId, Entries, Stage, SlotAt, RowBytes, Bits.Times;
    InsertedWellFormed(L, H, b, e, id, row);
    MapWellDefined(L, H, b);
    var x := InsertedBytes(L, b, e, H(id), id, row);
    var was, now := StoreMap(L, H, b), StoreMap(L, H, x);
    forall k | k in RowMap(L, H, x)
      ensures now[k] == was[id := row][k]
    {
      InsertedRows(L, H, b, e, id, row, RowMap(L, H, x)[k]);
    }
  }
}
