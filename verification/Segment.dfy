/** The multi-entity segment: one byte buffer holding cursors, slot table, string pool
    and feature rows. `Lookup`, `Insert` and `IterateOccupied` work on the bytes in place;
    `StoreMap` is the plain map from id to row bytes that they implement. */
module Segment {
  import Bits
  import opened Bytes
  import opened Layout
  import opened SlotTable

  const POOL_CURSOR_OFFSET: nat := METADATA_OFFSET + 8

  datatype Option<+T> = None | Some(value: T)

  // ---------------------------------------------------------------------------
  // Reading the bytes
  // ---------------------------------------------------------------------------

  function SlotOff(L: SegmentLayout, i: nat): nat
  {
    L.slotTableOffset + SLOT_BYTES * i
  }

  function RowOff(L: SegmentLayout, r: nat): nat
  {
    L.rowsOffset + Bits.Times(r, L.rowSize)
  }

  ghost predicate Sized(L: SegmentLayout, b: Buffer)
  {
    Valid(L) && |b| == L.totalSize
  }

  function NextRow(b: Buffer): nat
    requires |b| >= DATA_REGION_OFFSET
  {
    ReadU64(b, METADATA_OFFSET)
  }

  function PoolCursor(b: Buffer): nat
    requires |b| >= DATA_REGION_OFFSET
  {
    ReadU64(b, POOL_CURSOR_OFFSET)
  }

  /** The length-prefixed pool entry at `idOff`; `None` when the entry is corrupt. */
  function StoredId(L: SegmentLayout, b: Buffer, idOff: nat): Option<Buffer>
  {
    var entry := L.poolDataOffset + idOff;
    if entry + LEN_PREFIX_BYTES > |b| then None
    else
      var len := ReadU32(b, entry);
      if len > L.maxIdBytes || entry + LEN_PREFIX_BYTES + len > |b| then None
      else Some(b[entry + LEN_PREFIX_BYTES..entry + LEN_PREFIX_BYTES + len])
  }

  function SlotAt(L: SegmentLayout, b: Buffer, i: nat): Slot
    requires SlotOff(L, i) + SLOT_BYTES <= |b|
  {
    var base := SlotOff(L, i);
    var flags := ReadU32(b, base + SLOT_FLAGS_OFFSET);
    if flags == 0 then Vacant
    else if flags != 1 then Broken
    else
      var idOff := ReadU64(b, base + SLOT_ID_OFFSET_OFFSET);
      match StoredId(L, b, idOff)
      case None => Broken
      case Some(id) =>
        Taken(ReadU64(b, base + SLOT_NAME_HASH_OFFSET), id, idOff, ReadU32(b, base + SLOT_FEATURE_ROW_INDEX_OFFSET))
  }

  ghost function SlotsOf(L: SegmentLayout, b: Buffer): (s: seq<Slot>)
    requires Sized(L, b)
    ensures |s| == L.slotCapacity
  {
    seq(L.slotCapacity, i requires 0 <= i < L.slotCapacity => SlotAt(L, b, i))
  }

  ghost function TableOf(L: SegmentLayout, b: Buffer): Table
    requires Sized(L, b)
  {
    Table(SlotsOf(L, b), NextRow(b), PoolCursor(b))
  }

  function RowBytes(L: SegmentLayout, b: Buffer, r: nat): Buffer
    requires RowOff(L, r) + L.rowSize <= |b|
  {
    b[RowOff(L, r)..RowOff(L, r) + L.rowSize]
  }

  /** The invariant of a segment written by one writer. */
  ghost predicate WellFormed(L: SegmentLayout, H: HashFn, b: Buffer)
  {
    Sized(L, b) && TableOk(TableOf(L, b), H, L.capacity, L.maxIdBytes)
  }

  lemma RowInBounds(L: SegmentLayout, r: nat)
    requires Valid(L) && r < L.capacity
    ensures RowOff(L, r) + L.rowSize <= L.totalSize
    ensures forall q: nat :: q < r ==> RowOff(L, q) + L.rowSize <= RowOff(L, r)
  {
    Bits.TimesMonotone(r + 1, L.capacity, L.rowSize);
    forall q: nat | q < r
      ensures RowOff(L, q) + L.rowSize <= RowOff(L, r)
    {
      Bits.TimesMonotone(q + 1, r, L.rowSize);
    }
  }

  /** The pool never fills before the row region: a new entry fits whenever a row is left. */
  lemma PoolRoom(L: SegmentLayout, H: HashFn, b: Buffer, len: nat)
    requires WellFormed(L, H, b) && NextRow(b) < L.capacity && len <= L.maxIdBytes
    ensures PoolCursor(b) + LEN_PREFIX_BYTES + len <= L.poolDataBytes
  {
    Bits.TimesMonotone(NextRow(b) + 1, L.capacity, LEN_PREFIX_BYTES + L.maxIdBytes);
  }

  // ---------------------------------------------------------------------------
  // The abstract map
  // ---------------------------------------------------------------------------

  lemma MapWellDefined(L: SegmentLayout, H: HashFn, b: Buffer)
    requires WellFormed(L, H, b)
    ensures IdsDistinct(SlotsOf(L, b)) && NextRow(b) <= L.capacity
    ensures forall id :: id in Entries(SlotsOf(L, b)) ==>
              && Entries(SlotsOf(L, b))[id] < NextRow(b)
              && RowOff(L, Entries(SlotsOf(L, b))[id]) + L.rowSize <= |b|
  {
    hide Decode, Probe, StoredId, SlotAt, Entries;
    var T := TableOf(L, b);
    OkIdsDistinct(T, H, L.capacity, L.maxIdBytes);
    forall id | id in Entries(T.slots)
      ensures Entries(T.slots)[id] < NextRow(b) && RowOff(L, Entries(T.slots)[id]) + L.rowSize <= |b|
    {
      var i := SlotOfEntry(T.slots, id);
      assert SlotOk(T.slots[i], T, H, L.maxIdBytes);
      RowInBounds(L, T.slots[i].row);
    }
  }

  /** Row index of every stored id. */
  ghost function RowMap(L: SegmentLayout, H: HashFn, b: Buffer): map<Buffer, nat>
    requires WellFormed(L, H, b)
  {
    MapWellDefined(L, H, b);
    Entries(SlotsOf(L, b))
  }

  /** What a segment means: every stored id with its row bytes. */
  ghost function StoreMap(L: SegmentLayout, H: HashFn, b: Buffer): map<Buffer, Buffer>
    requires WellFormed(L, H, b)
  {
    MapWellDefined(L, H, b);
    map id | id in RowMap(L, H, b) :: RowBytes(L, b, RowMap(L, H, b)[id])
  }

  // ---------------------------------------------------------------------------
  // Lookup
  // ---------------------------------------------------------------------------

  datatype LookupResult = InvalidId | NotFound | RowAt(offset: nat)

  /** The abstract answer: the stored row's offset, or not found. */
  ghost function LookupMeaning(L: SegmentLayout, H: HashFn, b: Buffer, id: Buffer): LookupResult
    requires WellFormed(L, H, b)
  {
    if id == [] then InvalidId
    else if id in RowMap(L, H, b) then RowAt(RowOff(L, RowMap(L, H, b)[id]))
    else NotFound
  }

  lemma SlotInBounds(L: SegmentLayout, i: nat)
    requires Valid(L) && i < L.slotCapacity
    ensures L.slotTableOffset <= SlotOff(L, i) && SlotOff(L, i) + SLOT_BYTES <= L.poolOffset <= L.totalSize
  {
  }

  /** `h & mask` is the home slot of `h`, and `(idx + 1) & mask` the next slot. */
  lemma MaskIsHome(L: SegmentLayout, h: nat)
    requires Valid(L)
    ensures L.slotCapacity > 0
    ensures Bits.And(h, L.slotCapacity - 1) == Bits.Remainder(h, L.slotCapacity)
  {
    var k: nat :| Bits.Pow2(k) == L.slotCapacity;
    Bits.AndMask(h, k);
    Bits.RemainderIsMod(h, L.slotCapacity);
  }

  lemma MaskIsSucc(L: SegmentLayout, i: nat)
    requires Valid(L) && i < L.slotCapacity
    ensures Bits.And(i + 1, L.slotCapacity - 1) == Succ(i, L.slotCapacity)
  {
    MaskIsHome(L, i + 1);
    assert Bits.Remainder(L.slotCapacity, L.slotCapacity) == Bits.Remainder(0, L.slotCapacity);
  }

  /** Probe the slot table in place; never writes. */
  method Lookup(buf: array<byte>, L: SegmentLayout, H: HashFn, id: Buffer) returns (r: LookupResult)
    requires WellFormed(L, H, buf[..])
    ensures r == LookupMeaning(L, H, buf[..], id)
  {
    hide Encode, Decode, Bits.And, Bits.Remainder, Bits.Times, StoredId, TableOk, SlotAt, Entries;
    if id == [] {
      return InvalidId;
    }
    var h := H(id);
    var view := buf[..];
    ghost var slots := SlotsOf(L, view);
    SearchIsMembership(TableOf(L, view), H, L.capacity, L.maxIdBytes, id);
    MaskIsHome(L, h);
    var idx := Bits.And(h, L.slotCapacity - 1);
    for n := 0 to L.slotCapacity
      invariant 0 <= idx < L.slotCapacity
      invariant Search(slots, h, id) == Probe(slots, h, id, idx, L.slotCapacity - n)
    {
      SlotInBounds(L, idx);
      var slot := SlotAt(L, view, idx);
      assert slot == slots[idx];
      if slot.Vacant? {
        return NotFound;
      }
      if slot.Taken? && slot.hash == h && slot.id == id {
        return RowAt(RowOff(L, slot.row));
      }
      MaskIsSucc(L, idx);
      idx := Bits.And(idx + 1, L.slotCapacity - 1);
    }
    return NotFound;
  }
}
