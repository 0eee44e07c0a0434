/** The writer's public operations on a segment: region initialisation, the in-place
    upsert, and iteration over the stored entities. */
module Upsert {
  import Bits
  import opened Bytes
  import opened Layout
  import opened SlotTable
  import opened Segment
  import opened SegmentInsert

  datatype InsertResult =
    | Inserted
    | Updated
    | EmptyIdError
    | WrongRowSizeError
    | IdTooLongError
    | CapacityExceededError
    | PoolFullError
    | TableFullError

  /** What one insert means for the map, case by case. Two of the source's errors, a full
      string pool and a fully scanned slot table, are impossible on a well-formed segment. */
  ghost predicate InsertMeaning(L: SegmentLayout, H: HashFn, b: Buffer, x: Buffer, id: Buffer, row: Buffer,
                                r: InsertResult)
    requires WellFormed(L, H, b) && WellFormed(L, H, x)
  {
    var sized := id != [] && |row| == L.rowSize;
    match r
    case EmptyIdError => id == [] && x == b
    case WrongRowSizeError => id != [] && |row| != L.rowSize && x == b
    case IdTooLongError => sized && |id| > L.maxIdBytes && x == b
    case CapacityExceededError =>
      && sized && |id| <= L.maxIdBytes && x == b
      && id !in StoreMap(L, H, b) && NextRow(b) == L.capacity
    case Inserted =>
      && sized && |id| <= L.maxIdBytes
      && id !in StoreMap(L, H, b) && NextRow(b) < L.capacity
      && StoreMap(L, H, x) == StoreMap(L, H, b)[id := row]
      && RowMap(L, H, x) == RowMap(L, H, b)[id := NextRow(b)]
      && NextRow(x) == NextRow(b) + 1
    case Updated =>
      && sized && |id| <= L.maxIdBytes
      && id in StoreMap(L, H, b)
      && StoreMap(L, H, x) == StoreMap(L, H, b)[id := row]
      && RowMap(L, H, x) == RowMap(L, H, b)
      && NextRow(x) == NextRow(b)
    case PoolFullError => false
    case TableFullError => false
  }

  // ---------------------------------------------------------------------------
  // Update of a stored row
  // ---------------------------------------------------------------------------

  /** The decoded table lives entirely below the row region. */
  lemma TableBelowRows(L: SegmentLayout, H: HashFn, b: Buffer, x: Buffer)
    requires WellFormed(L, H, b) && |x| == |b|
    requires L.rowsOffset <= |b| && x[..L.rowsOffset] == b[..L.rowsOffset]
    ensures TableOf(L, x) == TableOf(L, b)
  {
    assert L.poolDataOffset + PoolCursor(b) <= L.rowsOffset by {
      Bits.TimesMonotone(NextRow(b), L.capacity, LEN_PREFIX_BYTES + L.maxIdBytes);
    }
    SubSlice(x, b, 0, L.rowsOffset, METADATA_OFFSET, METADATA_OFFSET + 8);
    SubSlice(x, b, 0, L.rowsOffset, POOL_CURSOR_OFFSET, POOL_CURSOR_OFFSET + 8);
    SubSlice(x, b, 0, L.rowsOffset, L.poolOffset, L.poolDataOffset + PoolCursor(b));
    forall i | 0 <= i < L.slotCapacity
      ensures SlotsOf(L, x)[i] == SlotsOf(L, b)[i]
    {
      SlotInBounds(L, i);
      SubSlice(x, b, 0, L.rowsOffset, SlotOff(L, i), SlotOff(L, i) + SLOT_BYTES);
      assert SlotOk(SlotsOf(L, b)[i], TableOf(L, b), H, L.maxIdBytes);
      SameSlot(L, b, x, i, PoolCursor(b));
    }
  }

  function OverwriteRow(L: SegmentLayout, b: Buffer, r: nat, row: Buffer): (x: Buffer)
    requires |row| == L.rowSize && RowOff(L, r) + L.rowSize <= |b|
    ensures |x| == |b|
  {
    Splice(b, RowOff(L, r), row)
  }

  lemma OverwriteBytes(L: SegmentLayout, b: Buffer, r: nat, row: Buffer, q: nat)
    requires Valid(L) && |b| == L.totalSize && r < L.capacity && q < L.capacity && |row| == L.rowSize
    requires RowOff(L, r) + L.rowSize <= |b|
    ensures RowOff(L, q) + L.rowSize <= |b|
    ensures RowBytes(L, OverwriteRow(L, b, r, row), q) == if q == r then row else RowBytes(L, b, q)
  {
    RowInBounds(L, r);
    RowInBounds(L, q);
    if q == r {
      SpliceInside(b, RowOff(L, r), row);
    } else {
      SpliceOutside(b, RowOff(L, r), row, RowOff(L, q), RowOff(L, q) + L.rowSize);
    }
  }

  lemma UpdatedTable(L: SegmentLayout, H: HashFn, b: Buffer, r: nat, row: Buffer)
    requires WellFormed(L, H, b) && |row| == L.rowSize && r < L.capacity
    requires RowOff(L, r) + L.rowSize <= |b|
    ensures WellFormed(L, H, OverwriteRow(L, b, r, row))
    ensures TableOf(L, OverwriteRow(L, b, r, row)) == TableOf(L, b)
  {
    var x := OverwriteRow(L, b, r, row);
    SpliceOutside(b, RowOff(L, r), row, 0, L.rowsOffset);
    assert x[..L.rowsOffset] == b[..L.rowsOffset];
    TableBelowRows(L, H, b, x);
  }

  /** Overwriting one stored row changes that id's bytes and nothing else. */
  lemma UpdatedMap(L: SegmentLayout, H: HashFn, b: Buffer, id: Buffer, row: Buffer)
    requires WellFormed(L, H, b) && id in RowMap(L, H, b) && |row| == L.rowSize
    ensures var r := RowMap(L, H, b)[id];
            && RowOff(L, r) + L.rowSize <= |b|
            && WellFormed(L, H, OverwriteRow(L, b, r, row))
            && TableOf(L, OverwriteRow(L, b, r, row)) == TableOf(L, b)
            && RowMap(L, H, OverwriteRow(L, b, r, row)) == RowMap(L, H, b)
            && StoreMap(L, H, OverwriteRow(L, b, r, row)) == StoreMap(L, H, b)[id := row]
  {
    hide Encode, Decode, StoredId, Probe, Entries, TableOk, OverwriteRow, RowBytes;
    MapWellDefined(L, H, b);
    var r := RowMap(L, H, b)[id];
    var x := OverwriteRow(L, b, r, row);
    UpdatedTable(L, H, b, r, row);
    var was, now := StoreMap(L, H, b), StoreMap(L, H, x);
    forall k | k in RowMap(L, H, b)
      ensures now[k] == was[id := row][k]
    {
      RowsOfIdsDistinct(L, H, b, id, k);
      OverwriteBytes(L, b, r, row, RowMap(L, H, b)[k]);
    }
  }

  lemma RowsOfIdsDistinct(L: SegmentLayout, H: HashFn, b: Buffer, id: Buffer, k: Buffer)
    requires WellFormed(L, H, b) && id in RowMap(L, H, b) && k in RowMap(L, H, b)
    ensures k != id ==> RowMap(L, H, b)[k] != RowMap(L, H, b)[id]
  {
    MapWellDefined(L, H, b);
    if k != id {
      EntryRowsDistinct(SlotsOf(L, b), id, k);
    }
  }

  // ---------------------------------------------------------------------------
  // Insert
  // ---------------------------------------------------------------------------

  /** The bytes after one insert. */
  ghost function UpsertBytes(L: SegmentLayout, H: HashFn, b: Buffer, id: Buffer, row: Buffer): (x: Buffer)
    requires WellFormed(L, H, b)
    ensures |x| == |b|
  {
    if id == [] || |row| != L.rowSize || |id| > L.maxIdBytes then b
    else
      match Search(SlotsOf(L, b), H(id), id)
      case Hit(i) =>
        SlotRowInBounds(L, H, b, i);
        OverwriteRow(L, b, SlotsOf(L, b)[i].row, row)
      case Free(e) =>
        if NextRow(b) < L.capacity then
          WritesFit(L, H, b, e, id, row);
          InsertedBytes(L, b, e, H(id), id, row)
        else b
      case Exhausted => b
  }

  lemma SlotRowInBounds(L: SegmentLayout, H: HashFn, b: Buffer, i: nat)
    requires WellFormed(L, H, b) && i < L.slotCapacity && SlotsOf(L, b)[i].Taken?
    ensures RowOff(L, SlotsOf(L, b)[i].row) + L.rowSize <= |b|
    ensures SlotsOf(L, b)[i].id in RowMap(L, H, b)
    ensures RowMap(L, H, b)[SlotsOf(L, b)[i].id] == SlotsOf(L, b)[i].row
  {
    assert SlotOk(SlotsOf(L, b)[i], TableOf(L, b), H, L.maxIdBytes);
    RowInBounds(L, SlotsOf(L, b)[i].row);
    MapWellDefined(L, H, b);
    EntryOf(SlotsOf(L, b), i);
  }

  function UpsertResult(L: SegmentLayout, id: Buffer, row: Buffer, found: bool, full: bool): InsertResult
  {
    if id == [] then EmptyIdError
    else if |row| != L.rowSize then WrongRowSizeError
    else if |id| > L.maxIdBytes then IdTooLongError
    else if found then Updated
    else if full then CapacityExceededError
    else Inserted
  }

  /** Insert is exactly map update, and fails only for the reasons a caller can check. */
  lemma UpsertIsMapUpdate(L: SegmentLayout, H: HashFn, b: Buffer, id: Buffer, row: Buffer)
    requires WellFormed(L, H, b)
    ensures WellFormed(L, H, UpsertBytes(L, H, b, id, row))
    ensures var r := UpsertResult(L, id, row, id in RowMap(L, H, b), NextRow(b) == L.capacity);
            InsertMeaning(L, H, b, UpsertBytes(L, H, b, id, row), id, row, r)
  {
    if id != [] && |row| == L.rowSize && |id| <= L.maxIdBytes {
      SearchIsMembership(TableOf(L, b), H, L.capacity, L.maxIdBytes, id);
      match Search(SlotsOf(L, b), H(id), id) {
        case Hit(i) =>
          SlotRowInBounds(L, H, b, i);
          UpdatedMap(L, H, b, id, row);
        case Free(e) =>
          if NextRow(b) < L.capacity {
            InsertedMap(L, H, b, e, id, row);
            InsertedWellFormed(L, H, b, e, id, row);
            CursorsWritten(L, H, b, e, id, row, FLAG_WRITE + 1);
          }
        case Exhausted =>
          assert false;
      }
    }
  }

  /** The writes of an insert, one after the other. */
  method PerformWrites(buf: array<byte>, ws: seq<Write>)
    requires AllFit(buf.Length, ws)
    modifies buf
    ensures buf[..] == ApplyAll(old(buf[..]), ws)
  {
    ghost var b := buf[..];
    for k := 0 to |ws|
      invariant AllFit(|b|, ws[..k])
      invariant buf[..] == ApplyAll(b, ws[..k])
    {
      WriteAt(buf, ws[k].off, ws[k].data);
      assert ws[..k + 1][..k] == ws[..k];
    }
    assert ws[..|ws|] == ws;
  }

  lemma HeaderRead(L: SegmentLayout, H: HashFn, b: Buffer)
    requires WellFormed(L, H, b)
    ensures |b| >= DATA_REGION_OFFSET && NextRow(b) <= L.capacity && 0 < |SlotsOf(L, b)| == L.slotCapacity
  {
    hide Encode, Decode, Bits.Times, SlotOk, RowsDistinct, Reachable, SlotAt;
  }

  lemma LastStage(L: SegmentLayout, b: Buffer, e: nat, h: u64, id: Buffer, row: Buffer)
    requires |b| >= DATA_REGION_OFFSET && AllFit(|b|, InsertWrites(L, b, e, h, id, row))
    ensures InsertedBytes(L, b, e, h, id, row) == ApplyAll(b, InsertWrites(L, b, e, h, id, row))
  {
    hide InsertWrites, ApplyAll, AllFit;
    var ws := InsertWrites(L, b, e, h, id, row);
    assert ws[..FLAG_WRITE + 1] == ws;
  }

  lemma FreeSlot(L: SegmentLayout, H: HashFn, b: Buffer, e: nat, id: Buffer, row: Buffer)
    requires CanInsert(L, H, b, e, id, row)
    ensures e < L.slotCapacity && WellFormed(L, H, b) && NextRow(b) < L.capacity && |id| <= L.maxIdBytes
  {
    HeaderRead(L, H, b);
    hide WellFormed, Search, SlotsOf, NextRow;
  }

  lemma FreeWrites(L: SegmentLayout, H: HashFn, b: Buffer, e: nat, id: Buffer, row: Buffer)
    requires CanInsert(L, H, b, e, id, row)
    ensures |b| >= DATA_REGION_OFFSET && e < L.slotCapacity
    ensures PoolCursor(b) + LEN_PREFIX_BYTES + |id| <= L.poolDataBytes
    ensures AllFit(|b|, InsertWrites(L, b, e, H(id), id, row))
    ensures InsertedBytes(L, b, e, H(id), id, row) == ApplyAll(b, InsertWrites(L, b, e, H(id), id, row))
  {
    hide *;
    FreeSlot(L, H, b, e, id, row);
    HeaderRead(L, H, b);
    PoolRoom(L, H, b, |id|);
    WritesFit(L, H, b, e, id, row);
    LastStage(L, b, e, H(id), id, row);
  }

  lemma FreeUpsert(L: SegmentLayout, H: HashFn, b: Buffer, e: nat, id: Buffer, row: Buffer)
    requires WellFormed(L, H, b) && 0 < |id| <= L.maxIdBytes && |row| == L.rowSize
    requires Search(SlotsOf(L, b), H(id), id) == Free(e)
    ensures |b| >= DATA_REGION_OFFSET && NextRow(b) <= L.capacity
    ensures NextRow(b) == L.capacity ==> UpsertBytes(L, H, b, id, row) == b
    ensures NextRow(b) < L.capacity ==> CanInsert(L, H, b, e, id, row)
    ensures NextRow(b) < L.capacity ==>
              && AllFit(|b|, InsertWrites(L, b, e, H(id), id, row))
              && UpsertBytes(L, H, b, id, row) == InsertedBytes(L, b, e, H(id), id, row)
  {
    HeaderRead(L, H, b);
    hide WellFormed, Search, SlotsOf, InsertedBytes, InsertWrites, OverwriteRow, NextRow;
    if NextRow(b) < L.capacity {
      WritesFit(L, H, b, e, id, row);
    }
  }

  /** The `flags == EMPTY` branch: the nine ordered writes, in place. */
  method InsertIntoEmptySlot(buf: array<byte>, L: SegmentLayout, ghost H: HashFn, e: nat, h: u64, id: Buffer,
                             row: Buffer)
    returns (r: InsertResult)
    requires WellFormed(L, H, buf[..])
    requires h == H(id) && 0 < |id| <= L.maxIdBytes && |row| == L.rowSize
    requires Search(SlotsOf(L, buf[..]), H(id), id) == Free(e)
    modifies buf
    ensures buf[..] == UpsertBytes(L, H, old(buf[..]), id, row)
    ensures r == if NextRow(old(buf[..])) == L.capacity then CapacityExceededError else Inserted
  {
    hide *;
    var b := buf[..];
    FreeUpsert(L, H, b, e, id, row);
    var nextRow, poolCursor := NextRow(b), PoolCursor(b);
    if nextRow >= L.capacity {
      return CapacityExceededError;
    }
    FreeWrites(L, H, b, e, id, row);
    if poolCursor + LEN_PREFIX_BYTES + |id| > L.poolDataBytes {
      return PoolFullError;
    }
    PerformWrites(buf, InsertWrites(L, b, e, h, id, row));
    return Inserted;
  }

  /** The probe loop of insert: update in place on a match, insert at the first vacancy. */
  method ProbeAndWrite(buf: array<byte>, L: SegmentLayout, H: HashFn, id: Buffer, row: Buffer) returns (r: InsertResult)
    requires WellFormed(L, H, buf[..])
    requires 0 < |id| <= L.maxIdBytes && |row| == L.rowSize
    modifies buf
    ensures buf[..] == UpsertBytes(L, H, old(buf[..]), id, row)
    ensures r == UpsertResult(L, id, row, id in RowMap(L, H, old(buf[..])), NextRow(old(buf[..])) == L.capacity)
  {
    hide Encode, Decode, Bits.And, Bits.Remainder, Bits.Times, InsertWrites, StoredId, TableOk, Entries, SlotAt, Splice;
    ghost var b := buf[..];
    var h := H(id);
    ghost var slots := SlotsOf(L, b);
    SearchIsMembership(TableOf(L, b), H, L.capacity, L.maxIdBytes, id);
    MaskIsHome(L, h);
    var idx := Bits.And(h, L.slotCapacity - 1);
    for n := 0 to L.slotCapacity
      invariant 0 <= idx < L.slotCapacity
      invariant buf[..] == b
      invariant Search(slots, h, id) == Probe(slots, h, id, idx, L.slotCapacity - n)
    {
      SlotInBounds(L, idx);
      var slot := SlotAt(L, buf[..], idx);
      assert slot == slots[idx];
      if slot.Vacant? {
        r := InsertIntoEmptySlot(buf, L, H, idx, h, id, row);
        return;
      }
      if slot.Taken? && slot.hash == h && slot.id == id {
        SlotRowInBounds(L, H, b, idx);
        WriteAt(buf, RowOff(L, slot.row), row);
        return Updated;
      }
      MaskIsSucc(L, idx);
      idx := Bits.And(idx + 1, L.slotCapacity - 1);
    }
    return TableFullError;
  }

  /** Upsert one entity in place. */
  method Insert(buf: array<byte>, L: SegmentLayout, H: HashFn, id: Buffer, row: Buffer) returns (r: InsertResult)
    requires WellFormed(L, H, buf[..])
    modifies buf
    ensures buf[..] == UpsertBytes(L, H, old(buf[..]), id, row)
    ensures WellFormed(L, H, buf[..])
    ensures InsertMeaning(L, H, old(buf[..]), buf[..], id, row, r)
  {
    UpsertIsMapUpdate(L, H, buf[..], id, row);
    if id == [] {
      return EmptyIdError;
    }
    if |row| != L.rowSize {
      return WrongRowSizeError;
    }
    if |id| > L.maxIdBytes {
      return IdTooLongError;
    }
    r := ProbeAndWrite(buf, L, H, id, row);
  }
}
