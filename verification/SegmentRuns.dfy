/** Whole runs on one segment: creation, any sequence of inserts, iteration, and recovery
    of the layout by a process that opens the segment later. */
module SegmentRuns {
  import Bits
  import opened Bytes
  import opened Layout
  import opened SlotTable
  import opened Segment
  import opened SegmentInsert
  import opened Upsert

  // ---------------------------------------------------------------------------
  // Creation
  // ---------------------------------------------------------------------------

  lemma {:induction false} DecodeZeros(s: Buffer)
    requires forall i :: 0 <= i < |s| ==> s[i] == 0
    ensures Decode(s) == 0
  {
    if s != [] {
      DecodeZeros(s[1..]);
    }
  }

  /** A buffer as the operating system hands it over: zero behind the primary header. */
  ghost predicate ZeroedBehindHeader(L: SegmentLayout, b: Buffer)
  {
    Sized(L, b) && forall i :: METADATA_OFFSET <= i < |b| ==> b[i] == 0
  }

  function InitializedBytes(L: SegmentLayout, b: Buffer): (x: Buffer)
    requires L.poolOffset + STRING_POOL_HEADER_BYTES <= |b| && |b| >= DATA_REGION_OFFSET
    ensures |x| == |b|
  {
    Splice(Splice(b, METADATA_OFFSET, Encode(0, 8) + Encode(0, 8)),
           L.poolOffset, Encode(L.maxIdBytes, 4) + Encode(0, 4))
  }

  method InitializeSegmentRegions(buf: array<byte>, L: SegmentLayout)
    requires Valid(L) && buf.Length == L.totalSize
    modifies buf
    ensures |old(buf[..])| >= DATA_REGION_OFFSET && L.poolOffset + STRING_POOL_HEADER_BYTES <= buf.Length
    ensures buf[..] == InitializedBytes(L, old(buf[..]))
  {
    WriteAt(buf, METADATA_OFFSET, Encode(0, 8) + Encode(0, 8));
    WriteAt(buf, L.poolOffset, Encode(L.maxIdBytes, 4) + Encode(0, 4));
  }

  /** No slot in use, both cursors zero, both headers as creation wrote them. */
  ghost predicate Fresh(L: SegmentLayout, b: Buffer)
  {
    && Sized(L, b)
    && NextRow(b) == 0 && PoolCursor(b) == 0
    && (forall i :: 0 <= i < L.slotCapacity ==> SlotsOf(L, b)[i].Vacant?)
  }

  lemma InitializedFresh(L: SegmentLayout, b: Buffer)
    requires ZeroedBehindHeader(L, b)
    ensures Fresh(L, InitializedBytes(L, b))
    ensures ReadU32(InitializedBytes(L, b), L.poolOffset) == L.maxIdBytes
    ensures InitializedBytes(L, b)[..METADATA_OFFSET] == b[..METADATA_OFFSET]
  {
    hide Decode, Encode;
    var x := InitializedBytes(L, b);
    var zeros := Encode(0, 8) + Encode(0, 8);
    var header := Encode(L.maxIdBytes, 4) + Encode(0, 4);
    var y := Splice(b, METADATA_OFFSET, zeros);
    assert x[METADATA_OFFSET..METADATA_OFFSET + 8] == Encode(0, 8);
    assert x[POOL_CURSOR_OFFSET..POOL_CURSOR_OFFSET + 8] == Encode(0, 8);
    assert x[L.poolOffset..L.poolOffset + 4] == Encode(L.maxIdBytes, 4);
    Word64(0);
    Word32(L.maxIdBytes);
    forall i | 0 <= i < L.slotCapacity
      ensures SlotsOf(L, x)[i].Vacant?
    {
      SlotInBounds(L, i);
      var f := SlotOff(L, i) + SLOT_FLAGS_OFFSET;
      SpliceOutside(b, METADATA_OFFSET, zeros, f, f + 4);
      SpliceOutside(y, L.poolOffset, header, f, f + 4);
      DecodeZeros(b[f..f + 4]);
    }
  }

  lemma FreshIsEmpty(L: SegmentLayout, H: HashFn, b: Buffer)
    requires Fresh(L, b)
    ensures WellFormed(L, H, b)
    ensures RowMap(L, H, b) == map[] && StoreMap(L, H, b) == map[]
  {
    var T := TableOf(L, b);
    forall i | 0 <= i < |T.slots|
      ensures SlotOk(T.slots[i], T, H, L.maxIdBytes) && Reaches(T.slots, i)
    {
      assert T.slots[i].Vacant?;
    }
    VacantEntries(T.slots, |T.slots|);
  }

  // ---------------------------------------------------------------------------
  // Any sequence of inserts
  // ---------------------------------------------------------------------------

  datatype Op = Op(id: Buffer, row: Buffer)

  ghost predicate Acceptable(L: SegmentLayout, op: Op)
  {
    op.id != [] && |op.row| == L.rowSize && |op.id| <= L.maxIdBytes
  }

  /** The reference: a plain map that takes new ids until `capacity` of them are held. */
  ghost function MapRun(L: SegmentLayout, m: map<Buffer, Buffer>, ops: seq<Op>): map<Buffer, Buffer>
  {
    if ops == [] then m
    else
      var was := MapRun(L, m, ops[..|ops| - 1]);
      var op := ops[|ops| - 1];
      if Acceptable(L, op) && (op.id in was || |was| < L.capacity) then was[op.id := op.row] else was
  }

  ghost function SegmentRun(L: SegmentLayout, H: HashFn, b: Buffer, ops: seq<Op>): (x: Buffer)
    requires WellFormed(L, H, b)
    ensures WellFormed(L, H, x) && |x| == |b|
  {
    if ops == [] then b
    else
      var was := SegmentRun(L, H, b, ops[..|ops| - 1]);
      var op := ops[|ops| - 1];
      UpsertIsMapUpdate(L, H, was, op.id, op.row);
      UpsertBytes(L, H, was, op.id, op.row)
  }

  /** Byte-level refinement over whole runs: the segment holds exactly the reference map,
      and its row cursor counts the entities. */
  lemma {:induction false} RunRefinesMap(L: SegmentLayout, H: HashFn, b: Buffer, ops: seq<Op>)
    requires Fresh(L, b) && WellFormed(L, H, b)
    ensures StoreMap(L, H, SegmentRun(L, H, b, ops)) == MapRun(L, map[], ops)
    ensures NextRow(SegmentRun(L, H, b, ops)) == |MapRun(L, map[], ops)|
  {
    hide UpsertBytes, TableOk, TableOf, RowMap;
    if ops == [] {
      FreshIsEmpty(L, H, b);
    } else {
      var init, op := ops[..|ops| - 1], ops[|ops| - 1];
      RunRefinesMap(L, H, b, init);
      RunStep(L, H, SegmentRun(L, H, b, init), MapRun(L, map[], init), op);
    }
  }

  lemma RunStep(L: SegmentLayout, H: HashFn, was: Buffer, m: map<Buffer, Buffer>, op: Op)
    requires WellFormed(L, H, was) && StoreMap(L, H, was) == m && NextRow(was) == |m|
    ensures WellFormed(L, H, UpsertBytes(L, H, was, op.id, op.row))
    ensures var x := UpsertBytes(L, H, was, op.id, op.row);
            var n := if Acceptable(L, op) && (op.id in m || |m| < L.capacity) then m[op.id := op.row] else m;
            StoreMap(L, H, x) == n && NextRow(x) == |n|
  {
    hide UpsertBytes, TableOk, TableOf, Decode;
    UpsertIsMapUpdate(L, H, was, op.id, op.row);
    MapWellDefined(L, H, was);
    assert op.id in RowMap(L, H, was) <==> op.id in m;
  }

  /** On any well-formed segment a lookup hits exactly the stored ids and points at their rows. */
  lemma LookupReadsMap(L: SegmentLayout, H: HashFn, b: Buffer, id: Buffer)
    requires WellFormed(L, H, b)
    ensures var r := LookupMeaning(L, H, b, id);
            && (r.RowAt? <==> id in StoreMap(L, H, b))
            && (r.RowAt? ==> r.offset + L.rowSize <= |b| && b[r.offset..r.offset + L.rowSize] == StoreMap(L, H, b)[id])
  {
    hide Decode, TableOk, TableOf, Probe, Entries, Bits.Times;
    MapWellDefined(L, H, b);
    if id in RowMap(L, H, b) {
      StoredIdsNonEmpty(L, H, b, id);
    }
  }

  /** After any run a lookup finds exactly the ids of the reference map, and reads their rows. */
  lemma LookupAfterRun(L: SegmentLayout, H: HashFn, b: Buffer, ops: seq<Op>, id: Buffer)
    requires Fresh(L, b) && WellFormed(L, H, b)
    ensures var x := SegmentRun(L, H, b, ops);
            var r := LookupMeaning(L, H, x, id);
            && (r.RowAt? <==> id in MapRun(L, map[], ops))
            && (r.RowAt? ==>
                  r.offset + L.rowSize <= |x| && x[r.offset..r.offset + L.rowSize] == MapRun(L, map[], ops)[id])
  {
    hide SegmentRun, MapRun, StoreMap, LookupMeaning, WellFormed;
    RunRefinesMap(L, H, b, ops);
    LookupReadsMap(L, H, SegmentRun(L, H, b, ops), id);
  }

  lemma StoredIdsNonEmpty(L: SegmentLayout, H: HashFn, b: Buffer, id: Buffer)
    requires WellFormed(L, H, b) && id in RowMap(L, H, b)
    ensures id != []
  {
    MapWellDefined(L, H, b);
    var i := SlotOfEntry(SlotsOf(L, b), id);
    assert SlotOk(SlotsOf(L, b)[i], TableOf(L, b), H, L.maxIdBytes);
  }

  // ---------------------------------------------------------------------------
  // Layout recovery
  // ---------------------------------------------------------------------------

  lemma UpsertKeepsHeaders(L: SegmentLayout, H: HashFn, b: Buffer, id: Buffer, row: Buffer)
    requires WellFormed(L, H, b)
    ensures UpsertBytes(L, H, b, id, row)[..METADATA_OFFSET] == b[..METADATA_OFFSET]
    ensures UpsertBytes(L, H, b, id, row)[L.poolOffset..L.poolOffset + 4] == b[L.poolOffset..L.poolOffset + 4]
  {
    hide Decode, Encode, StoredId, Stage, InsertWrites, TableOk, Probe, Bits.Times;
    if id != [] && |row| == L.rowSize && |id| <= L.maxIdBytes {
      match Search(SlotsOf(L, b), H(id), id) {
        case Hit(i) =>
          SlotRowInBounds(L, H, b, i);
          SpliceOutside(b, RowOff(L, SlotsOf(L, b)[i].row), row, 0, METADATA_OFFSET);
          SpliceOutside(b, RowOff(L, SlotsOf(L, b)[i].row), row, L.poolOffset, L.poolOffset + 4);
        case Free(e) =>
          if NextRow(b) < L.capacity {
            WritesFit(L, H, b, e, id, row);
            InsertPlacement(L, H, b, e, id, row);
            InsertKeepsBytes(L, H, b, e, id, row, 0, METADATA_OFFSET);
            InsertKeepsBytes(L, H, b, e, id, row, L.poolOffset, L.poolOffset + 4);
          }
        case Exhausted =>
      }
    }
  }

  lemma {:induction false} RunKeepsHeaders(L: SegmentLayout, H: HashFn, b: Buffer, ops: seq<Op>)
    requires WellFormed(L, H, b)
    ensures SegmentRun(L, H, b, ops)[..METADATA_OFFSET] == b[..METADATA_OFFSET]
    ensures SegmentRun(L, H, b, ops)[L.poolOffset..L.poolOffset + 4] == b[L.poolOffset..L.poolOffset + 4]
  {
    hide UpsertBytes, TableOk, TableOf;
    if ops != [] {
      var init, op := ops[..|ops| - 1], ops[|ops| - 1];
      RunKeepsHeaders(L, H, b, init);
      UpsertKeepsHeaders(L, H, SegmentRun(L, H, b, init), op.id, op.row);
    }
  }

  /** A process that opens the segment after any run re-derives the creating layout. */
  lemma RecoverAfterRun(capacity: int, maxIdBytes: int, L: SegmentLayout, H: HashFn, b: Buffer, ops: seq<Op>)
    requires ComputeLayout(capacity, maxIdBytes, L.rowSize) == Ok(L) && WellFormed(L, H, b)
    requires ReadU32(b, CAPACITY_OFFSET) == capacity && ReadU32(b, L.poolOffset) == maxIdBytes
    ensures var x := SegmentRun(L, H, b, ops);
            && (ReadU32(x, CAPACITY_OFFSET) > 0 ==> HeaderPoolOffset(ReadU32(x, CAPACITY_OFFSET)) + 4 <= |x|)
            && ComputeLayoutFromSegment(x, L.rowSize) == Ok(L)
  {
    hide Decode, Bits.AndNot, Bits.BitLength, Bits.Pow2, TableOk, SegmentRun, AlignUp, Bits.Times;
    var x := SegmentRun(L, H, b, ops);
    RunKeepsHeaders(L, H, b, ops);
    SubSlice(x, b, 0, METADATA_OFFSET, CAPACITY_OFFSET, CAPACITY_OFFSET + 4);
    LayoutFields(capacity, maxIdBytes, L.rowSize);
    RecoverLayout(capacity, maxIdBytes, L.rowSize, x);
  }

  // ---------------------------------------------------------------------------
  // Iteration
  // ---------------------------------------------------------------------------

  /** Every stored entity exactly once, with its row offset, in slot order. */
  method IterateOccupied(buf: array<byte>, L: SegmentLayout, H: HashFn) returns (out: seq<(Buffer, nat)>)
    requires WellFormed(L, H, buf[..])
    ensures forall i, j :: 0 <= i < j < |out| ==> out[i].0 != out[j].0
    ensures forall id :: id in RowMap(L, H, buf[..]) <==> exists i :: 0 <= i < |out| && out[i].0 == id
    ensures forall i :: 0 <= i < |out| ==>
              out[i].0 in RowMap(L, H, buf[..]) && out[i].1 == RowOff(L, RowMap(L, H, buf[..])[out[i].0])
  {
    hide Decode, StoredId, SlotAt, TableOk, Bits.Times, Probe, Entries, IdsDistinct;
    var b := buf[..];
    ghost var slots := SlotsOf(L, b);
    ghost var from: seq<nat> := [];
    MapWellDefined(L, H, b);
    out := [];
    for idx := 0 to L.slotCapacity
      invariant |from| == |out|
      invariant forall i :: 0 <= i < |out| ==>
                  from[i] < idx && slots[from[i]].Taken? && out[i] == (slots[from[i]].id, RowOff(L, slots[from[i]].row))
      invariant forall i, j :: 0 <= i < j < |out| ==> from[i] != from[j]
      invariant forall k :: 0 <= k < idx && slots[k].Taken? ==> k in from
    {
      SlotInBounds(L, idx);
      var slot := SlotAt(L, b, idx);
      assert slot == slots[idx];
      if slot.Taken? {
        out := out + [(slot.id, RowOff(L, slot.row))];
        from := from + [idx];
      }
    }
    forall id | id in RowMap(L, H, b)
      ensures exists i :: 0 <= i < |out| && out[i].0 == id
    {
      var k := SlotOfEntry(slots, id);
      var i :| 0 <= i < |from| && from[i] == k;
      assert out[i].0 == id;
    }
    forall i | 0 <= i < |out|
      ensures out[i].0 in RowMap(L, H, b) && out[i].1 == RowOff(L, RowMap(L, H, b)[out[i].0])
    {
      EntryOf(slots, from[i]);
    }
    forall i, j | 0 <= i < j < |out|
      ensures out[i].0 != out[j].0
    {
      TakenIdsDiffer(slots, from[i], from[j]);
    }
  }

  lemma TakenIdsDiffer(slots: seq<Slot>, i: nat, j: nat)
    requires IdsDistinct(slots) && i < |slots| && j < |slots| && i != j
    requires slots[i].Taken? && slots[j].Taken?
    ensures slots[i].id != slots[j].id
  {
  }
}
