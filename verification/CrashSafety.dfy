/** A writer that dies inside an insert. The nine writes are cut after any number of whole
    writes and any number of bytes of the next one; only the two 8-byte cursor words are
    taken as stored whole. */
module CrashSafety {
  import Bits
  import opened Bytes
  import opened Layout
  import opened SlotTable
  import opened Segment
  import opened SegmentInsert
  import opened Upsert

  /** `k` whole writes, then the first `j` bytes of write `k`. */
  function CutWrites(ws: seq<Write>, k: nat, j: nat): (r: seq<Write>)
    requires k <= |ws| && (j > 0 ==> k < |ws| && j <= |ws[k].data|)
  {
    if j == 0 then ws[..k] else ws[..k] + [Write(ws[k].off, ws[k].data[..j])]
  }

  /** A crash point of the insert of `id` at slot `e`. */
  ghost predicate CrashPoint(L: SegmentLayout, H: HashFn, b: Buffer, e: nat, id: Buffer, row: Buffer, k: nat, j: nat)
  {
    && CanInsert(L, H, b, e, id, row)
    && |b| >= DATA_REGION_OFFSET && AllFit(|b|, InsertWrites(L, b, e, H(id), id, row))
    && k <= FLAG_WRITE + 1
    && (j > 0 ==> 2 <= k <= FLAG_WRITE && j <= |InsertWrites(L, b, e, H(id), id, row)[k].data|)
  }

  function CrashedBytes(L: SegmentLayout, b: Buffer, e: nat, h: u64, id: Buffer, row: Buffer, k: nat,
                        j: nat): (x: Buffer)
    requires |b| >= DATA_REGION_OFFSET && AllFit(|b|, InsertWrites(L, b, e, h, id, row))
    requires k <= FLAG_WRITE + 1 && (j > 0 ==> k <= FLAG_WRITE && j <= |InsertWrites(L, b, e, h, id, row)[k].data|)
    ensures |x| == |b|
  {
    var ws := InsertWrites(L, b, e, h, id, row);
    assert j > 0 ==> ws[k].Fits(|b|);
    ApplyAll(b, CutWrites(ws, k, j))
  }

  ghost predicate BeforePublication(k: nat, j: nat)
  {
    k < FLAG_WRITE || (k == FLAG_WRITE && j == 0)
  }

  lemma CutVisible(L: SegmentLayout, H: HashFn, b: Buffer, e: nat, id: Buffer, row: Buffer, k: nat, j: nat)
    requires CrashPoint(L, H, b, e, id, row, k, j) && BeforePublication(k, j)
    ensures e < L.slotCapacity
    ensures SameVisible(L, H, b, CrashedBytes(L, b, e, H(id), id, row, k, j), e)
  {
    hide Encode, Decode, Probe, TableOk, Bits.Times, InsertWrites, SameVisible;
    var ws := InsertWrites(L, b, e, H(id), id, row);
    var cut := CutWrites(ws, k, j);
    InsertPlacement(L, H, b, e, id, row);
    WritesQuiet(L, H, b, e, id, row);
    forall i | 0 <= i < |cut|
      ensures cut[i].Fits(|b|) && Quiet(L, b, e, cut[i])
    {
      assert ws[i].Fits(|b|) && Quiet(L, b, e, ws[i]);
    }
    StageVisible(L, H, b, e, cut);
  }

  lemma CutCursor(L: SegmentLayout, H: HashFn, b: Buffer, e: nat, id: Buffer, row: Buffer, k: nat, j: nat, c: nat)
    requires CrashPoint(L, H, b, e, id, row, k, j) && c < 2
    ensures var off := InsertWrites(L, b, e, H(id), id, row)[c].off;
            var data := InsertWrites(L, b, e, H(id), id, row)[c].data;
            && off + 8 <= |b| && |data| == 8
            && CrashedBytes(L, b, e, H(id), id, row, k, j)[off..off + 8] == if c < k then data else b[off..off + 8]
  {
    hide Encode, Decode, Probe, TableOk, TableOf, Bits.Times, WellFormed, Search;
    var ws := InsertWrites(L, b, e, H(id), id, row);
    var cut := CutWrites(ws, k, j);
    assert |ws[c].data| == 8 && ws[c].Fits(|b|);
    WritesApart(L, H, b, e, id, row, c);
    WritesApart(L, H, b, e, id, row, 0);
    assert AllFit(|b|, cut);
    if c < k {
      assert cut[c] == ws[c];
      WroteThere(b, cut, c);
    } else {
      assert ws[1].Apart(ws[0]);
      KeptOutside(b, cut, ws[c].off, ws[c].off + 8);
    }
  }

  /** Cursors at a crash point: each is either untouched or fully advanced, rows first. */
  lemma CutCursors(L: SegmentLayout, H: HashFn, b: Buffer, e: nat, id: Buffer, row: Buffer, k: nat, j: nat)
    requires CrashPoint(L, H, b, e, id, row, k, j)
    ensures var x := CrashedBytes(L, b, e, H(id), id, row, k, j);
            && NextRow(x) == (if k >= 1 then NextRow(b) + 1 else NextRow(b))
            && PoolCursor(x) == (if k >= 2 then PoolCursor(b) + LEN_PREFIX_BYTES + |id| else PoolCursor(b))
  {
    hide Encode, Decode, Probe, TableOk, Bits.Times, CrashedBytes;
    InsertPlacement(L, H, b, e, id, row);
    CutCursor(L, H, b, e, id, row, k, j, 0);
    CutCursor(L, H, b, e, id, row, k, j, 1);
    Word64(NextRow(b) + 1);
    Word64(PoolCursor(b) + LEN_PREFIX_BYTES + |id|);
  }

  lemma CutCursorsAhead(L: SegmentLayout, H: HashFn, b: Buffer, e: nat, id: Buffer, row: Buffer, k: nat, j: nat)
    requires CrashPoint(L, H, b, e, id, row, k, j)
    ensures CursorsAhead(L, b, CrashedBytes(L, b, e, H(id), id, row, k, j))
  {
    hide Encode, Decode, Probe, CrashedBytes, InsertWrites;
    CutCursors(L, H, b, e, id, row, k, j);
    PoolRoom(L, H, b, |id|);
    assert Bits.Times(NextRow(b) + 1, LEN_PREFIX_BYTES + L.maxIdBytes)
        == Bits.Times(NextRow(b), LEN_PREFIX_BYTES + L.maxIdBytes) + LEN_PREFIX_BYTES + L.maxIdBytes;
  }

  /** Stopped before publication: well formed, and every entity as before. */
  lemma CrashBeforePublication(L: SegmentLayout, H: HashFn, b: Buffer, e: nat, id: Buffer, row: Buffer, k: nat, j: nat)
    requires CrashPoint(L, H, b, e, id, row, k, j) && BeforePublication(k, j)
    ensures var x := CrashedBytes(L, b, e, H(id), id, row, k, j);
            && WellFormed(L, H, x)
            && RowMap(L, H, x) == RowMap(L, H, b)
            && StoreMap(L, H, x) == StoreMap(L, H, b)
  {
    hide Encode, Decode, Probe, CrashedBytes, InsertWrites, TableOk, Bits.Times, SameVisible, CursorsAhead;
    var x := CrashedBytes(L, b, e, H(id), id, row, k, j);
    CutVisible(L, H, b, e, id, row, k, j);
    CutCursorsAhead(L, H, b, e, id, row, k, j);
    InvisibleWellFormed(L, H, b, x, e);
    InvisibleInsert(L, H, b, x, e);
  }

  lemma {:induction false} DecodeZeroBytes(s: Buffer)
    requires Decode(s) == 0
    ensures forall i :: 0 <= i < |s| ==> s[i] == 0
  {
    if s != [] {
      DecodeZeroBytes(s[1..]);
      assert forall i :: 1 <= i < |s| ==> s[i] == s[1..][i - 1];
    }
  }

  lemma FlagBytes()
    ensures Encode(OCCUPIED, 4) == [1, 0, 0, 0]
  {
    assert Encode(0, 0) == [];
    assert Encode(0, 1) == [0];
    assert Encode(0, 2) == [0, 0];
    assert Encode(0, 3) == [0, 0, 0];
  }

  lemma PartialFlag(y: Buffer, f: nat, j: nat)
    requires f + 4 <= |y| && ReadU32(y, f) == 0 && 1 <= j <= 4
    ensures Splice(y, f, Encode(OCCUPIED, 4)[..j]) == Splice(y, f, Encode(OCCUPIED, 4))
  {
    FlagBytes();
    DecodeZeroBytes(y[f..f + 4]);
    assert forall i :: f <= i < f + 4 ==> y[i] == y[f..f + 4][i - f];
  }

  /** The flag word becomes visible with its first byte, so a cut inside it is no cut. */
  lemma CrashAfterPublication(L: SegmentLayout, H: HashFn, b: Buffer, e: nat, id: Buffer, row: Buffer, k: nat, j: nat)
    requires CrashPoint(L, H, b, e, id, row, k, j) && !BeforePublication(k, j)
    ensures CrashedBytes(L, b, e, H(id), id, row, k, j) == InsertedBytes(L, b, e, H(id), id, row)
  {
    hide Encode, Decode, Probe, TableOk, Bits.Times;
    var ws := InsertWrites(L, b, e, H(id), id, row);
    if k == FLAG_WRITE {
      CutVisible(L, H, b, e, id, row, FLAG_WRITE, 0);
      InsertPlacement(L, H, b, e, id, row);
      var y := ApplyAll(b, ws[..FLAG_WRITE]);
      assert ReadU32(y, ws[FLAG_WRITE].off) == 0;
      PartialFlag(y, ws[FLAG_WRITE].off, j);
      assert CutWrites(ws, k, j)[..FLAG_WRITE] == ws[..FLAG_WRITE];
      assert ws[..FLAG_WRITE + 1][..FLAG_WRITE] == ws[..FLAG_WRITE];
    }
  }

  /** Crash safety of a new insert: the surviving segment is well formed and its map is
      the old map or the old map with the entry. */
  lemma CrashedInsert(L: SegmentLayout, H: HashFn, b: Buffer, e: nat, id: Buffer, row: Buffer, k: nat, j: nat)
    requires CrashPoint(L, H, b, e, id, row, k, j)
    ensures var x := CrashedBytes(L, b, e, H(id), id, row, k, j);
            && WellFormed(L, H, x)
            && StoreMap(L, H, x) ==
                 (if BeforePublication(k, j) then StoreMap(L, H, b) else StoreMap(L, H, b)[id := row])
            && NextRow(x) == (if k == 0 then NextRow(b) else NextRow(b) + 1)
  {
    hide Encode, Decode, Probe, CrashedBytes, InsertWrites, TableOk, Bits.Times, InsertedBytes;
    CutCursors(L, H, b, e, id, row, k, j);
    if BeforePublication(k, j) {
      CrashBeforePublication(L, H, b, e, id, row, k, j);
    } else {
      CrashAfterPublication(L, H, b, e, id, row, k, j);
      InsertedMap(L, H, b, e, id, row);
    }
  }

  /** Crash safety of an update: after any number of copied bytes only that id's row
      differs, and it is a new prefix followed by the old rest. */
  lemma CrashedUpdate(L: SegmentLayout, H: HashFn, b: Buffer, id: Buffer, row: Buffer, j: nat)
    requires WellFormed(L, H, b) && id in RowMap(L, H, b) && |row| == L.rowSize && j <= |row|
    ensures var r := RowMap(L, H, b)[id];
            && RowOff(L, r) + L.rowSize <= |b|
            && var x := Splice(b, RowOff(L, r), row[..j]);
            && WellFormed(L, H, x)
            && RowMap(L, H, x) == RowMap(L, H, b) && NextRow(x) == NextRow(b)
            && StoreMap(L, H, x) == StoreMap(L, H, b)[id := row[..j] + StoreMap(L, H, b)[id][j..]]
  {
    hide Encode, Decode, Probe, TableOk, Bits.Times, StoredId, Entries;
    MapWellDefined(L, H, b);
    var r := RowMap(L, H, b)[id];
    var mixed := row[..j] + StoreMap(L, H, b)[id][j..];
    UpdatedMap(L, H, b, id, mixed);
    SpliceMixed(b, RowOff(L, r), row[..j], L.rowSize);
  }

  lemma SpliceMixed(b: Buffer, off: nat, part: Buffer, size: nat)
    requires |part| <= size && off + size <= |b|
    ensures Splice(b, off, part) == Splice(b, off, part + b[off..off + size][|part|..])
  {
  }

  /** Recovery: re-running the interrupted insert on the surviving segment gives exactly
      the intended map if and only if the entry had been published or a row is left. */
  lemma RerunRecovers(L: SegmentLayout, H: HashFn, b: Buffer, e: nat, id: Buffer, row: Buffer, k: nat, j: nat)
    requires CrashPoint(L, H, b, e, id, row, k, j)
    ensures var x := CrashedBytes(L, b, e, H(id), id, row, k, j);
            && WellFormed(L, H, x) && WellFormed(L, H, UpsertBytes(L, H, x, id, row))
            && (StoreMap(L, H, UpsertBytes(L, H, x, id, row)) == StoreMap(L, H, b)[id := row]
                <==> !BeforePublication(k, j) || NextRow(x) < L.capacity)
  {
    hide Encode, Decode, Probe, CrashedBytes, InsertWrites, TableOk, Bits.Times, UpsertBytes;
    var x := CrashedBytes(L, b, e, H(id), id, row, k, j);
    CrashedInsert(L, H, b, e, id, row, k, j);
    UpsertIsMapUpdate(L, H, x, id, row);
    InsertedMap(L, H, b, e, id, row);
    MapWellDefined(L, H, x);
    assert id in StoreMap(L, H, x) <==> id in RowMap(L, H, x);
  }

  lemma RerunUpdate(L: SegmentLayout, H: HashFn, b: Buffer, id: Buffer, row: Buffer, j: nat)
    requires WellFormed(L, H, b) && id in RowMap(L, H, b) && |row| == L.rowSize && j <= |row|
    ensures var r := RowMap(L, H, b)[id];
            && RowOff(L, r) + L.rowSize <= |b|
            && var x := Splice(b, RowOff(L, r), row[..j]);
            && WellFormed(L, H, x) && WellFormed(L, H, UpsertBytes(L, H, x, id, row))
            && StoreMap(L, H, UpsertBytes(L, H, x, id, row)) == StoreMap(L, H, b)[id := row]
  {
    hide Encode, Decode, Probe, TableOk, Bits.Times, UpsertBytes, Entries;
    CrashedUpdate(L, H, b, id, row, j);
    MapWellDefined(L, H, b);
    var x := Splice(b, RowOff(L, RowMap(L, H, b)[id]), row[..j]);
    StoredIdBounds(L, H, b, id);
    UpsertIsMapUpdate(L, H, x, id, row);
  }

  lemma StoredIdBounds(L: SegmentLayout, H: HashFn, b: Buffer, id: Buffer)
    requires WellFormed(L, H, b) && id in RowMap(L, H, b)
    ensures 0 < |id| <= L.maxIdBytes
  {
    MapWellDefined(L, H, b);
    var i := SlotOfEntry(SlotsOf(L, b), id);
    assert SlotOk(SlotsOf(L, b)[i], TableOf(L, b), H, L.maxIdBytes);
  }
}
