/** The copy phase of an upgrade: read the old segment column by column, realign the ids
    with their rows, and bulk-insert into a fresh segment of the new schema. */
module UpgradeCopy {
  import opened Bits
  import opened Bytes
  import opened Layout
  import opened SlotTable
  import opened Segment
  import opened SegmentInsert
  import opened Upsert
  import opened SegmentRuns
  import opened CrashSafety
  import opened Sorting
  import opened Schema
  import opened Assembly
  import opened BulkInsert
  import opened BulkColumns
  import opened BulkKernel
  import opened SchemaUpgrade
  import opened RowTranslation

  // ---------------------------------------------------------------------------
  // Field offsets by name
  // ---------------------------------------------------------------------------

  /** `_row_byte_offsets_by_name`: the hash-sorted table read back by field name. */
  method RowByteOffsetsByName(s: Fields, N: NameHash, table: seq<Extent>) returns (m: map<Buffer, nat>)
    requires ValidSchema(s, N) && |table| == |s|
    requires forall k :: 0 <= k < |s| ==> table[k] == FieldExtent(s, N, WireOrder(s, N)[k])
    ensures forall i {:trigger s[i]} :: 0 <= i < |s| ==> s[i].name in m && m[s[i].name] == Offset(s, 0, i)
  {
    hide Argsort, Offset, ValidField, ElementCount, Times;
    WireOrderOk(s, N);
    var order := WireOrder(s, N);
    var byHash: map<u64, nat> := map[];
    for k := 0 to |table|
      invariant forall j :: 0 <= j < k ==>
                  table[j].nameHash in byHash && byHash[table[j].nameHash] == table[j].byteOffset
    {
      forall j | 0 <= j < k
        ensures table[j].nameHash != table[k].nameHash
      {
        assert order[j] != order[k];
        assert N(s[order[j]].name) != N(s[order[k]].name);
      }
      byHash := byHash[table[k].nameHash := table[k].byteOffset];
    }
    m := map[];
    for i := 0 to |s|
      invariant forall j {:trigger s[j]} :: 0 <= j < i ==> s[j].name in m && m[s[j].name] == Offset(s, 0, j)
    {
      assert i in order;
      var k :| 0 <= k < |order| && order[k] == i;
      assert table[k].nameHash == N(s[i].name);
      forall j | 0 <= j < i
        ensures s[j].name != s[i].name
      {
        assert N(s[j].name) != N(s[i].name);
      }
      m := m[s[i].name := byHash[N(s[i].name)]];
    }
  }

  // ---------------------------------------------------------------------------
  // Ids in row order
  // ---------------------------------------------------------------------------

  datatype Collected = Ids(ids: seq<Buffer>) | Inconsistent

  /** The stored ids, each at its own row index. */
  ghost predicate RowListing(L: SegmentLayout, H: HashFn, b: Buffer, ids: seq<Buffer>)
    requires WellFormed(L, H, b)
  {
    && |ids| == NextRow(b)
    && (forall k {:trigger ids[k]} :: 0 <= k < |ids| ==> ids[k] in RowMap(L, H, b) && RowMap(L, H, b)[ids[k]] == k)
    && (forall id {:trigger id in RowMap(L, H, b)} :: id in RowMap(L, H, b) ==> id in ids)
  }

  lemma {:induction false} AtLeastIndex(s: seq<nat>, k: nat)
    requires k < |s| && forall i, j :: 0 <= i < j < |s| ==> s[i] < s[j]
    ensures s[k] >= k
  {
    if k > 0 {
      AtLeastIndex(s, k - 1);
    }
  }

  lemma {:induction false} AtMostIndex(s: seq<nat>, n: nat, k: nat)
    requires k < n == |s| && forall i, j :: 0 <= i < j < |s| ==> s[i] < s[j]
    requires forall i :: 0 <= i < n ==> s[i] < n
    ensures s[k] <= k
    decreases n - k
  {
    if k + 1 < n {
      AtMostIndex(s, n, k + 1);
    }
  }

  /** Sorting `n` distinct indices below `n` puts index `k` at place `k`. */
  lemma SortedIndices(rows: seq<int>, order: seq<nat>, n: nat)
    requires |rows| == n && IsPermutation(order, n) && SortedBy(rows, order)
    requires forall i {:trigger rows[i]} :: 0 <= i < n ==> 0 <= rows[i] < n
    requires forall i, j {:trigger rows[i], rows[j]} :: 0 <= i < j < n ==> rows[i] != rows[j]
    ensures forall k :: 0 <= k < n ==> rows[order[k]] == k
  {
    var s: seq<nat> := seq(n, k requires 0 <= k < n => rows[order[k]]);
    forall i, j | 0 <= i < j < n
      ensures s[i] < s[j]
    {
      assert order[i] != order[j];
      assert rows[order[i]] <= rows[order[j]];
    }
    forall k | 0 <= k < n
      ensures rows[order[k]] == k
    {
      AtLeastIndex(s, k);
      AtMostIndex(s, n, k);
      assert s[k] == rows[order[k]];
    }
  }

  /** The slots in use, in slot order. */
  ghost predicate TakenSlots(slots: seq<Slot>, from: seq<nat>, upTo: nat)
  {
    && (forall i {:trigger from[i]} :: 0 <= i < |from| ==> from[i] < upTo <= |slots| && slots[from[i]].Taken?)
    && (forall i, j {:trigger from[i], from[j]} :: 0 <= i < j < |from| ==> from[i] != from[j])
    && (forall k {:trigger slots[k]} :: 0 <= k < upTo <= |slots| && slots[k].Taken? ==> k in from)
  }

  lemma {:induction false} DistinctSize(ids: seq<Buffer>, m: set<Buffer>)
    requires forall i, j {:trigger ids[i], ids[j]} :: 0 <= i < j < |ids| ==> ids[i] != ids[j]
    requires forall id :: id in m <==> id in ids
    ensures |m| == |ids|
  {
    if ids == [] {
      assert m == {};
    } else {
      var init, last := ids[..|ids| - 1], ids[|ids| - 1];
      forall id
        ensures id in m - {last} <==> id in init
      {
        if id in init {
          var i :| 0 <= i < |init| && init[i] == id;
          assert ids[i] == id && ids[i] != ids[|ids| - 1];
        }
        if id in m - {last} {
          var i :| 0 <= i < |ids| && ids[i] == id;
          assert init[i] == id;
        }
      }
      DistinctSize(init, m - {last});
      assert last in ids;
    }
  }

  /** As many slots in use as entities. */
  lemma TakenCount(L: SegmentLayout, H: HashFn, b: Buffer, from: seq<nat>)
    requires WellFormed(L, H, b) && TakenSlots(SlotsOf(L, b), from, L.slotCapacity)
    ensures |RowMap(L, H, b)| == |from|
  {
    hide Decode, StoredId, SlotAt, TableOk, Bits.Times, Probe, Entries, IdsDistinct;
    MapWellDefined(L, H, b);
    var slots := SlotsOf(L, b);
    var ids := seq(|from|, i requires 0 <= i < |from| => assert slots[from[i]].Taken?; slots[from[i]].id);
    forall i, j | 0 <= i < j < |ids|
      ensures ids[i] != ids[j]
    {
      assert from[i] != from[j];
      TakenIdsDiffer(slots, from[i], from[j]);
    }
    forall id
      ensures id in RowMap(L, H, b).Keys <==> id in ids
    {
      if id in RowMap(L, H, b) {
        var k := SlotOfEntry(slots, id);
        assert k in from;
        var i :| 0 <= i < |from| && from[i] == k;
        assert ids[i] == id;
      }
      if id in ids {
        var i :| 0 <= i < |ids| && ids[i] == id;
        EntryOf(slots, from[i]);
      }
    }
    DistinctSize(ids, RowMap(L, H, b).Keys);
  }

  lemma TakenRows(L: SegmentLayout, H: HashFn, b: Buffer, from: seq<nat>, rows: seq<int>)
    requires WellFormed(L, H, b) && TakenSlots(SlotsOf(L, b), from, L.slotCapacity) && |rows| == |from|
    requires forall i {:trigger rows[i]} :: 0 <= i < |from| ==>
               from[i] < L.slotCapacity && rows[i] == SlotsOf(L, b)[from[i]].row
    ensures forall i {:trigger rows[i]} :: 0 <= i < |rows| ==> 0 <= rows[i] < NextRow(b)
    ensures forall i, j {:trigger rows[i], rows[j]} :: 0 <= i < j < |rows| ==> rows[i] != rows[j]
  {
    hide Decode, StoredId, SlotAt, Probe, Bits.Times;
    var T := TableOf(L, b);
    forall i | 0 <= i < |rows|
      ensures 0 <= rows[i] < NextRow(b)
    {
      assert SlotOk(T.slots[from[i]], T, H, L.maxIdBytes);
    }
    forall i, j | 0 <= i < j < |rows|
      ensures rows[i] != rows[j]
    {
      assert from[i] != from[j];
      assert T.slots[from[i]].Taken? && T.slots[from[j]].Taken?;
    }
  }

  /** `ids` are the taken slots' ids, in the order of their rows. */
  ghost predicate IdsInOrder(slots: seq<Slot>, from: seq<nat>, order: seq<nat>, ids: seq<Buffer>)
  {
    && |ids| == |order| == |from| && (forall i {:trigger from[i]} :: 0 <= i < |from| ==> from[i] < |slots|)
    && forall k {:trigger ids[k]} :: 0 <= k < |ids| ==>
         order[k] < |from| && slots[from[order[k]]].Taken? && ids[k] == slots[from[order[k]]].id
  }

  lemma IdAtRow(slots: seq<Slot>, from: seq<nat>, rows: seq<int>, order: seq<nat>, ids: seq<Buffer>, k: nat)
    requires IdsInOrder(slots, from, order, ids) && IdsDistinct(slots) && |rows| == |from| && k < |ids|
    requires forall i {:trigger rows[i]} :: 0 <= i < |rows| ==>
               from[i] < |slots| && slots[from[i]].Taken? && rows[i] == slots[from[i]].row
    requires order[k] < |rows| && rows[order[k]] == k
    ensures ids[k] in Entries(slots) && Entries(slots)[ids[k]] == k
  {
    hide Entries, IdsDistinct;
    assert rows[order[k]] == slots[from[order[k]]].row && ids[k] == slots[from[order[k]]].id;
    EntryOf(slots, from[order[k]]);
  }

  lemma IdListed(slots: seq<Slot>, from: seq<nat>, order: seq<nat>, ids: seq<Buffer>, id: Buffer)
    requires IdsInOrder(slots, from, order, ids) && IdsDistinct(slots) && TakenSlots(slots, from, |slots|)
    requires IsPermutation(order, |from|) && id in Entries(slots)
    ensures id in ids
  {
    hide Entries, IdsDistinct, IsPermutation;
    var k := SlotOfEntry(slots, id);
    assert k in from;
    var i :| 0 <= i < |from| && from[i] == k;
    hide TakenSlots;
    var j := PlaceOf(order, |from|, i);
    assert ids[j] == id;
  }

  lemma ListedIds(L: SegmentLayout, H: HashFn, b: Buffer, from: seq<nat>, rows: seq<int>, order: seq<nat>,
                  ids: seq<Buffer>)
    requires WellFormed(L, H, b) && TakenSlots(SlotsOf(L, b), from, L.slotCapacity) && |rows| == |from| == NextRow(b)
    requires forall i {:trigger rows[i]} :: 0 <= i < |from| ==>
               from[i] < L.slotCapacity && rows[i] == SlotsOf(L, b)[from[i]].row
    requires IsPermutation(order, |rows|) && SortedBy(rows, order) && |ids| == |rows|
    requires forall k {:trigger ids[k]} :: 0 <= k < |ids| ==>
               (order[k] < |from| && from[order[k]] < L.slotCapacity
                && SlotsOf(L, b)[from[order[k]]].Taken? && ids[k] == SlotsOf(L, b)[from[order[k]]].id)
    ensures RowListing(L, H, b, ids)
  {
    MapWellDefined(L, H, b);
    TakenRows(L, H, b, from, rows);
    SortedIndices(rows, order, |rows|);
    var slots := SlotsOf(L, b);
    assert IdsDistinct(slots) && RowMap(L, H, b) == Entries(slots) && |slots| == L.slotCapacity by {
      hide Decode, StoredId, SlotAt, Bits.Times, Probe, Entries, IdsDistinct, IsPermutation, SortedBy, TakenSlots;
    }
    assert forall i {:trigger rows[i]} :: 0 <= i < |rows| ==> slots[from[i]].Taken? && rows[i] == slots[from[i]].row;
    hide WellFormed, SlotsOf, RowMap, Entries, IdsDistinct, SortedBy, TakenSlots;
    assert IdsInOrder(slots, from, order, ids);
    hide IdsInOrder, IsPermutation;
    forall k | 0 <= k < |ids|
      ensures ids[k] in Entries(slots) && Entries(slots)[ids[k]] == k
    {
      IdAtRow(slots, from, rows, order, ids, k);
    }
    forall id | id in Entries(slots)
      ensures id in ids
    {
      IdListed(slots, from, order, ids, id);
    }
  }

  /** The slot-table half of `_build_translation_table`: mask, check, argsort, read. It
      refuses exactly the segments whose row cursor is not their number of entities. */
  method CollectIds(buf: array<byte>, L: SegmentLayout, H: HashFn) returns (r: Collected)
    requires WellFormed(L, H, buf[..])
    ensures r.Ids? <==> |RowMap(L, H, buf[..])| == NextRow(buf[..])
    ensures r.Ids? ==> RowListing(L, H, buf[..], r.ids)
  {
    hide Decode, StoredId, SlotAt, TableOk, Bits.Times, Probe, Entries, IdsDistinct, Argsort, RowMap, RowListing;
    hide TakenSlots;
    var b := buf[..];
    var n := NextRow(b);
    if n == 0 {
      EmptyListing(L, H, b);
      return Ids([]);
    }
    ghost var slots := SlotsOf(L, b);
    ghost var from: seq<nat> := [];
    var idOffsets: seq<nat>, rows: seq<int> := [], [];
    NoSlots(slots);
    for idx := 0 to L.slotCapacity
      invariant |rows| == |idOffsets| == |from| && TakenSlots(slots, from, idx)
      invariant forall i {:trigger from[i]} {:trigger rows[i]} :: 0 <= i < |from| ==>
                  from[i] < idx && slots[from[i]].Taken? && rows[i] == slots[from[i]].row
                    && idOffsets[i] == slots[from[i]].idOff
    {
      SlotInBounds(L, idx);
      var slot := SlotAt(L, b, idx);
      assert slot == slots[idx];
      NextSlot(slots, from, idx);
      if slot.Taken? {
        idOffsets := idOffsets + [slot.idOff];
        rows := rows + [slot.row];
        from := from + [idx];
      }
    }
    TakenCount(L, H, b, from);
    if |rows| != n {
      return Inconsistent;
    }
    var order := Argsort(rows, n);
    ArgsortOk(rows, n);
    var ids: seq<Buffer> := [];
    for k := 0 to n
      invariant |ids| == k
      invariant forall j {:trigger ids[j]} :: 0 <= j < k ==> ids[j] == slots[from[order[j]]].id
    {
      SlotStores(L, b, from[order[k]]);
      ids := ids + [StoredId(L, b, idOffsets[order[k]]).value];
    }
    ListedIds(L, H, b, from, rows, order, ids);
    r := Ids(ids);
  }

  lemma NoSlots(slots: seq<Slot>)
    ensures TakenSlots(slots, [], 0)
  {
  }

  lemma NextSlot(slots: seq<Slot>, from: seq<nat>, idx: nat)
    requires idx < |slots| && TakenSlots(slots, from, idx)
    ensures TakenSlots(slots, if slots[idx].Taken? then from + [idx] else from, idx + 1)
  {
    if slots[idx].Taken? {
      var more := from + [idx];
      forall k | 0 <= k < idx + 1 && slots[k].Taken?
        ensures k in more
      {
        assert k < idx ==> k in from;
        assert more[|from|] == idx;
      }
    }
  }

  lemma SlotStores(L: SegmentLayout, b: Buffer, i: nat)
    requires Sized(L, b) && i < L.slotCapacity && SlotsOf(L, b)[i].Taken?
    ensures StoredId(L, b, SlotsOf(L, b)[i].idOff) == Some(SlotsOf(L, b)[i].id)
  {
    hide Decode, StoredId;
    SlotInBounds(L, i);
    assert SlotsOf(L, b)[i] == SlotAt(L, b, i);
  }

  lemma EmptyListing(L: SegmentLayout, H: HashFn, b: Buffer)
    requires WellFormed(L, H, b) && NextRow(b) == 0
    ensures |RowMap(L, H, b)| == 0 && RowListing(L, H, b, [])
  {
    MapWellDefined(L, H, b);
    assert RowMap(L, H, b) == map[];
  }

  // ---------------------------------------------------------------------------
  // Columns
  // ---------------------------------------------------------------------------

  ghost function StoredRow(L: SegmentLayout, b: Buffer, r: nat): (row: Buffer)
    requires Sized(L, b) && r < L.capacity
    ensures |row| == L.rowSize
  {
    RowInBounds(L, r);
    RowBytes(L, b, r)
  }

  /** Field `f`'s new cells for the first `upTo` stored rows. */
  ghost predicate ColumnOf(wide: FloatWidening, o: FeatureSchema, n: FeatureSchema, L: SegmentLayout, b: Buffer, f: nat,
                           col: seq<Buffer>, upTo: nat)
    requires WidensFloats(wide) && Compatible(o, n) && Sized(L, b) && L.rowSize == RowSize(o.fields)
    requires upTo <= L.capacity && f < |n.fields|
  {
    |col| == upTo && forall r {:trigger col[r]} :: 0 <= r < upTo ==>
      col[r] == TranslatedCell(wide, o, n, StoredRow(L, b, r), f)
  }

  ghost predicate ColumnsOf(wide: FloatWidening, o: FeatureSchema, n: FeatureSchema, L: SegmentLayout, b: Buffer,
                            cols: seq<seq<Buffer>>, upTo: nat)
    requires WidensFloats(wide) && Compatible(o, n) && Sized(L, b) && L.rowSize == RowSize(o.fields)
    requires |b| >= DATA_REGION_OFFSET && NextRow(b) <= L.capacity
  {
    |cols| == upTo <= |n.fields| && forall f {:trigger cols[f]} :: 0 <= f < upTo ==>
      ColumnOf(wide, o, n, L, b, f, cols[f], NextRow(b))
  }

  /** A field's bytes, sliced straight out of the segment. */
  lemma RawField(o: Fields, L: SegmentLayout, b: Buffer, r: nat, i: nat)
    requires Sized(L, b) && L.rowSize == RowSize(o) && r < L.capacity && i < |o|
    ensures var at := RowOff(L, r) + Offset(o, 0, i);
            at + ByteCount(o[i]) <= |b| && b[at..at + ByteCount(o[i])] == FieldSlice(o, StoredRow(L, b, r), i)
  {
    hide Times, Offset, ByteCount, RowSize;
    RowInBounds(L, r);
    ExtentInRow(o, _ => 0, i);
    assert StoredRow(L, b, r) == b[RowOff(L, r)..RowOff(L, r) + L.rowSize];
    SliceOfSlice(b, RowOff(L, r), L.rowSize, Offset(o, 0, i), ByteCount(o[i]));
  }

  lemma SliceOfSlice(b: Buffer, off: nat, size: nat, o: nat, c: nat)
    requires off + size <= |b| && o + c <= size
    ensures b[off + o..off + o + c] == b[off..off + size][o..o + c]
  {
    var deep := b[off..off + size][o..o + c];
    forall k | 0 <= k < c
      ensures deep[k] == b[off + o + k]
    {
      assert b[off..off + size][o + k] == b[off + o + k];
    }
  }

  /** The values half of `_build_translation_table`: one column per new field. */
  method TranslateColumns(buf: array<byte>, L: SegmentLayout, o: FeatureSchema, n: FeatureSchema, wide: FloatWidening,
                          offsets: map<Buffer, nat>)
    returns (cols: seq<seq<Buffer>>)
    requires WidensFloats(wide) && Compatible(o, n) && Sized(L, buf[..]) && L.rowSize == RowSize(o.fields)
    requires buf.Length >= DATA_REGION_OFFSET && NextRow(buf[..]) <= L.capacity
    requires forall i {:trigger o.fields[i]} :: 0 <= i < |o.fields| ==>
               o.fields[i].name in offsets && offsets[o.fields[i].name] == Offset(o.fields, 0, i)
    ensures ColumnsOf(wide, o, n, L, buf[..], cols, |n.fields|)
  {
    hide Decode, Times, Offset, ElementCount, ItemSize, RowSize, Compatible, WidensFloats, Upgradable, WidenField, Has;
    hide FieldNamed, StoredRow, TranslatedCell, Sized;
    var b := buf[..];
    var rowCount := NextRow(b);
    var oldByName := ByName(o.fields);
    cols := [];
    for f := 0 to |n.fields|
      invariant ColumnsOf(wide, o, n, L, b, cols, f)
    {
      var now := n.fields[f];
      var col: seq<Buffer> := [];
      for r := 0 to rowCount
        invariant ColumnOf(wide, o, n, L, b, f, col, r)
      {
        CellFromSegment(wide, o, n, L, b, r, f);
        var cell := Zeros(ByteCount(now));
        if now.name in oldByName {
          var was := oldByName[now.name];
          var at := RowOff(L, r) + offsets[was.name];
          cell := WidenField(wide, was.dtype, now.dtype, b[at..at + ByteCount(was)], ElementCount(now.shape));
        }
        col := col + [cell];
      }
      cols := cols + [col];
    }
  }

  lemma CellFromSegment(wide: FloatWidening, o: FeatureSchema, n: FeatureSchema, L: SegmentLayout, b: Buffer, r: nat,
                        f: nat)
    requires WidensFloats(wide) && Compatible(o, n) && Sized(L, b) && L.rowSize == RowSize(o.fields)
    requires r < L.capacity && f < |n.fields|
    ensures var now := n.fields[f];
            if Has(o.fields, now.name) then
              var i, was := Position(o.fields, now.name), FieldNamed(o.fields, now.name);
              var at := RowOff(L, r) + Offset(o.fields, 0, i);
              && 0 <= i < |o.fields| && o.fields[i] == was && was.name == now.name
              && at + ByteCount(was) <= |b|
              && Widens(was.dtype, now.dtype) && Times(ElementCount(now.shape), ItemSize(was.dtype)) <= ByteCount(was)
              && TranslatedCell(wide, o, n, StoredRow(L, b, r), f)
                 == WidenField(wide, was.dtype, now.dtype, b[at..at + ByteCount(was)], ElementCount(now.shape))
            else TranslatedCell(wide, o, n, StoredRow(L, b, r), f) == Zeros(ByteCount(now))
  {
    hide Offset, RowSize, StoredRow, Times, ElementCount, ItemSize, WidenField, FieldSlice, WidensFloats;
    var now := n.fields[f];
    if Has(o.fields, now.name) {
      KeptFacts(o, n, f);
      RawField(o.fields, L, b, r, Position(o.fields, now.name));
    }
  }

  // ---------------------------------------------------------------------------
  // The copy
  // ---------------------------------------------------------------------------

  /** Distinct acceptable ids within capacity all end up in the map. */
  lemma {:induction false} MapRunKeepsAll(L: SegmentLayout, ops: seq<Op>)
    requires |ops| <= L.capacity && forall i {:trigger ops[i]} :: 0 <= i < |ops| ==> Acceptable(L, ops[i])
    requires forall i, j {:trigger ops[i], ops[j]} :: 0 <= i < j < |ops| ==> ops[i].id != ops[j].id
    ensures |MapRun(L, map[], ops)| == |ops|
    ensures forall i {:trigger ops[i]} :: 0 <= i < |ops| ==>
              ops[i].id in MapRun(L, map[], ops) && MapRun(L, map[], ops)[ops[i].id] == ops[i].row
    ensures forall id :: id in MapRun(L, map[], ops) ==> exists i :: 0 <= i < |ops| && ops[i].id == id
  {
    if ops != [] {
      var init, op := ops[..|ops| - 1], ops[|ops| - 1];
      assert forall i :: 0 <= i < |init| ==> init[i] == ops[i];
      MapRunKeepsAll(L, init);
      var was := MapRun(L, map[], init);
      assert op.id !in was;
      UpdateSize(was, op.id, op.row);
      forall i | 0 <= i < |ops|
        ensures ops[i].id in MapRun(L, map[], ops) && MapRun(L, map[], ops)[ops[i].id] == ops[i].row
      {
        if i < |init| {
          assert init[i] == ops[i] && ops[i].id != ops[|ops| - 1].id;
        }
      }
    }
  }

  datatype CopyResult = Copied(n: nat) | SourceInconsistent | InsertFailed | Miscounted

  lemma RowsOfSegment(L: SegmentLayout, H: HashFn, b: Buffer, o: FeatureSchema)
    requires WellFormed(L, H, b) && L.rowSize == RowSize(o.fields)
    ensures RowsSized(o, StoreMap(L, H, b)) && StoreMap(L, H, b).Keys == RowMap(L, H, b).Keys
    ensures |StoreMap(L, H, b)| == |RowMap(L, H, b)|
  {
    hide Decode, TableOk, Entries, RowSize, Times;
    MapWellDefined(L, H, b);
    assert |StoreMap(L, H, b)| == |StoreMap(L, H, b).Keys| && |RowMap(L, H, b)| == |RowMap(L, H, b).Keys|;
  }

  lemma ListedRow(L: SegmentLayout, H: HashFn, b: Buffer, ids: seq<Buffer>, k: nat)
    requires WellFormed(L, H, b) && RowListing(L, H, b, ids) && k < |ids|
    ensures k < L.capacity && ids[k] in StoreMap(L, H, b) && StoreMap(L, H, b)[ids[k]] == StoredRow(L, b, k)
    ensures 0 < |ids[k]| <= L.maxIdBytes
  {
    hide Decode, TableOk, Entries, Times;
    MapWellDefined(L, H, b);
    StoredIdBounds(L, H, b, ids[k]);
  }

  lemma ListingDistinct(L: SegmentLayout, H: HashFn, b: Buffer, ids: seq<Buffer>)
    requires WellFormed(L, H, b) && RowListing(L, H, b, ids)
    ensures DistinctFilled(ids, |ids|)
  {
    hide WellFormed, RowMap;
    forall k | 0 <= k < |ids|
      ensures ids[k] != []
    {
      ListedRow(L, H, b, ids, k);
    }
    forall i, j | 0 <= i < j < |ids|
      ensures ids[i] != ids[j]
    {
      assert RowMap(L, H, b)[ids[i]] == i && RowMap(L, H, b)[ids[j]] == j;
    }
  }

  ghost predicate CopySetup(o: FeatureSchema, oldL: SegmentLayout, src: Buffer, n: FeatureSchema, newL: SegmentLayout,
                            H: HashFn, wide: FloatWidening)
  {
    && WidensFloats(wide) && Compatible(o, n)
    && WellFormed(oldL, H, src) && oldL.rowSize == RowSize(o.fields)
    && newL.rowSize == RowSize(n.fields) && newL.maxIdBytes == oldL.maxIdBytes && NextRow(src) < newL.capacity
  }

  lemma ColumnSizesOf(o: FeatureSchema, oldL: SegmentLayout, src: Buffer, n: FeatureSchema, newL: SegmentLayout,
                      H: HashFn, wide: FloatWidening, cols: seq<seq<Buffer>>)
    requires CopySetup(o, oldL, src, n, newL, H, wide) && NextRow(src) <= oldL.capacity
    requires ColumnsOf(wide, o, n, oldL, src, cols, |n.fields|)
    ensures ColumnSizes(n.fields, NextRow(src), cols)
  {
    hide RowSize, TableOk, Upgradable, WidensFloats, ByteCount, StoredRow, TranslatedCell;
    forall f | 0 <= f < |n.fields|
      ensures |cols[f]| == NextRow(src) && SizedCells(cols[f], ByteCount(n.fields[f]))
    {
      assert ColumnOf(wide, o, n, oldL, src, f, cols[f], NextRow(src));
    }
  }

  /** Row `k` of the table is the translation of stored row `k`. */
  lemma TableRow(o: FeatureSchema, oldL: SegmentLayout, src: Buffer, n: FeatureSchema, newL: SegmentLayout, H: HashFn,
                 wide: FloatWidening, ids: seq<Buffer>, cols: seq<seq<Buffer>>, k: nat)
    requires CopySetup(o, oldL, src, n, newL, H, wide) && NextRow(src) <= oldL.capacity
    requires ColumnsOf(wide, o, n, oldL, src, cols, |n.fields|) && |ids| == NextRow(src) && k < |ids|
    requires ColumnSizes(n.fields, |ids|, cols)
    ensures RowOps(n.fields, ids, cols)[k] == Op(ids[k], TranslateRow(wide, o, n, StoredRow(oldL, src, k)))
  {
    hide RowSize, WellFormed, Compatible, WidensFloats, ByteCount, StoredRow, TranslatedCell, ScatteredRow;
    hide TranslatedCells;
    CopyFacts(o, oldL, src, n, newL, H, wide);
    CellsSized(n.fields, |ids|, cols, k);
    var row := StoredRow(oldL, src, k);
    var one := TranslatedCells(wide, o, n, row);
    forall f | 0 <= f < |n.fields|
      ensures cols[f][k] == one[f][0]
    {
      assert ColumnOf(wide, o, n, oldL, src, f, cols[f], NextRow(src));
    }
    ScatteredSame(n.fields, cols, k, one, 0, |n.fields|);
  }

  /** `ids` are the entities of `m`, and `r` holds each with its translated row. */
  ghost predicate HoldsTranslations(wide: FloatWidening, o: FeatureSchema, n: FeatureSchema, m: map<Buffer, Buffer>,
                                    r: map<Buffer, Buffer>, id: Buffer)
    requires WidensFloats(wide) && Compatible(o, n) && RowsSized(o, m)
  {
    id in m && id in r && r[id] == TranslateRow(wide, o, n, m[id])
  }

  lemma TranslatedSame(wide: FloatWidening, o: FeatureSchema, n: FeatureSchema, m: map<Buffer, Buffer>,
                       r: map<Buffer, Buffer>, ids: seq<Buffer>)
    requires WidensFloats(wide) && Compatible(o, n) && RowsSized(o, m)
    requires forall k {:trigger ids[k]} :: 0 <= k < |ids| ==> HoldsTranslations(wide, o, n, m, r, ids[k])
    requires forall id {:trigger id in m} :: id in m ==> id in ids
    requires forall id {:trigger id in r} :: id in r ==> id in ids
    ensures r == TranslatedMap(wide, o, n, m)
  {
    hide TranslateRow, Compatible, WidensFloats, RowsSized;
    forall id | id in ids
      ensures HoldsTranslations(wide, o, n, m, r, id)
    {
      var k :| 0 <= k < |ids| && ids[k] == id;
    }
  }

  /** Operation `k` of the fold inserts entity `k` with its translated row. */
  lemma CopiedOp(o: FeatureSchema, oldL: SegmentLayout, src: Buffer, n: FeatureSchema, newL: SegmentLayout, H: HashFn,
                 wide: FloatWidening, ids: seq<Buffer>, cols: seq<seq<Buffer>>, k: nat)
    requires CopySetup(o, oldL, src, n, newL, H, wide) && NextRow(src) <= oldL.capacity
    requires ColumnsOf(wide, o, n, oldL, src, cols, |n.fields|) && ColumnSizes(n.fields, |ids|, cols)
    requires RowListing(oldL, H, src, ids) && RowsSized(o, StoreMap(oldL, H, src)) && k < |ids|
    ensures var op := RowOps(n.fields, ids, cols)[k];
            && Acceptable(newL, op) && op.id == ids[k] && ids[k] in StoreMap(oldL, H, src)
            && op.row == TranslateRow(wide, o, n, StoreMap(oldL, H, src)[ids[k]])
  {
    hide RowSize, WellFormed, Compatible, WidensFloats, StoredRow, TranslateRow, StoreMap, RowMap, ColumnsOf;
    hide ColumnSizes, RowOps, NextRow;
    ListedRow(oldL, H, src, ids, k);
    TableRow(o, oldL, src, n, newL, H, wide, ids, cols, k);
  }

  lemma ListingCovers(L: SegmentLayout, H: HashFn, b: Buffer, ids: seq<Buffer>)
    requires WellFormed(L, H, b) && RowListing(L, H, b, ids) && StoreMap(L, H, b).Keys == RowMap(L, H, b).Keys
    ensures forall id {:trigger id in StoreMap(L, H, b)} :: id in StoreMap(L, H, b) ==> id in ids
    ensures |ids| == NextRow(b)
  {
    hide WellFormed, StoreMap, RowMap;
    forall id | id in StoreMap(L, H, b)
      ensures id in ids
    {
      assert id in RowMap(L, H, b);
    }
  }

  lemma OpsDistinct(ids: seq<Buffer>, ops: seq<Op>)
    requires |ops| == |ids| && DistinctFilled(ids, |ids|)
    requires forall k {:trigger ops[k]} :: 0 <= k < |ops| ==> ops[k].id == ids[k]
    ensures forall i, j {:trigger ops[i], ops[j]} :: 0 <= i < j < |ops| ==> ops[i].id != ops[j].id
  {
  }

  /** The fold over the translated table holds exactly the translated entities. */
  lemma CopiedMap(o: FeatureSchema, oldL: SegmentLayout, src: Buffer, n: FeatureSchema, newL: SegmentLayout, H: HashFn,
                  wide: FloatWidening, ids: seq<Buffer>, cols: seq<seq<Buffer>>)
    requires CopySetup(o, oldL, src, n, newL, H, wide) && NextRow(src) <= oldL.capacity
    requires ColumnsOf(wide, o, n, oldL, src, cols, |n.fields|) && ColumnSizes(n.fields, |ids|, cols)
    requires RowListing(oldL, H, src, ids)
    ensures RowsSized(o, StoreMap(oldL, H, src))
    ensures MapRun(newL, map[], RowOps(n.fields, ids, cols)) == TranslatedMap(wide, o, n, StoreMap(oldL, H, src))
    ensures |MapRun(newL, map[], RowOps(n.fields, ids, cols))| == |ids|
  {
    hide *;
    CopyApplies(o, oldL, src, n, newL, H, wide);
    RowsOfSegment(oldL, H, src, o);
    ListingCovers(oldL, H, src, ids);
    ListingDistinct(oldL, H, src, ids);
    var ops, m := RowOps(n.fields, ids, cols), StoreMap(oldL, H, src);
    forall k | 0 <= k < |ops|
      ensures Acceptable(newL, ops[k]) && ops[k].id == ids[k]
      ensures ids[k] in m && |m[ids[k]]| == RowSize(o.fields) && ops[k].row == TranslateRow(wide, o, n, m[ids[k]])
    {
      CopiedOp(o, oldL, src, n, newL, H, wide, ids, cols, k);
      SizedRow(o, m, ids[k]);
    }
    OpsDistinct(ids, ops);
    MapRunKeepsAll(newL, ops);
    var r := MapRun(newL, map[], ops);
    forall k | 0 <= k < |ids|
      ensures HoldsTranslations(wide, o, n, m, r, ids[k])
    {
      Translation(wide, o, n, m, r, ops[k]);
    }
    forall id | id in r
      ensures id in ids
    {
      var k :| 0 <= k < |ops| && ops[k].id == id;
      assert ids[k] == id;
    }
    TranslatedSame(wide, o, n, m, r, ids);
  }

  lemma SizedRow(o: FeatureSchema, m: map<Buffer, Buffer>, id: Buffer)
    requires RowsSized(o, m) && id in m
    ensures |m[id]| == RowSize(o.fields)
  {
    hide RowSize;
  }

  lemma Translation(wide: FloatWidening, o: FeatureSchema, n: FeatureSchema, m: map<Buffer, Buffer>,
                    r: map<Buffer, Buffer>, op: Op)
    requires WidensFloats(wide) && Compatible(o, n) && RowsSized(o, m) && op.id in m && op.id in r
    requires op.row == TranslateRow(wide, o, n, m[op.id]) && r[op.id] == op.row
    ensures HoldsTranslations(wide, o, n, m, r, op.id)
  {
  }

  lemma CopyApplies(o: FeatureSchema, oldL: SegmentLayout, src: Buffer, n: FeatureSchema, newL: SegmentLayout,
                    H: HashFn, wide: FloatWidening)
    requires CopySetup(o, oldL, src, n, newL, H, wide) && NextRow(src) <= oldL.capacity
    ensures WellFormed(oldL, H, src) && oldL.rowSize == RowSize(o.fields) && WidensFloats(wide) && Compatible(o, n)
    ensures NextRow(src) <= newL.capacity
  {
    hide RowSize, WellFormed, Compatible, WidensFloats, NextRow;
  }

  /** The same ids, each with a row that has the same numbers in every field kept by name and
      zeros in every added one. */
  ghost predicate KeepsRows(o: FeatureSchema, old_: map<Buffer, Buffer>, n: FeatureSchema, new_: map<Buffer, Buffer>)
  {
    && old_.Keys == new_.Keys && RowsSized(o, old_) && RowsSized(n, new_)
    && forall id {:trigger old_[id]} :: id in old_ ==> KeepsRow(o.fields, old_[id], n.fields, new_[id])
  }

  lemma TranslatedMapKeeps(wide: FloatWidening, o: FeatureSchema, n: FeatureSchema, m: map<Buffer, Buffer>)
    requires WidensFloats(wide) && Compatible(o, n) && RowsSized(o, m)
    ensures KeepsRows(o, m, n, TranslatedMap(wide, o, n, m))
  {
    hide KeepsRow, TranslateRow, RowSize, Compatible, WidensFloats;
    forall id | id in m
      ensures KeepsRow(o.fields, m[id], n.fields, TranslateRow(wide, o, n, m[id]))
    {
      TranslateKeeps(wide, o, n, m[id]);
    }
  }

  /** Translate and bulk-insert. It succeeds exactly when the old row cursor counts the old
      entities; then the new segment holds the same ids, each with its translated row: the
      same numbers in every field kept by name, zeros in every added one. */
  method CopySegment(oldBuf: array<byte>, oldL: SegmentLayout, o: FeatureSchema, newBuf: array<byte>,
                     newL: SegmentLayout, n: FeatureSchema, H: HashFn, N: NameHash, wide: FloatWidening,
                     table: seq<Extent>)
    returns (r: CopyResult)
    requires CopySetup(o, oldL, oldBuf[..], n, newL, H, wide) && oldBuf != newBuf && Blank(newL, newBuf[..])
    requires ValidSchema(o.fields, N) && |table| == |o.fields|
    requires forall k :: 0 <= k < |o.fields| ==> table[k] == FieldExtent(o.fields, N, WireOrder(o.fields, N)[k])
    modifies newBuf
    ensures r.Copied? <==> |StoreMap(oldL, H, oldBuf[..])| == NextRow(oldBuf[..])
    ensures RowsSized(o, StoreMap(oldL, H, oldBuf[..]))
    ensures r.Copied? ==>
              && WellFormed(newL, H, newBuf[..])
              && StoreMap(newL, H, newBuf[..]) == TranslatedMap(wide, o, n, StoreMap(oldL, H, oldBuf[..]))
              && KeepsRows(o, StoreMap(oldL, H, oldBuf[..]), n, StoreMap(newL, H, newBuf[..]))
              && r.n == NextRow(newBuf[..]) == |StoreMap(newL, H, newBuf[..])|
    ensures !r.Copied? ==> r.SourceInconsistent? && newBuf[..] == old(newBuf[..])
  {
    hide *;
    ghost var was, blank := oldBuf[..], newBuf[..];
    CopyFacts(o, oldL, was, n, newL, H, wide);
    RowsOfSegment(oldL, H, was, o);
    BlankIsEmpty(newL, H, blank);
    var occupied := NextRow(oldBuf[..]);
    var offsets := RowByteOffsetsByName(o.fields, N, table);
    var cols := TranslateColumns(oldBuf, oldL, o, n, wide, offsets);
    var listed := CollectIds(oldBuf, oldL, H);
    if listed.Inconsistent? {
      return SourceInconsistent;
    }
    ListingSize(oldL, H, was, listed.ids);
    ColumnSizesOf(o, oldL, was, n, newL, H, wide, cols);
    CopiedMap(o, oldL, was, n, newL, H, wide, listed.ids, cols);
    ListingFits(oldL, H, was, listed.ids);
    BlankCursors(newL, blank);
    ListingDistinct(oldL, H, was, listed.ids);
    var inserted := InsertMany(newBuf, newL, n.fields, H, listed.ids, cols);
    FoldOverBlank(newL, H, blank, RowOps(n.fields, listed.ids, cols));
    NoOps(n.fields, newL, H, blank, listed.ids, cols);
    if !inserted.Rows? {
      return InsertFailed;
    }
    if inserted.n != occupied {
      return Miscounted;
    }
    TranslatedMapKeeps(wide, o, n, StoreMap(oldL, H, was));
    r := Copied(inserted.n);
  }

  lemma CopyFacts(o: FeatureSchema, oldL: SegmentLayout, src: Buffer, n: FeatureSchema, newL: SegmentLayout, H: HashFn,
                  wide: FloatWidening)
    requires CopySetup(o, oldL, src, n, newL, H, wide)
    ensures WidensFloats(wide) && Compatible(o, n) && WellFormed(oldL, H, src) && Sized(oldL, src)
    ensures oldL.rowSize == RowSize(o.fields) && newL.rowSize == RowSize(n.fields)
    ensures |src| >= DATA_REGION_OFFSET && NextRow(src) <= oldL.capacity && NextRow(src) < newL.capacity
    ensures oldL.maxIdBytes == newL.maxIdBytes
  {
    MapWellDefined(oldL, H, src);
  }

  lemma ListingSize(L: SegmentLayout, H: HashFn, b: Buffer, ids: seq<Buffer>)
    requires WellFormed(L, H, b) && RowListing(L, H, b, ids)
    ensures |ids| == NextRow(b)
  {
  }

  lemma ListingFits(L: SegmentLayout, H: HashFn, b: Buffer, ids: seq<Buffer>)
    requires WellFormed(L, H, b) && RowListing(L, H, b, ids)
    ensures forall i {:trigger ids[i]} :: 0 <= i < |ids| ==> |ids[i]| <= L.maxIdBytes
  {
    hide WellFormed, RowListing;
    forall i | 0 <= i < |ids|
      ensures |ids[i]| <= L.maxIdBytes
    {
      ListedRow(L, H, b, ids, i);
    }
  }

  lemma BlankCursors(L: SegmentLayout, b: Buffer)
    requires Blank(L, b)
    ensures Sized(L, b) && Fresh(L, b) && |b| >= DATA_REGION_OFFSET && NextRow(b) == 0 && PoolCursor(b) == 0
  {
  }

  lemma FoldOverBlank(L: SegmentLayout, H: HashFn, b: Buffer, ops: seq<Op>)
    requires Blank(L, b) && WellFormed(L, H, b)
    ensures WellFormed(L, H, SegmentRun(L, H, b, ops))
    ensures StoreMap(L, H, SegmentRun(L, H, b, ops)) == MapRun(L, map[], ops)
    ensures NextRow(SegmentRun(L, H, b, ops)) == |MapRun(L, map[], ops)|
  {
    hide WellFormed, Fresh, MapRun, StoreMap;
    RunRefinesMap(L, H, b, ops);
  }

  lemma NoOps(s: Fields, L: SegmentLayout, H: HashFn, b: Buffer, ids: seq<Buffer>, cols: seq<seq<Buffer>>)
    requires WellFormed(L, H, b) && ColumnSizes(s, |ids|, cols)
    ensures ids == [] ==> SegmentRun(L, H, b, RowOps(s, ids, cols)) == b
  {
    hide WellFormed;
  }

  // ---------------------------------------------------------------------------
  // After a writer crash
  // ---------------------------------------------------------------------------

  /** Rows claimed by the cursor and owned by no entity. */
  ghost function Gap(L: SegmentLayout, H: HashFn, b: Buffer): int
    requires WellFormed(L, H, b)
  {
    NextRow(b) - |StoreMap(L, H, b)|
  }

  lemma UpsertKeepsGap(L: SegmentLayout, H: HashFn, b: Buffer, id: Buffer, row: Buffer)
    requires WellFormed(L, H, b)
    ensures WellFormed(L, H, UpsertBytes(L, H, b, id, row))
    ensures Gap(L, H, UpsertBytes(L, H, b, id, row)) == Gap(L, H, b)
  {
    hide UpsertBytes, TableOk, TableOf, Decode;
    UpsertIsMapUpdate(L, H, b, id, row);
    MapWellDefined(L, H, b);
    assert id in RowMap(L, H, b) <==> id in StoreMap(L, H, b);
    UpdateSize(StoreMap(L, H, b), id, row);
  }

  lemma {:induction false} RunKeepsGap(L: SegmentLayout, H: HashFn, b: Buffer, ops: seq<Op>)
    requires WellFormed(L, H, b)
    ensures Gap(L, H, SegmentRun(L, H, b, ops)) == Gap(L, H, b)
  {
    hide UpsertBytes, WellFormed, Gap;
    if ops != [] {
      RunKeepsGap(L, H, b, ops[..|ops| - 1]);
      UpsertKeepsGap(L, H, SegmentRun(L, H, b, ops[..|ops| - 1]), ops[|ops| - 1].id, ops[|ops| - 1].row);
    }
  }

  /** A crash between claiming a row and publishing its entry leaves a segment whose copy is
      refused after every later run of inserts; any other crash point leaves it copyable. */
  lemma CrashBlocksUpgrade(L: SegmentLayout, H: HashFn, b: Buffer, e: nat, id: Buffer, row: Buffer, k: nat, j: nat,
                           ops: seq<Op>)
    requires CrashPoint(L, H, b, e, id, row, k, j) && |StoreMap(L, H, b)| == NextRow(b)
    ensures WellFormed(L, H, CrashedBytes(L, b, e, H(id), id, row, k, j))
    ensures var x := SegmentRun(L, H, CrashedBytes(L, b, e, H(id), id, row, k, j), ops);
            |StoreMap(L, H, x)| != NextRow(x) <==> 1 <= k && BeforePublication(k, j)
  {
    hide CrashedBytes, InsertWrites, InsertedBytes, TableOk, Decode, SegmentRun, WellFormed, StoreMap, RowMap;
    CrashedInsert(L, H, b, e, id, row, k, j);
    var x := CrashedBytes(L, b, e, H(id), id, row, k, j);
    RunKeepsGap(L, H, x, ops);
    NewIdNotStored(L, H, b, e, id, row);
    UpdateSize(StoreMap(L, H, b), id, row);
  }

  lemma NewIdNotStored(L: SegmentLayout, H: HashFn, b: Buffer, e: nat, id: Buffer, row: Buffer)
    requires CanInsert(L, H, b, e, id, row)
    ensures WellFormed(L, H, b) && id !in StoreMap(L, H, b)
  {
    hide Decode, Times;
    SearchIsMembership(TableOf(L, b), H, L.capacity, L.maxIdBytes, id);
    MapWellDefined(L, H, b);
  }
}
