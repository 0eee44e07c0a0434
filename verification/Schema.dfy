/** Feature schemas and their offset tables: where each field's bytes lie in a row, in
    declaration order and in the name-hash order used on the wire. */
module Schema {
  import opened Bits
  import opened Bytes
  import opened Layout
  import opened Sorting

  type NameHash = Buffer -> u64

  const HEADER_SIZE: nat := 16
  const MAX_ELEMENT_COUNT: nat := 0x100_0000
  const MAX_FIELD_BYTES: nat := 0x1000_0000

  datatype DType = Float32 | Float64 | Int32 | Int64 | UInt8

  datatype Field = Field(name: Buffer, dtype: DType, shape: seq<nat>)

  type Fields = seq<Field>

  /** One row of an offset table. */
  datatype Extent = Extent(nameHash: u64, byteOffset: nat, dtype: DType, elementCount: nat, byteCount: nat)

  function ItemSize(d: DType): (n: nat)
    ensures n > 0
  {
    match d
    case Float32 => 4
    case Float64 => 8
    case Int32 => 4
    case Int64 => 8
    case UInt8 => 1
  }

  function ElementCount(shape: seq<nat>): nat
  {
    if shape == [] then 1 else ElementCount(shape[..|shape| - 1]) * shape[|shape| - 1]
  }

  /** `t` is an index tuple into an array of this shape. */
  predicate IsIndex(shape: seq<nat>, t: seq<nat>)
  {
    |t| == |shape| && forall i :: 0 <= i < |t| ==> t[i] < shape[i]
  }

  /** Each of `rest` followed by `x`. */
  function EndingIn(rest: seq<seq<nat>>, x: nat): (r: seq<seq<nat>>)
    ensures |r| == |rest|
  {
    seq(|rest|, i requires 0 <= i < |rest| => rest[i] + [x])
  }

  function EndingBelow(rest: seq<seq<nat>>, m: nat): seq<seq<nat>>
  {
    if m == 0 then [] else EndingBelow(rest, m - 1) + EndingIn(rest, m - 1)
  }

  ghost predicate Lists(indices: seq<seq<nat>>, shape: seq<nat>)
  {
    && (forall i, j :: 0 <= i < j < |indices| ==> indices[i] != indices[j])
    && (forall t :: t in indices <==> IsIndex(shape, t))
  }

  lemma EndsWith(r: seq<nat>, x: nat, s: seq<nat>, y: nat)
    ensures r + [x] == s + [y] <==> r == s && x == y
  {
    assert (r + [x])[..|r|] == r && (s + [y])[..|s|] == s;
    assert (r + [x])[|r|] == x && (s + [y])[|s|] == y;
  }

  lemma {:induction false} EndingLists(rest: seq<seq<nat>>, init: seq<nat>, m: nat)
    requires Lists(rest, init)
    ensures |EndingBelow(rest, m)| == |rest| * m && Lists(EndingBelow(rest, m), init + [m])
  {
    hide IsIndex;
    if m == 0 {
      forall t
        ensures !IsIndex(init + [0], t)
      {
        NoIndex(init, t);
      }
    } else {
      var before, last := EndingBelow(rest, m - 1), EndingIn(rest, m - 1);
      EndingLists(rest, init, m - 1);
      assert |rest| * m == |rest| * (m - 1) + |rest|;
      forall t
        ensures t in before + last <==> IsIndex(init + [m], t)
      {
        IndexEnding(rest, init, m, t);
        assert t in before + last <==> t in before || t in last;
      }
      forall i, j | 0 <= i < j < |before + last|
        ensures (before + last)[i] != (before + last)[j]
      {
        EndingApart(rest, init, m, i, j);
      }
    }
  }

  lemma NoIndex(init: seq<nat>, t: seq<nat>)
    ensures !IsIndex(init + [0], t)
  {
    assert (init + [0])[|init|] == 0;
  }

  /** An index tuple below `m` in its last place is one below `m - 1`, or ends in `m - 1`. */
  lemma IndexEnding(rest: seq<seq<nat>>, init: seq<nat>, m: nat, t: seq<nat>)
    requires m > 0 && Lists(rest, init)
    ensures IsIndex(init + [m], t) <==> IsIndex(init + [m - 1], t) || t in EndingIn(rest, m - 1)
  {
    var n := |init|;
    var last := EndingIn(rest, m - 1);
    assert forall i :: 0 <= i < n ==> (init + [m])[i] == init[i] && (init + [m - 1])[i] == init[i];
    if t in last {
      var i :| 0 <= i < |last| && last[i] == t;
      assert rest[i] in rest && t == rest[i] + [m - 1];
    }
    if IsIndex(init + [m], t) && !IsIndex(init + [m - 1], t) {
      var u := t[..n];
      assert t == u + [m - 1] && u in rest by {
        assert IsIndex(init, u);
      }
      var i :| 0 <= i < |rest| && rest[i] == u;
      assert last[i] == t;
    }
  }

  lemma LastBelow(init: seq<nat>, x: nat, t: seq<nat>, q: seq<nat>)
    requires IsIndex(init + [x], t) && IsIndex(init, q)
    ensures t != q + [x]
  {
    assert t[|init|] < (init + [x])[|init|];
  }

  lemma EndingApart(rest: seq<seq<nat>>, init: seq<nat>, m: nat, i: nat, j: nat)
    requires m > 0 && Lists(rest, init) && Lists(EndingBelow(rest, m - 1), init + [m - 1])
    requires i < j < |EndingBelow(rest, m - 1)| + |rest|
    ensures (EndingBelow(rest, m - 1) + EndingIn(rest, m - 1))[i] != (EndingBelow(rest, m - 1) +
              EndingIn(rest, m - 1))[j]
  {
    hide EndingBelow;
    var before, last := EndingBelow(rest, m - 1), EndingIn(rest, m - 1);
    if j >= |before| {
      var q := rest[j - |before|];
      assert (before + last)[j] == q + [m - 1];
      if i < |before| {
        assert q in rest;
        assert before[i] in before;
        LastBelow(init, m - 1, before[i], q);
      } else {
        EndsWith(rest[i - |before|], m - 1, q, m - 1);
      }
    }
  }

  /** The element count is the number of index tuples: they can be listed, each once. */
  lemma {:induction false} ElementCountCounts(shape: seq<nat>) returns (indices: seq<seq<nat>>)
    ensures |indices| == ElementCount(shape)
    ensures forall i, j :: 0 <= i < j < |indices| ==> indices[i] != indices[j]
    ensures forall t :: t in indices <==> IsIndex(shape, t)
  {
    if shape == [] {
      indices := [[]];
    } else {
      var init, m := shape[..|shape| - 1], shape[|shape| - 1];
      var rest := ElementCountCounts(init);
      EndingLists(rest, init, m);
      indices := EndingBelow(rest, m);
      assert shape == init + [m];
    }
  }

  function ByteCount(f: Field): nat
  {
    Times(ElementCount(f.shape), ItemSize(f.dtype))
  }

  /** What `FeatureField.__post_init__` accepts. */
  predicate ValidField(f: Field)
  {
    && f.name != []
    && (forall i :: 0 <= i < |f.shape| ==> f.shape[i] > 0)
    && ElementCount(f.shape) <= MAX_ELEMENT_COUNT && ByteCount(f) <= MAX_FIELD_BYTES
  }

  /** What class definition and `compile_schema` accept: fields, with distinct hashes. */
  ghost predicate ValidSchema(s: Fields, H: NameHash)
  {
    && s != []
    && (forall i :: 0 <= i < |s| ==> ValidField(s[i]))
    && (forall i, j {:trigger s[i], s[j]} :: 0 <= i < j < |s| ==> H(s[i].name) != H(s[j].name))
  }

  // ---------------------------------------------------------------------------
  // Offsets
  // ---------------------------------------------------------------------------

  /** The cursor before field `i`, starting from `base`. */
  function Cursor(s: Fields, base: nat, i: nat): nat
    requires i <= |s|
  {
    if i == 0 then base else AlignUp(Cursor(s, base, i - 1), CACHE_LINE_SIZE) + ByteCount(s[i - 1])
  }

  function Offset(s: Fields, base: nat, i: nat): nat
    requires i < |s|
  {
    AlignUp(Cursor(s, base, i), CACHE_LINE_SIZE)
  }

  /** `_field_byte_offsets`: one pass with a moving cursor. */
  method FieldByteOffsets(s: Fields, base: nat) returns (offsets: seq<nat>)
    ensures |offsets| == |s|
    ensures forall i :: 0 <= i < |s| ==> offsets[i] == Offset(s, base, i)
  {
    hide AlignUp, Times, ElementCount;
    var cursor := base;
    offsets := [];
    for i := 0 to |s|
      invariant cursor == Cursor(s, base, i)
      invariant |offsets| == i
      invariant forall j :: 0 <= j < i ==> offsets[j] == Offset(s, base, j)
    {
      cursor := AlignUp(cursor, CACHE_LINE_SIZE);
      offsets := offsets + [cursor];
      cursor := cursor + ByteCount(s[i]);
    }
  }

  function RowSize(s: Fields): nat
  {
    AlignUp(Cursor(s, 0, |s|), CACHE_LINE_SIZE)
  }

  /** A field's extent, row-relative: the row of the assembly table. */
  function FieldExtent(s: Fields, H: NameHash, i: nat): Extent
    requires i < |s|
  {
    Extent(H(s[i].name), Offset(s, 0, i), s[i].dtype, ElementCount(s[i].shape), ByteCount(s[i]))
  }

  lemma OffsetSpan(s: Fields, base: nat, i: nat)
    requires i < |s|
    ensures Cursor(s, base, i) <= Offset(s, base, i)
    ensures Offset(s, base, i) % CACHE_LINE_SIZE == 0
    ensures Cursor(s, base, i + 1) == Offset(s, base, i) + ByteCount(s[i])
  {
    hide AlignUp;
    AlignToLine(Cursor(s, base, i));
  }

  lemma {:induction false} CursorGrows(s: Fields, base: nat, i: nat, j: nat)
    requires i <= j <= |s|
    ensures Cursor(s, base, i) <= Cursor(s, base, j)
    decreases j
  {
    if i < j {
      CursorGrows(s, base, i, j - 1);
      OffsetSpan(s, base, j - 1);
    }
  }

  /** Each offset is the least cache line at or after the end of the field before it, and the row
      ends at the least one at or after the end of the last field. */
  lemma OffsetLeast(s: Fields, i: nat, m: nat)
    requires i < |s| && m % 64 == 0
    ensures var start := if i == 0 then 0 else Offset(s, 0, i - 1) + ByteCount(s[i - 1]);
            Offset(s, 0, i) % 64 == 0 && start <= Offset(s, 0, i) && (start <= m ==> Offset(s, 0, i) <= m)
    ensures i == |s| - 1 ==>
              var end := Offset(s, 0, i) + ByteCount(s[i]);
              RowSize(s) % 64 == 0 && end <= RowSize(s) && (end <= m ==> RowSize(s) <= m)
  {
    hide AlignUp, ByteCount;
    LineAndPagePowers();
    AlignUpLeast(Cursor(s, 0, i), 6, m);
    AlignUpLeast(Cursor(s, 0, |s|), 6, m);
    hide Pow2;
  }

  /** Field extents are cache-line aligned, in order, disjoint, and inside the row; a row
      is whole cache lines. */
  lemma ExtentsDisjoint(s: Fields, H: NameHash, i: nat, j: nat)
    requires i < j < |s|
    ensures var e, f := FieldExtent(s, H, i), FieldExtent(s, H, j);
            && e.byteOffset % CACHE_LINE_SIZE == 0 && f.byteOffset % CACHE_LINE_SIZE == 0
            && e.byteOffset + e.byteCount <= f.byteOffset
            && f.byteOffset + f.byteCount <= RowSize(s)
            && RowSize(s) % CACHE_LINE_SIZE == 0
  {
    hide AlignUp, Times, ElementCount;
    OffsetSpan(s, 0, i);
    OffsetSpan(s, 0, j);
    CursorGrows(s, 0, i + 1, j);
    ExtentInRow(s, H, j);
  }

  lemma ExtentInRow(s: Fields, H: NameHash, i: nat)
    requires i < |s|
    ensures FieldExtent(s, H, i).byteOffset + FieldExtent(s, H, i).byteCount <= RowSize(s)
    ensures RowSize(s) % CACHE_LINE_SIZE == 0
  {
    hide AlignUp, Times, ElementCount;
    OffsetSpan(s, 0, i);
    CursorGrows(s, 0, i + 1, |s|);
    AlignToLine(Cursor(s, 0, |s|));
  }

  lemma AlignShift(v: nat)
    ensures AlignUp(v + CACHE_LINE_SIZE, CACHE_LINE_SIZE) == AlignUp(v, CACHE_LINE_SIZE) + CACHE_LINE_SIZE
  {
    hide AndNot;
    LineAndPagePowers();
    AlignUpIs(v, 6);
    AlignUpIs(v + CACHE_LINE_SIZE, 6);
  }

  /** Offsets computed behind the segment header are the row offsets moved by one line. */
  lemma {:induction false} RebasedOffset(s: Fields, i: nat)
    requires i < |s|
    ensures Offset(s, HEADER_SIZE, i) == Offset(s, 0, i) + CACHE_LINE_SIZE
    decreases i
  {
    hide AlignUp;
    if i == 0 {
      LineAndPagePowers();
      AlignUpIs(HEADER_SIZE, 6);
      AlignUpIs(0, 6);
    } else {
      RebasedOffset(s, i - 1);
      OffsetSpan(s, 0, i - 1);
      OffsetSpan(s, HEADER_SIZE, i - 1);
      AlignShift(Cursor(s, 0, i));
    }
  }

  // ---------------------------------------------------------------------------
  // Tables
  // ---------------------------------------------------------------------------

  function Hashes(s: Fields, H: NameHash): (h: seq<int>)
    ensures |h| == |s|
  {
    seq(|s|, i requires 0 <= i < |s| => H(s[i].name))
  }

  /** Declaration index of the field at each position of the wire order. */
  function WireOrder(s: Fields, H: NameHash): (p: seq<nat>)
    ensures |p| == |s| && forall i :: 0 <= i < |s| ==> p[i] < |s|
  {
    Argsort(Hashes(s, H), |s|)
  }

  lemma WireOrderOk(s: Fields, H: NameHash)
    ensures IsPermutation(WireOrder(s, H), |s|) && SortedBy(Hashes(s, H), WireOrder(s, H))
  {
    ArgsortOk(Hashes(s, H), |s|);
  }

  datatype Compiled = Table(rows: seq<Extent>) | HashCollision

  /** Segment-relative extent, as `compile_schema` stores it. */
  function SegmentExtent(s: Fields, H: NameHash, i: nat): Extent
    requires i < |s|
  {
    Extent(H(s[i].name), Offset(s, HEADER_SIZE, i), s[i].dtype, ElementCount(s[i].shape), ByteCount(s[i]))
  }

  predicate AdjacentDiffer(rows: seq<Extent>)
  {
    forall k {:trigger rows[k]} :: 0 < k < |rows| ==> rows[k - 1].nameHash != rows[k].nameHash
  }

  /** Fill in declaration order, sort by name hash, reject collisions. */
  method CompileSchema(s: Fields, H: NameHash) returns (r: Compiled)
    requires s != []
    ensures r.Table? <==> forall i, j {:trigger s[i], s[j]} :: 0 <= i < j < |s| ==> H(s[i].name) != H(s[j].name)
    ensures r.Table? ==> |r.rows| == |s| && forall k :: 0 <= k < |s| ==>
              r.rows[k] == SegmentExtent(s, H, WireOrder(s, H)[k])
  {
    hide AlignUp, Times, ElementCount, Argsort, Cursor;
    var offsets := FieldByteOffsets(s, HEADER_SIZE);
    var table: seq<Extent> := [];
    for i := 0 to |s|
      invariant |table| == i
      invariant forall j :: 0 <= j < i ==> table[j] == SegmentExtent(s, H, j)
    {
      table := table + [Extent(H(s[i].name), offsets[i], s[i].dtype, ElementCount(s[i].shape), ByteCount(s[i]))];
    }
    var order := WireOrder(s, H);
    WireOrderOk(s, H);
    var rows := seq(|s|, k requires 0 <= k < |s| => table[order[k]]);
    CollisionShows(s, H, order, rows);
    r := if AdjacentDiffer(rows) then Table(rows) else HashCollision;
  }

  lemma NeighboursApart(s: Fields, H: NameHash, order: seq<nat>, rows: seq<Extent>, i: nat, j: nat)
    requires IsPermutation(order, |s|) && SortedBy(Hashes(s, H), order) && |rows| == |s|
    requires forall k {:trigger rows[k]} :: 0 <= k < |s| ==> order[k] < |s| && rows[k].nameHash == H(s[order[k]].name)
    requires AdjacentDiffer(rows) && i < j < |s|
    ensures H(s[i].name) != H(s[j].name)
  {
    var keys := Hashes(s, H);
    var a := PlaceOf(order, |s|, i);
    var b := PlaceOf(order, |s|, j);
    hide IsPermutation;
    var hi := if a < b then b else a;
    assert rows[hi - 1].nameHash != rows[hi].nameHash;
    assert keys[order[hi - 1]] == rows[hi - 1].nameHash && keys[order[hi]] == rows[hi].nameHash;
    hide Hashes;
    SortedApart(keys, order, if a < b then a else b, hi);
  }

  /** After sorting, equal hashes are neighbours. */
  lemma CollisionShows(s: Fields, H: NameHash, order: seq<nat>, rows: seq<Extent>)
    requires IsPermutation(order, |s|) && SortedBy(Hashes(s, H), order) && |rows| == |s|
    requires forall k {:trigger rows[k]} :: 0 <= k < |s| ==> rows[k].nameHash == H(s[order[k]].name)
    ensures AdjacentDiffer(rows)
       <==> forall i, j {:trigger s[i], s[j]} :: 0 <= i < j < |s| ==> H(s[i].name) != H(s[j].name)
  {
    hide SortedBy, Hashes;
    assert forall k {:trigger rows[k]} :: 0 <= k < |s| ==> order[k] < |s| && rows[k].nameHash == H(s[order[k]].name);
    if AdjacentDiffer(rows) {
      hide IsPermutation, AdjacentDiffer;
      forall i, j | 0 <= i < j < |s|
        ensures H(s[i].name) != H(s[j].name)
      {
        NeighboursApart(s, H, order, rows, i, j);
      }
    } else {
      var k :| 0 < k < |rows| && rows[k - 1].nameHash == rows[k].nameHash;
      var i, j := order[k - 1], order[k];
      assert i < j || j < i;
    }
  }

  /** The rebased, hash-sorted table: `compile_schema` with its least offset subtracted. */
  method ComputeRowOffsetTable(s: Fields, H: NameHash) returns (r: Compiled)
    requires s != []
    ensures r.Table? <==> forall i, j {:trigger s[i], s[j]} :: 0 <= i < j < |s| ==> H(s[i].name) != H(s[j].name)
    ensures r.Table? ==> |r.rows| == |s| && forall k :: 0 <= k < |s| ==>
              r.rows[k] == FieldExtent(s, H, WireOrder(s, H)[k])
  {
    hide AlignUp, Times, ElementCount, Argsort, Cursor, Offset;
    r := CompileSchema(s, H);
    if r.Table? {
      var rows := r.rows;
      var order := WireOrder(s, H);
      var first := rows[0].byteOffset;
      for k := 1 to |rows|
        invariant exists j :: 0 <= j < k && rows[j].byteOffset == first
        invariant forall j :: 0 <= j < k ==> first <= rows[j].byteOffset
      {
        if rows[k].byteOffset < first {
          first := rows[k].byteOffset;
        }
      }
      LeastOffset(s, H, rows, first);
      r := Table(seq(|rows|, k requires 0 <= k < |rows| =>
                       rows[k].(byteOffset := rows[k].byteOffset - first)));
    }
  }

  lemma LeastOffset(s: Fields, H: NameHash, rows: seq<Extent>, first: nat)
    requires s != [] && |rows| == |s|
    requires forall k :: 0 <= k < |s| ==> rows[k] == SegmentExtent(s, H, WireOrder(s, H)[k])
    requires exists j :: 0 <= j < |s| && rows[j].byteOffset == first
    requires forall j :: 0 <= j < |s| ==> first <= rows[j].byteOffset
    ensures first == CACHE_LINE_SIZE
    ensures forall k :: 0 <= k < |s| ==>
              rows[k].byteOffset - first == FieldExtent(s, H, WireOrder(s, H)[k]).byteOffset
                && first <= rows[k].byteOffset
  {
    hide AlignUp, Times, ElementCount, Argsort, Cursor;
    var order := WireOrder(s, H);
    WireOrderOk(s, H);
    forall k | 0 <= k < |s|
      ensures rows[k].byteOffset == Offset(s, 0, order[k]) + CACHE_LINE_SIZE
    {
      RebasedOffset(s, order[k]);
    }
    assert 0 in order;
    var z :| 0 <= z < |s| && order[z] == 0;
    FirstOffset(s);
    assert rows[z].byteOffset == CACHE_LINE_SIZE;
  }

  lemma FirstOffset(s: Fields)
    requires s != []
    ensures Offset(s, 0, 0) == 0
  {
    LineAndPagePowers();
    AlignUpIs(0, 6);
  }

  /** Elements of the first `n` fields. */
  function ElementsBefore(s: Fields, n: nat): nat
    requires n <= |s|
  {
    if n == 0 then 0 else ElementsBefore(s, n - 1) + ElementCount(s[n - 1].shape)
  }

  /** Length of the assembled vector. */
  function TotalElementCount(s: Fields): nat
  {
    ElementsBefore(s, |s|)
  }

  /** The assembly table: row-relative from the start, and left in declaration order. */
  method ComputeAssemblyTable(s: Fields, H: NameHash) returns (rows: seq<Extent>)
    ensures |rows| == |s| && forall i :: 0 <= i < |s| ==> rows[i] == FieldExtent(s, H, i)
  {
    hide AlignUp, Times, ElementCount, Cursor;
    var offsets := FieldByteOffsets(s, 0);
    rows := [];
    for i := 0 to |s|
      invariant |rows| == i
      invariant forall j :: 0 <= j < i ==> rows[j] == FieldExtent(s, H, j)
    {
      rows := rows + [Extent(H(s[i].name), offsets[i], s[i].dtype, ElementCount(s[i].shape), ByteCount(s[i]))];
    }
  }

  /** The greatest extent end over the hash-sorted table, rounded up to a line. */
  method ComputeRowSize(s: Fields, H: NameHash, rows: seq<Extent>) returns (n: nat)
    requires s != [] && |rows| == |s|
    requires forall k :: 0 <= k < |s| ==> rows[k] == FieldExtent(s, H, WireOrder(s, H)[k])
    ensures n == RowSize(s)
  {
    hide AlignUp, Times, ElementCount, Argsort, Cursor;
    var end: nat := 0;
    for k := 0 to |rows|
      invariant forall j :: 0 <= j < k ==> rows[j].byteOffset + rows[j].byteCount <= end
      invariant end == 0 || exists j :: 0 <= j < k && rows[j].byteOffset + rows[j].byteCount == end
    {
      if rows[k].byteOffset + rows[k].byteCount > end {
        end := rows[k].byteOffset + rows[k].byteCount;
      }
    }
    GreatestEnd(s, H, rows, end);
    n := AlignUp(end, CACHE_LINE_SIZE);
  }

  lemma EndsBelowCursor(s: Fields, H: NameHash, i: nat)
    requires i < |s|
    ensures FieldExtent(s, H, i).byteOffset + FieldExtent(s, H, i).byteCount <= Cursor(s, 0, |s|)
    ensures i == |s| - 1 ==> FieldExtent(s, H, i).byteOffset + FieldExtent(s, H, i).byteCount == Cursor(s, 0, |s|)
  {
    hide AlignUp, Times, ElementCount;
    OffsetSpan(s, 0, i);
    CursorGrows(s, 0, i + 1, |s|);
  }

  /** The extents in hash order. */
  ghost predicate IsWireTable(s: Fields, H: NameHash, rows: seq<Extent>)
  {
    |rows| == |s| && forall k :: 0 <= k < |s| ==> rows[k] == FieldExtent(s, H, WireOrder(s, H)[k])
  }

  /** Some row of the table holds the last field. */
  lemma LastFieldRow(s: Fields, H: NameHash, rows: seq<Extent>) returns (z: nat)
    requires s != [] && IsWireTable(s, H, rows)
    ensures z < |rows| && rows[z] == FieldExtent(s, H, |s| - 1)
  {
    hide FieldExtent, Argsort, WireOrder;
    WireOrderOk(s, H);
    var order := WireOrder(s, H);
    assert |s| - 1 in order;
    z :| 0 <= z < |s| && order[z] == |s| - 1;
  }

  lemma RowEnd(s: Fields, H: NameHash, rows: seq<Extent>, j: nat)
    requires s != [] && IsWireTable(s, H, rows) && j < |rows|
    ensures rows[j].byteOffset + rows[j].byteCount <= Cursor(s, 0, |s|)
  {
    hide FieldExtent, Argsort, Cursor, WireOrder;
    WireOrderOk(s, H);
    EndsBelowCursor(s, H, WireOrder(s, H)[j]);
  }

  lemma GreatestEnd(s: Fields, H: NameHash, rows: seq<Extent>, end: nat)
    requires s != [] && IsWireTable(s, H, rows)
    requires forall j :: 0 <= j < |rows| ==> rows[j].byteOffset + rows[j].byteCount <= end
    requires end == 0 || exists j :: 0 <= j < |rows| && rows[j].byteOffset + rows[j].byteCount == end
    ensures end == Cursor(s, 0, |s|)
  {
    hide FieldExtent, Argsort, Cursor, WireOrder, IsWireTable;
    var z := LastFieldRow(s, H, rows);
    EndsBelowCursor(s, H, |s| - 1);
    if end != 0 {
      var j :| 0 <= j < |rows| && rows[j].byteOffset + rows[j].byteCount == end;
      RowEnd(s, H, rows, j);
    }
  }
}
