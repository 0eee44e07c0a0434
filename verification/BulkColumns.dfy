/** Column preparation for the bulk insert: ids and fields as flat buffers with prefix
    sums, and where each row's pieces are found in them. */
module BulkColumns {
  import opened Bits
  import opened Bytes
  import opened Layout
  import opened Schema
  import opened SlotTable

  /** Ids and fields as flat buffers with prefix sums; fields are column-major. */
  datatype Columns = Columns(hashes: seq<u64>, idOffsets: seq<nat>, idBytes: Buffer, starts: seq<nat>,
                             fieldData: Buffer)

  ghost predicate IdAt(offsets: seq<nat>, bytes: Buffer, i: nat, id: Buffer)
  {
    i + 1 < |offsets| && offsets[i] + |id| == offsets[i + 1] <= |bytes| && bytes[offsets[i]..offsets[i + 1]] == id
  }

  ghost predicate IdsAt(ids: seq<Buffer>, offsets: seq<nat>, bytes: Buffer)
  {
    && |offsets| == |ids| + 1 && offsets[0] == 0 && offsets[|ids|] == |bytes|
    && forall i {:trigger ids[i]} :: 0 <= i < |ids| ==> IdAt(offsets, bytes, i, ids[i])
  }

  /** The value of field `f` in row `i`, inside the column-major buffer. */
  ghost predicate CellAt(starts: seq<nat>, data: Buffer, f: nat, i: nat, cell: Buffer)
    requires f < |starts|
  {
    var at := starts[f] + Times(i, |cell|);
    at + |cell| <= |data| && data[at..at + |cell|] == cell
  }


  /** One cell per row for every field, each of the field's size. */
  ghost predicate ColumnSizes(s: Fields, n: nat, cols: seq<seq<Buffer>>)
  {
    |cols| == |s| && forall f {:trigger cols[f]} :: 0 <= f < |s| ==>
      |cols[f]| == n && SizedCells(cols[f], ByteCount(s[f]))
  }

  ghost predicate SizedCells(col: seq<Buffer>, size: nat)
  {
    forall i {:trigger col[i]} :: 0 <= i < |col| ==> |col[i]| == size
  }

  ghost predicate ColumnsFor(s: Fields, H: HashFn, ids: seq<Buffer>, cols: seq<seq<Buffer>>, c: Columns)
  {
    && ColumnSizes(s, |ids|, cols)
    && |c.hashes| == |ids| && (forall i {:trigger ids[i]} :: 0 <= i < |ids| ==> c.hashes[i] == H(ids[i]))
    && IdsAt(ids, c.idOffsets, c.idBytes)
    && |c.starts| == |s| + 1
    && (forall f, i {:trigger cols[f][i]} :: 0 <= f < |s| && 0 <= i < |ids| ==>
          CellAt(c.starts, c.fieldData, f, i, cols[f][i]))
  }

  function Concat(col: seq<Buffer>): Buffer
  {
    if col == [] then [] else Concat(col[..|col| - 1]) + col[|col| - 1]
  }

  lemma {:induction false} ConcatCell(col: seq<Buffer>, size: nat, i: nat)
    requires SizedCells(col, size) && i < |col|
    ensures |Concat(col)| == Times(|col|, size) && Times(i, size) + size <= |Concat(col)|
    ensures Concat(col)[Times(i, size)..Times(i, size) + size] == col[i]
  {
    var init := col[..|col| - 1];
    ConcatSize(col, size);
    ConcatSize(init, size);
    if i < |init| {
      ConcatCell(init, size, i);
    }
  }

  lemma {:induction false} ConcatSize(col: seq<Buffer>, size: nat)
    requires SizedCells(col, size)
    ensures |Concat(col)| == Times(|col|, size)
  {
    if col != [] {
      ConcatSize(col[..|col| - 1], size);
    }
  }

  /** Flatten the ids with their prefix sums. */
  method FlattenIds(ids: seq<Buffer>) returns (offsets: seq<nat>, bytes: Buffer)
    ensures IdsAt(ids, offsets, bytes)
  {
    offsets, bytes := [0], [];
    for i := 0 to |ids|
      invariant |offsets| == i + 1 && offsets[0] == 0 && offsets[i] == |bytes|
      invariant forall j {:trigger ids[j]} :: 0 <= j < i ==> IdAt(offsets, bytes, j, ids[j])
    {
      ghost var was, before := bytes, offsets;
      bytes := bytes + ids[i];
      offsets := offsets + [|bytes|];
      forall j | 0 <= j < i
        ensures IdAt(offsets, bytes, j, ids[j])
      {
        IdKept(before, was, offsets, bytes, j, ids[j]);
      }
      assert bytes[|was|..|bytes|] == ids[i];
    }
  }

  lemma IdKept(before: seq<nat>, was: Buffer, offsets: seq<nat>, bytes: Buffer, i: nat, id: Buffer)
    requires |before| <= |offsets| && offsets[..|before|] == before && |was| <= |bytes| && bytes[..|was|] == was
    requires IdAt(before, was, i, id)
    ensures IdAt(offsets, bytes, i, id)
  {
    assert offsets[i] == offsets[..|before|][i] && offsets[i + 1] == offsets[..|before|][i + 1];
    assert bytes[before[i]..before[i + 1]] == bytes[..|was|][before[i]..before[i + 1]];
  }

  /** `_prepare_insert_columns`: prefix sums and one contiguous run per field. */
  method PrepareInsertColumns(s: Fields, H: HashFn, ids: seq<Buffer>, cols: seq<seq<Buffer>>) returns (c: Columns)
    requires ColumnSizes(s, |ids|, cols)
    ensures ColumnsFor(s, H, ids, cols, c)
  {
    hide ByteCount, IdsAt;
    var idOffsets, idBytes := FlattenIds(ids);
    var hashes := seq(|ids|, i requires 0 <= i < |ids| => H(ids[i]));
    var starts: seq<nat> := [0];
    var data: Buffer := [];
    for f := 0 to |s|
      invariant |starts| == f + 1 && starts[f] == |data|
      invariant forall g, i {:trigger cols[g][i]} :: 0 <= g < f && 0 <= i < |ids| ==>
                  CellAt(starts, data, g, i, cols[g][i])
    {
      ghost var was, before := data, starts;
      assert SizedCells(cols[f], ByteCount(s[f]));
      data := data + Concat(cols[f]);
      starts := starts + [starts[f] + Times(|ids|, ByteCount(s[f]))];
      ConcatSize(cols[f], ByteCount(s[f]));
      forall g, i | 0 <= g < f + 1 && 0 <= i < |ids|
        ensures CellAt(starts, data, g, i, cols[g][i])
      {
        if g < f {
          CellKept(before, was, data, starts, g, i, cols[g][i]);
        } else {
          ConcatCell(cols[f], ByteCount(s[f]), i);
          CellAppended(starts, was, cols[f], ByteCount(s[f]), f, i);
        }
      }
    }
    return Columns(hashes, idOffsets, idBytes, starts, data);
  }

  lemma PrefixSlice(was: Buffer, data: Buffer, lo: nat, hi: nat)
    requires lo <= hi <= |was| <= |data| && data[..|was|] == was
    ensures data[lo..hi] == was[lo..hi]
  {
    var x, y := data[lo..hi], was[lo..hi];
    forall k {:trigger x[k]} | 0 <= k < hi - lo
      ensures x[k] == y[k]
    {
      assert data[lo + k] == data[..|was|][lo + k];
    }
  }

  lemma CellKept(before: seq<nat>, was: Buffer, data: Buffer, starts: seq<nat>, f: nat, i: nat, cell: Buffer)
    requires f < |before| <= |starts| && starts[..|before|] == before && |was| <= |data| && data[..|was|] == was
    requires CellAt(before, was, f, i, cell)
    ensures CellAt(starts, data, f, i, cell)
  {
    var at := before[f] + Times(i, |cell|);
    assert starts[f] == starts[..|before|][f];
    PrefixSlice(was, data, at, at + |cell|);
  }

  lemma CellAppended(starts: seq<nat>, was: Buffer, col: seq<Buffer>, size: nat, f: nat, i: nat)
    requires f < |starts| && starts[f] == |was| && SizedCells(col, size) && i < |col|
    requires |Concat(col)| == Times(|col|, size) && Times(i, size) + size <= |Concat(col)|
    requires Concat(col)[Times(i, size)..Times(i, size) + size] == col[i]
    ensures CellAt(starts, was + Concat(col), f, i, col[i])
  {
    var at := |was| + Times(i, size);
    assert (was + Concat(col))[at..at + size] == Concat(col)[Times(i, size)..Times(i, size) + size];
  }
}
