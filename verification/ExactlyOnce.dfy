/** Exactly once, end to end: the offline files and buffers, read back and deduplicated by
    message id, list each appended row once, whatever flushes failed in between. */
module ExactlyOnce {
  import opened Bytes
  import opened OfflineStore
  import Reader = PointInTime

  /** How the reader sees string ids and feature values: as numbers. */
  datatype View = View(rank: Buffer -> int, code: Buffer -> int)

  function AsRead(view: View, plan: Plan, cells: seq<Cell>): Reader.Row
    requires Shaped(plan, cells) && plan.includeMsgId
  {
    var at := DECL_OFFSET + |plan.wireToDecl|;
    Reader.Row(view.rank(cells[0].id), cells[1].n, cells[at].n, cells[at + 1].n,
               seq(|plan.wireToDecl|, k requires 0 <= k < |plan.wireToDecl| => view.code(cells[DECL_OFFSET + k].value)))
  }

  /** A message id is appended with one content only, however often. */
  ghost predicate OneContent(plan: Plan, schema: nat, rows: set<Row>)
  {
    forall a, b {:trigger a in rows, b in rows} ::
      && a in rows && b in rows && a.key.schema == schema && b.key.schema == schema
      && Shaped(plan, a.cells) && Shaped(plan, b.cells) && plan.includeMsgId && SameId(plan, a.cells, b.cells)
      ==> a.cells == b.cells
  }

  ghost predicate SameId(plan: Plan, a: seq<Cell>, b: seq<Cell>)
    requires Shaped(plan, a) && Shaped(plan, b) && plan.includeMsgId
  {
    var at := DECL_OFFSET + |plan.wireToDecl|;
    a[at] == b[at] && a[at + 1] == b[at + 1]
  }

  /** What of one schema has been appended. */
  ghost function Contents(schema: nat, rows: set<Row>): set<seq<Cell>>
  {
    set row | row in rows && row.key.schema == schema :: row.cells
  }

  /** Distinct contents have distinct message ids. */
  ghost predicate OneId(plan: Plan, contents: set<seq<Cell>>)
    requires plan.includeMsgId
  {
    forall a, b {:trigger a in contents, b in contents} ::
      a in contents && b in contents && Shaped(plan, a) && Shaped(plan, b) && SameId(plan, a, b) ==> a == b
  }

  /** The stored rows of a schema, in some order, with all their repeats. */
  ghost predicate Lists(stored: seq<seq<Cell>>, contents: set<seq<Cell>>)
  {
    && (forall i {:trigger stored[i]} :: 0 <= i < |stored| ==> stored[i] in contents)
    && (forall cells {:trigger cells in contents} :: cells in contents ==> cells in stored)
  }

  ghost predicate AllShaped(plan: Plan, stored: seq<seq<Cell>>)
  {
    forall i {:trigger stored[i]} :: 0 <= i < |stored| ==> Shaped(plan, stored[i])
  }

  function ReadAll(view: View, plan: Plan, stored: seq<seq<Cell>>): (rows: seq<Reader.Row>)
    requires AllShaped(plan, stored) && plan.includeMsgId
    ensures |rows| == |stored|
  {
    seq(|stored|, i requires 0 <= i < |stored| => AsRead(view, plan, stored[i]))
  }

  lemma SameIdAsRead(view: View, plan: Plan, a: seq<Cell>, b: seq<Cell>)
    requires Shaped(plan, a) && Shaped(plan, b) && plan.includeMsgId
    ensures SameId(plan, a, b) <==> Reader.SameGroup(true, AsRead(view, plan, a), AsRead(view, plan, b))
  {
  }

  /** `cells` is at exactly one place of what the reader keeps. */
  ghost predicate ListedOnce(view: View, plan: Plan, out: seq<Reader.Row>, cells: seq<Cell>)
    requires Shaped(plan, cells) && plan.includeMsgId
  {
    exists i {:trigger out[i]} :: 0 <= i < |out| && out[i] == AsRead(view, plan, cells)
      && forall j {:trigger out[j]} :: 0 <= j < |out| && j != i ==> out[j] != AsRead(view, plan, cells)
  }

  /** A kept row is one of the appended contents. */
  ghost predicate FromContents(view: View, plan: Plan, contents: set<seq<Cell>>, x: Reader.Row)
    requires plan.includeMsgId
  {
    exists cells {:trigger cells in contents} ::
      cells in contents && Shaped(plan, cells) && x == AsRead(view, plan, cells)
  }

  lemma KeptOnce(view: View, plan: Plan, stored: seq<seq<Cell>>, out: seq<Reader.Row>, from: seq<nat>, k: nat)
    requires AllShaped(plan, stored) && plan.includeMsgId && k < |stored|
    requires Reader.Deduped(ReadAll(view, plan, stored), |stored|, true, out, from)
    requires forall i, j {:trigger stored[i], stored[j]} ::
               0 <= i < |stored| && 0 <= j < |stored| && SameId(plan, stored[i], stored[j])
               ==> stored[i] == stored[j]
    ensures ListedOnce(view, plan, out, stored[k])
  {
    var rows := ReadAll(view, plan, stored);
    var x := AsRead(view, plan, stored[k]);
    assert rows[k] == x;
    assert Reader.Represented(true, rows[k], out);
    var i :| 0 <= i < |out| && Reader.SameGroup(true, rows[k], out[i]);
    assert Reader.KeptRow(rows, |stored|, true, out[i], from[i]);
    var at := from[i];
    assert out[i] == AsRead(view, plan, stored[at]);
    SameIdAsRead(view, plan, stored[k], stored[at]);
    assert stored[k] == stored[at];
    forall j | 0 <= j < |out| && j != i
      ensures out[j] != x
    {
      Apart(out, i, j);
    }
  }

  lemma Apart(out: seq<Reader.Row>, i: nat, j: nat)
    requires forall i, j {:trigger out[i], out[j]} :: 0 <= i < j < |out| ==> !Reader.SameGroup(true, out[i], out[j])
    requires i < |out| && j < |out| && i != j
    ensures out[j] != out[i]
  {
    if i < j {
      assert !Reader.SameGroup(true, out[i], out[j]);
    } else {
      assert !Reader.SameGroup(true, out[j], out[i]);
    }
  }

  /** Deduplication by message id of any listing of what is stored lists each appended
      content exactly once, and nothing else. */
  lemma DedupListsOnce(view: View, plan: Plan, contents: set<seq<Cell>>, stored: seq<seq<Cell>>, out: seq<Reader.Row>,
                       from: seq<nat>)
    requires plan.includeMsgId && AllShaped(plan, stored) && Lists(stored, contents)
    requires OneId(plan, contents)
    requires Reader.Deduped(ReadAll(view, plan, stored), |stored|, true, out, from)
    ensures forall cells {:trigger cells in contents} :: cells in contents ==>
              Shaped(plan, cells) && ListedOnce(view, plan, out, cells)
    ensures forall i {:trigger out[i]} :: 0 <= i < |out| ==> FromContents(view, plan, contents, out[i])
  {
    hide SameId, Shaped, Reader.Represented, ListedOnce;
    forall cells | cells in contents
      ensures Shaped(plan, cells) && ListedOnce(view, plan, out, cells)
    {
      var k :| 0 <= k < |stored| && stored[k] == cells;
      KeptOnce(view, plan, stored, out, from, k);
    }
    forall i | 0 <= i < |out|
      ensures FromContents(view, plan, contents, out[i])
    {
      assert Reader.KeptRow(ReadAll(view, plan, stored), |stored|, true, out[i], from[i]);
      assert stored[from[i]] in contents && Shaped(plan, stored[from[i]]);
    }
  }

  /** The rows of one schema in the dataset, file by file. */
  method ScanDataset(disk: seq<File>, schema: nat) returns (stored: seq<seq<Cell>>)
    ensures Lists(stored, Contents(schema, DiskRows(disk)))
  {
    stored := [];
    for f := 0 to |disk|
      invariant Lists(stored, Contents(schema, DiskRows(disk[..f])))
    {
      var more := if disk[f].key.schema == schema then disk[f].rows else [];
      ScanStep(disk, f, schema, stored, more);
      stored := stored + more;
    }
    assert disk[..|disk|] == disk;
  }

  lemma InContents(disk: seq<File>, schema: nat, cells: seq<Cell>)
    ensures cells in Contents(schema, DiskRows(disk))
       <==> exists f {:trigger disk[f]} :: 0 <= f < |disk| && disk[f].key.schema == schema && cells in disk[f].rows
  {
    if f :| 0 <= f < |disk| && disk[f].key.schema == schema && cells in disk[f].rows {
      assert disk[f] in disk;
      assert Row(disk[f].key, cells) in DiskRows(disk);
    }
  }

  lemma ScanStep(disk: seq<File>, f: nat, schema: nat, stored: seq<seq<Cell>>, more: seq<seq<Cell>>)
    requires f < |disk| && Lists(stored, Contents(schema, DiskRows(disk[..f])))
    requires more == if disk[f].key.schema == schema then disk[f].rows else []
    ensures Lists(stored + more, Contents(schema, DiskRows(disk[..f + 1])))
  {
    hide Contents, DiskRows;
    forall cells
      ensures cells in Contents(schema, DiskRows(disk[..f + 1])) <==>
                cells in Contents(schema, DiskRows(disk[..f])) || cells in more
    {
      ScanAt(disk, f, schema, more, cells);
    }
    assert forall cells {:trigger cells in stored + more} :: cells in stored + more <==>
      cells in stored || cells in more;
    assert forall i {:trigger (stored + more)[i]} :: 0 <= i < |stored + more| ==> (stored + more)[i] in stored + more;
    assert forall i {:trigger stored[i]} :: 0 <= i < |stored| ==> stored[i] in stored;
    assert forall cells {:trigger cells in stored} :: cells in stored ==>
      cells in Contents(schema, DiskRows(disk[..f]));
  }

  lemma ScanAt(disk: seq<File>, f: nat, schema: nat, more: seq<seq<Cell>>, cells: seq<Cell>)
    requires f < |disk| && more == if disk[f].key.schema == schema then disk[f].rows else []
    ensures cells in Contents(schema, DiskRows(disk[..f + 1])) <==>
              cells in Contents(schema, DiskRows(disk[..f])) || cells in more
  {
    hide Contents, DiskRows;
    var less, now := disk[..f], disk[..f + 1];
    InContents(now, schema, cells);
    InContents(less, schema, cells);
    assert now == less + [disk[f]];
    if k :| 0 <= k < |less| && less[k].key.schema == schema && cells in less[k].rows {
      assert now[k] == less[k];
    }
    if cells in more {
      assert now[f] == disk[f];
    }
  }

  /** A store whose buffers are empty, as after a flush that succeeded, read back: each row
      ever appended exactly once, also those a failed flush had already renamed into place. */
  method ReadBack(store: ParquetStore, schema: nat, view: View) returns (out: seq<Reader.Row>)
    requires store.Valid() && schema < |store.plans| && store.plans[schema].includeMsgId
    requires store.Buffered() == {} && OneContent(store.plans[schema], schema, store.appended)
    ensures forall cells {:trigger cells in Contents(schema, store.appended)} ::
              cells in Contents(schema, store.appended) ==>
              Shaped(store.plans[schema], cells) && ListedOnce(view, store.plans[schema], out, cells)
    ensures forall i {:trigger out[i]} :: 0 <= i < |out| ==>
              FromContents(view, store.plans[schema], Contents(schema, store.appended), out[i])
  {
    var plan := store.plans[schema];
    assert store.appended == DiskRows(store.disk) && RowsShaped(store.plans, store.appended);
    hide ParquetStore.Valid, ParquetStore.Buffered, DiskRows;
    ghost var contents := Contents(schema, store.appended);
    ContentsShaped(store.plans, schema, store.appended);
    hide *;
    var stored := ScanDataset(store.disk, schema);
    assert AllShaped(plan, stored) by {
      ListedShaped(plan, contents, stored);
    }
    ghost var from;
    out, from := Reader.DedupFeatures(ReadAll(view, plan, stored), true);
    DedupListsOnce(view, plan, contents, stored, out, from);
  }

  /** At any moment: any listing of what the dataset and the buffers hold, repeats included,
      deduplicates to each row ever appended once. */
  lemma StoredOnce(store: ParquetStore, schema: nat, view: View, stored: seq<seq<Cell>>, out: seq<Reader.Row>,
                   from: seq<nat>)
    requires store.Valid() && schema < |store.plans| && store.plans[schema].includeMsgId
    requires OneContent(store.plans[schema], schema, store.appended)
    requires Lists(stored, Contents(schema, store.OnDisk() + store.Buffered()))
    requires AllShaped(store.plans[schema], stored)
    requires Reader.Deduped(ReadAll(view, store.plans[schema], stored), |stored|, true, out, from)
    ensures forall cells {:trigger cells in Contents(schema, store.appended)} ::
              cells in Contents(schema, store.appended) ==>
              Shaped(store.plans[schema], cells) && ListedOnce(view, store.plans[schema], out, cells)
    ensures forall i {:trigger out[i]} :: 0 <= i < |out| ==>
              FromContents(view, store.plans[schema], Contents(schema, store.appended), out[i])
  {
    assert RowsShaped(store.plans, store.appended) && store.appended == store.OnDisk() + store.Buffered();
    hide *;
    ContentsShaped(store.plans, schema, store.appended);
    DedupListsOnce(view, store.plans[schema], Contents(schema, store.appended), stored, out, from);
  }

  /** A flush that may fail at any bucket, even past a rename, flushed again and read back. */
  method FlushTwiceAndRead(store: ParquetStore, schema: nat, view: View, fault: Key -> WriteFault, uuid: Key -> nat)
    returns (out: seq<Reader.Row>)
    requires store.Valid() && schema < |store.plans| && store.plans[schema].includeMsgId
    requires OneContent(store.plans[schema], schema, store.appended)
    modifies store
    ensures store.Valid() && store.appended == old(store.appended)
    ensures forall cells {:trigger cells in Contents(schema, store.appended)} ::
              cells in Contents(schema, store.appended) ==>
              Shaped(store.plans[schema], cells) && ListedOnce(view, store.plans[schema], out, cells)
    ensures forall i {:trigger out[i]} :: 0 <= i < |out| ==>
              FromContents(view, store.plans[schema], Contents(schema, store.appended), out[i])
  {
    hide *;
    var ok, wrote, restored := store.Flush(fault, uuid);
    if !ok {
      ok, wrote, restored := store.Flush(_ => NoFault, uuid);
    }
    out := ReadBack(store, schema, view);
  }

  lemma ContentsShaped(plans: seq<Plan>, schema: nat, rows: set<Row>)
    requires RowsShaped(plans, rows) && schema < |plans| && plans[schema].includeMsgId
    requires OneContent(plans[schema], schema, rows)
    ensures var contents := Contents(schema, rows);
            && (forall cells {:trigger cells in contents} :: cells in contents ==> Shaped(plans[schema], cells))
            && OneId(plans[schema], contents)
  {
    hide Shaped, SameId;
    var contents := Contents(schema, rows);
    forall a, b | a in contents && b in contents && Shaped(plans[schema], a) && Shaped(plans[schema], b)
        && SameId(plans[schema], a, b)
      ensures a == b
    {
      var x :| x in rows && x.key.schema == schema && x.cells == a;
      var y :| y in rows && y.key.schema == schema && y.cells == b;
    }
  }

  lemma ListedShaped(plan: Plan, contents: set<seq<Cell>>, stored: seq<seq<Cell>>)
    requires Lists(stored, contents)
    requires forall cells {:trigger cells in contents} :: cells in contents ==> Shaped(plan, cells)
    ensures AllShaped(plan, stored)
  {
    hide Shaped;
  }
}
