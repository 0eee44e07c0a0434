/** The buffers under the protocol: what `CopySegment` does to two segments is the protocol's
    copy step, and it refuses exactly when that step is not enabled. */
module UpgradeBuffers {
  import opened Bits
  import opened Bytes
  import opened Layout
  import opened SlotTable
  import opened Segment
  import opened CrashSafety
  import opened Schema
  import opened Assembly
  import opened SegmentRuns
  import opened BulkInsert
  import opened BulkKernel
  import opened SchemaUpgrade
  import opened RowTranslation
  import opened UpgradeCopy
  import P = UpgradeProtocol
  import UpgradeContents

  /** The buffer holds what the protocol says the segment holds. */
  ghost predicate Represents(st: P.State, n: nat, L: SegmentLayout, H: HashFn, b: Buffer)
  {
    && WellFormed(L, H, b) && n in st.segs
    && StoreMap(L, H, b) == st.segs[n].rows && NextRow(b) == st.segs[n].cursor
  }

  /** An orchestrator that has made its new segment and is about to copy. */
  ghost predicate AboutToCopy(st: P.State, s: nat, pid: nat, older: nat, newer: nat)
  {
    && P.Safe(st, s) && UpgradeContents.Stocked(st) && pid in st.orcs && st.orcs[pid].stage.Made?
    && st.orcs[pid].oldSeg == P.Just(older) && st.orcs[pid].newSeg == P.Just(newer)
  }

  lemma CopyEnabled(st: P.State, s: nat, pid: nat, older: nat, newer: nat)
    requires AboutToCopy(st, s, pid, older, newer)
    ensures older in st.segs && newer in st.segs
    ensures WidensFloats(st.wide) && Compatible(st.orcs[pid].source, st.orcs[pid].target)
    ensures st.segs[older].def == st.orcs[pid].source && st.segs[newer].def == st.orcs[pid].target
    ensures RowsSized(st.segs[older].def, st.segs[older].rows)
    ensures P.CanStep(st, s, P.CopyRows(pid)) <==> st.segs[older].cursor == |st.segs[older].rows|
  {
    hide Compatible, WidensFloats, RowsSized;
    assert UpgradeContents.OrcStock(st, st.orcs[pid]);
    UpgradeContents.OrcSegments(st, s, pid);
    assert UpgradeContents.SegOk(st, older) by {
      UpgradeContents.OldStocked(st, older);
    }
    assert older in st.lineage by {
      assert P.PathOk(st, s);
      var i :| 0 <= i < |st.path| && st.path[i] == older;
    }
    hide P.Safe, UpgradeContents.Stocked;
  }

  lemma CopyFills(st: P.State, s: nat, pid: nat, older: nat, newer: nat)
    requires AboutToCopy(st, s, pid, older, newer) && P.CanStep(st, s, P.CopyRows(pid))
    ensures WidensFloats(st.wide) && Compatible(st.orcs[pid].source, st.orcs[pid].target) && older in st.segs
    ensures RowsSized(st.orcs[pid].source, st.segs[older].rows)
    ensures var t := P.After(st, s, P.CopyRows(pid));
            && newer in t.segs && t.segs[newer].cursor == |t.segs[newer].rows|
            && t.segs[newer].rows ==
                 TranslatedMap(st.wide, st.orcs[pid].source, st.orcs[pid].target, st.segs[older].rows)
  {
    CopyEnabled(st, s, pid, older, newer);
    hide P.Safe, UpgradeContents.Stocked, Compatible, WidensFloats, RowsSized, TranslatedMap;
  }

  /** `_build_translation_table` and `insert_many` on the buffers are the step `CopyRows`. */
  method CopyStep(oldBuf: array<byte>, oldL: SegmentLayout, newBuf: array<byte>, newL: SegmentLayout, H: HashFn,
                  N: NameHash, o: FeatureSchema, n: FeatureSchema, wide: FloatWidening, table: seq<Extent>,
                  ghost st: P.State, ghost s: nat, ghost pid: nat, ghost older: nat, ghost newer: nat)
    returns (r: CopyResult)
    requires AboutToCopy(st, s, pid, older, newer) && st.orcs[pid].source == o && st.orcs[pid].target == n
    requires st.wide == wide
    requires Represents(st, older, oldL, H, oldBuf[..])
    requires CopySetup(o, oldL, oldBuf[..], n, newL, H, wide) && oldBuf != newBuf && Blank(newL, newBuf[..])
    requires ValidSchema(o.fields, N) && |table| == |o.fields|
    requires forall k :: 0 <= k < |o.fields| ==> table[k] == FieldExtent(o.fields, N, WireOrder(o.fields, N)[k])
    modifies newBuf
    ensures r.Copied? <==> P.CanStep(st, s, P.CopyRows(pid))
    ensures r.Copied? ==> Represents(P.After(st, s, P.CopyRows(pid)), newer, newL, H, newBuf[..])
    ensures !r.Copied? ==> newBuf[..] == old(newBuf[..])
  {
    ghost var was := oldBuf[..];
    CopyEnabled(st, s, pid, older, newer);
    assert StoreMap(oldL, H, was) == st.segs[older].rows && NextRow(was) == st.segs[older].cursor;
    hide *;
    r := CopySegment(oldBuf, oldL, o, newBuf, newL, n, H, N, wide, table);
    if r.Copied? {
      CopyFills(st, s, pid, older, newer);
      Represented(P.After(st, s, P.CopyRows(pid)), newer, newL, H, newBuf[..]);
    }
  }

  lemma Represented(st: P.State, n: nat, L: SegmentLayout, H: HashFn, b: Buffer)
    requires WellFormed(L, H, b) && n in st.segs && StoreMap(L, H, b) == st.segs[n].rows
    requires NextRow(b) == st.segs[n].cursor
    ensures Represents(st, n, L, H, b)
  {
  }
}
