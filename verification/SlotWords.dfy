/** The raw words of a slot, as a reader of the bytes sees them, and what each means for
    the probe in progress. */
module SlotWords {
  import Bits
  import opened Bytes
  import opened Layout
  import opened SlotTable
  import opened Segment
  import opened SegmentInsert

  lemma TakenFields(L: SegmentLayout, H: HashFn, x: Buffer, i: nat)
    requires WellFormed(L, H, x) && i < L.slotCapacity && SlotOff(L, i) + SLOT_BYTES <= |x|
    requires SlotsOf(L, x)[i].Taken?
    ensures var s, o := SlotsOf(L, x)[i], SlotOff(L, i);
            && ReadU64(x, o + SLOT_NAME_HASH_OFFSET) == s.hash
            && ReadU64(x, o + SLOT_ID_OFFSET_OFFSET) == s.idOff
            && ReadU32(x, o + SLOT_FEATURE_ROW_INDEX_OFFSET) == s.row
            && StoredId(L, x, s.idOff) == Some(s.id)
  {
    hide Decode, Encode, Probe, TableOk, StoredId;
  }

  lemma FlagsDecide(L: SegmentLayout, H: HashFn, x: Buffer, i: nat)
    requires WellFormed(L, H, x) && i < L.slotCapacity && SlotOff(L, i) + SLOT_BYTES <= |x|
    ensures var flags := ReadU32(x, SlotOff(L, i) + SLOT_FLAGS_OFFSET);
            && (flags == 0 <==> SlotsOf(L, x)[i].Vacant?)
            && (flags == OCCUPIED <==> SlotsOf(L, x)[i].Taken?)
            && (flags == 0 || flags == OCCUPIED)
  {
    hide Decode, Encode, Probe, StoredId;
    assert SlotOk(SlotsOf(L, x)[i], TableOf(L, x), H, L.maxIdBytes);
  }

  /** The pool entry a taken slot points at. */
  lemma TakenEntry(L: SegmentLayout, H: HashFn, x: Buffer, i: nat)
    requires WellFormed(L, H, x) && i < L.slotCapacity && SlotsOf(L, x)[i].Taken?
    ensures var s := SlotsOf(L, x)[i];
            var entry := L.poolDataOffset + s.idOff;
            && s.hash == H(s.id)
            && entry + LEN_PREFIX_BYTES + |s.id| <= |x|
            && ReadU32(x, entry) == |s.id| <= L.maxIdBytes
            && x[entry + LEN_PREFIX_BYTES..entry + LEN_PREFIX_BYTES + |s.id|] == s.id
  {
    hide Decode, Encode, Probe;
    assert SlotOk(SlotsOf(L, x)[i], TableOf(L, x), H, L.maxIdBytes);
    SlotInBounds(L, i);
    TakenFields(L, H, x, i);
  }

  /** One slot of a probe for `id`, decided from raw words. */
  lemma ProbeStep(L: SegmentLayout, H: HashFn, x: Buffer, id: Buffer, i: nat, fuel: nat)
    requires WellFormed(L, H, x) && i < L.slotCapacity && fuel > 0
    ensures SlotOff(L, i) + SLOT_BYTES <= |x|
    ensures var flags := ReadU32(x, SlotOff(L, i) + SLOT_FLAGS_OFFSET);
            && (flags == 0 ==> Probe(SlotsOf(L, x), H(id), id, i, fuel).Free?)
            && (flags != 0 ==> flags == OCCUPIED && SlotMatters(L, H, x, id, i, fuel))
  {
    hide Decode, StoredId, TableOk, SlotAt, Bits.Times, Entries;
    SlotInBounds(L, i);
    FlagsDecide(L, H, x, i);
    if SlotsOf(L, x)[i].Taken? {
      TakenFields(L, H, x, i);
      TakenEntry(L, H, x, i);
    }
  }

  /** An occupied slot either is the entity's own, or the probe moves on. */
  ghost predicate SlotMatters(L: SegmentLayout, H: HashFn, x: Buffer, id: Buffer, i: nat, fuel: nat)
    requires Sized(L, x) && i < L.slotCapacity && fuel > 0 && SlotOff(L, i) + SLOT_BYTES <= |x|
  {
    var slots := SlotsOf(L, x);
    var base := SlotOff(L, i);
    var entry := L.poolDataOffset + ReadU64(x, base + SLOT_ID_OFFSET_OFFSET);
    && entry + LEN_PREFIX_BYTES <= |x|
    && (var len := ReadU32(x, entry);
        var start := entry + LEN_PREFIX_BYTES;
        && len <= L.maxIdBytes && start + len <= |x|
        && (if ReadU64(x, base + SLOT_NAME_HASH_OFFSET) == H(id) && x[start..start + len] == id then
              Probe(slots, H(id), id, i, fuel) == Hit(i)
              && slots[i].Taken? && slots[i].row == ReadU32(x, base + SLOT_FEATURE_ROW_INDEX_OFFSET)
            else
              Probe(slots, H(id), id, i, fuel) == Probe(slots, H(id), id, Succ(i, L.slotCapacity), fuel - 1)))
  }
}
