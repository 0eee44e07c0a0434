/** Reading feature vectors: the single-entity reader, the raw lookup kernel and the
    fused batch kernel, against one meaning for an assembled row. */
module Assembly {
  import opened Bits
  import opened Bytes
  import opened Layout
  import opened SlotTable
  import opened Segment
  import opened SlotWords
  import opened SegmentRuns
  import opened Schema

  /** A float32, by its bit pattern. */
  datatype Float = Float(bits: nat)

  const ZERO: Float := Float(0)

  /** How a stored element of a dtype reads once cast to float32. */
  type View = (DType, Buffer) -> Float

  /** The first `k` elements of a field's bytes. */
  function Floats(view: View, d: DType, bytes: Buffer, k: nat): (v: seq<Float>)
    requires Times(k, ItemSize(d)) <= |bytes|
    ensures |v| == k
  {
    if k == 0 then []
    else Floats(view, d, bytes, k - 1) + [view(d, bytes[Times(k - 1, ItemSize(d))..Times(k, ItemSize(d))])]
  }

  /** A field's bytes within a row. */
  function FieldSlice(s: Fields, row: Buffer, i: nat): (b: Buffer)
    requires i < |s| && |row| == RowSize(s)
    ensures |b| == ByteCount(s[i])
  {
    ExtentInRow(s, _ => 0, i);
    row[Offset(s, 0, i)..Offset(s, 0, i) + ByteCount(s[i])]
  }

  /** The first `n` fields of a row, in declaration order, element by element. */
  function Assembled(view: View, s: Fields, row: Buffer, n: nat): (v: seq<Float>)
    requires n <= |s| && |row| == RowSize(s)
    ensures |v| == ElementsBefore(s, n)
  {
    if n == 0 then []
    else
      var last := Floats(view, s[n - 1].dtype, FieldSlice(s, row, n - 1), ElementCount(s[n - 1].shape));
      Assembled(view, s, row, n - 1) + last
  }

  // ---------------------------------------------------------------------------
  // Lookup kernels
  // ---------------------------------------------------------------------------

  /** The abstract answer of a raw lookup: the row offset, or -1. */
  ghost function RawMeaning(L: SegmentLayout, H: HashFn, b: Buffer, id: Buffer): int
    requires WellFormed(L, H, b)
  {
    if id in RowMap(L, H, b) then RowOff(L, RowMap(L, H, b)[id]) else -1
  }

  /** The kernels' byte-compare loop. */
  method SameBytes(seg: array<byte>, at: nat, q: Buffer, len: nat) returns (same: bool)
    requires at + len <= seg.Length && len <= |q|
    ensures same <==> seg[at..at + len] == q[..len]
  {
    for k := 0 to len
      invariant forall j :: 0 <= j < k ==> seg[at + j] == q[j]
    {
      if seg[at + k] != q[k] {
        assert seg[at..at + len][k] != q[..len][k];
        return false;
      }
    }
    return true;
  }

  /** What the probe's outcome means for the raw answer. */
  lemma SearchAnswers(L: SegmentLayout, H: HashFn, b: Buffer, id: Buffer)
    requires WellFormed(L, H, b)
    ensures L.slotCapacity > 0
    ensures var r := Search(SlotsOf(L, b), H(id), id);
            && !r.Exhausted?
            && (r.Free? ==> RawMeaning(L, H, b, id) == -1)
            && (r.Hit? ==> RawMeaning(L, H, b, id) == RowOff(L, SlotsOf(L, b)[r.at].row))
    ensures Search(SlotsOf(L, b), H(id), id)
         == Probe(SlotsOf(L, b), H(id), id, Bits.Remainder(H(id), L.slotCapacity), L.slotCapacity)
    ensures Valid(L) && |b| == L.totalSize
  {
    hide Decode, SlotAt, TableOk, Probe, Entries, Bits.Times;
    SearchIsMembership(TableOf(L, b), H, L.capacity, L.maxIdBytes, id);
  }

  datatype Verdict = Empty | Mine(offset: nat) | Other

  /** What examining slot `i` tells a probe for `id`. */
  ghost predicate VerdictOk(L: SegmentLayout, H: HashFn, b: Buffer, id: Buffer, i: nat, fuel: nat, v: Verdict)
    requires Sized(L, b) && i < L.slotCapacity && fuel > 0
  {
    var slots := SlotsOf(L, b);
    var r := Probe(slots, H(id), id, i, fuel);
    match v
    case Empty => r.Free?
    case Mine(offset) => r == Hit(i) && slots[i].Taken? && offset == RowOff(L, slots[i].row)
    case Other => r == Probe(slots, H(id), id, Succ(i, L.slotCapacity), fuel - 1)
  }

  /** The body of both kernels' probe loops. `bounded` is the length check that
      `_lookup_core` makes and the batch kernels omit. */
  method ExamineSlot(seg: array<byte>, q: Buffer, qlen: nat, h: u64, L: SegmentLayout, i: nat, bounded: bool,
                     ghost H: HashFn, ghost fuel: nat) returns (v: Verdict)
    requires WellFormed(L, H, seg[..]) && qlen <= |q| && h == H(q[..qlen])
    requires i < L.slotCapacity && fuel > 0
    ensures VerdictOk(L, H, seg[..], q[..qlen], i, fuel, v)
  {
    hide Decode, Bits.Times, Probe, StoredId, TableOk, SlotAt, Entries, SlotsOf, TableOf, RowOff, ReadLE;
    var b := seg[..];
    ghost var id := q[..qlen];
    ProbeStep(L, H, b, id, i, fuel);
    var base := SlotOff(L, i);
    var flags := ReadU32(b, base + SLOT_FLAGS_OFFSET);
    if flags == 0 {
      return Empty;
    }
    if flags == 1 && ReadU64(b, base + SLOT_NAME_HASH_OFFSET) == h {
      var entry := L.poolDataOffset + ReadU64(b, base + SLOT_ID_OFFSET_OFFSET);
      var poolLen := ReadU32(b, entry);
      if bounded && poolLen > L.maxIdBytes {
        return Empty;
      }
      if poolLen == qlen {
        var same := SameBytes(seg, entry + LEN_PREFIX_BYTES, q, qlen);
        if same {
          return Mine(RowOff(L, ReadU32(b, base + SLOT_FEATURE_ROW_INDEX_OFFSET)));
        }
      }
    }
    return Other;
  }

  /** The bounded probe of the kernels. */
  method ProbeQuery(seg: array<byte>, q: Buffer, qlen: nat, h: u64, L: SegmentLayout, bounded: bool, ghost H: HashFn)
    returns (r: int)
    requires WellFormed(L, H, seg[..]) && qlen <= |q| && h == H(q[..qlen])
    ensures r == RawMeaning(L, H, seg[..], q[..qlen])
  {
    hide Bits.And, Bits.Remainder, Bits.Times, WellFormed, Probe, Search, RawMeaning, SlotsOf, Valid;
    ghost var b, id := seg[..], q[..qlen];
    SearchAnswers(L, H, b, id);
    MaskIsHome(L, h);
    var idx := Bits.And(h, L.slotCapacity - 1);
    for n := 0 to L.slotCapacity
      invariant 0 <= idx < L.slotCapacity
      invariant Search(SlotsOf(L, b), h, id) == Probe(SlotsOf(L, b), h, id, idx, L.slotCapacity - n)
    {
      var v := ExamineSlot(seg, q, qlen, h, L, idx, bounded, H, L.slotCapacity - n);
      match v {
        case Empty => return -1;
        case Mine(offset) => return offset;
        case Other =>
      }
      MaskIsSucc(L, idx);
      idx := Bits.And(idx + 1, L.slotCapacity - 1);
    }
    ProbeEnds(SlotsOf(L, b), h, id, idx);
    assert false;
  }

  lemma ProbeEnds(slots: seq<Slot>, h: nat, id: Buffer, at: nat)
    requires at < |slots|
    ensures Probe(slots, h, id, at, 0).Exhausted?
  {
  }

  /** `_lookup_core`: the id hashed in the kernel, then the bounded probe. */
  method LookupCore(seg: array<byte>, encodedId: Buffer, len: nat, L: SegmentLayout, H: HashFn) returns (r: int)
    requires WellFormed(L, H, seg[..]) && len <= |encodedId|
    ensures r == RawMeaning(L, H, seg[..], encodedId[..len])
  {
    r := ProbeQuery(seg, encodedId, len, H(encodedId[..len]), L, true, H);
  }
}
