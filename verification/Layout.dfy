/** Segment geometry: the region offsets `compute_layout` derives from
    `(capacity, max_id_bytes, row_size)`, and their recovery from a segment header. */
module Layout {
  import opened Bits
  import opened Bytes

  const SLOT_BYTES: nat := 24
  const SLOT_NAME_HASH_OFFSET: nat := 0
  const SLOT_ID_OFFSET_OFFSET: nat := 8
  const SLOT_FLAGS_OFFSET: nat := 16
  const SLOT_FEATURE_ROW_INDEX_OFFSET: nat := 20

  const CACHE_LINE_SIZE: nat := 64
  const PAGE_SIZE: nat := 4096
  const CAPACITY_OFFSET: nat := 12
  const METADATA_OFFSET: nat := 16
  const DATA_REGION_OFFSET: nat := 64
  const STRING_POOL_HEADER_BYTES: nat := 8
  const LEN_PREFIX_BYTES: nat := 4
  const MAX_ID_BYTES_CEILING: nat := 65536
  const MAX_TOTAL_SEGMENT_BYTES: nat := 0x10_0000_0000

  datatype LayoutError =
    | BadCapacity
    | BadMaxIdBytes
    | MaxIdBytesAboveCeiling
    | CapacityAboveUint32
    | SegmentTooLarge
    | HeaderCapacityZero
    | HeaderMaxIdBytesZero

  datatype Result<+T> = Ok(value: T) | Err(error: LayoutError)

  datatype SegmentLayout = SegmentLayout(
    capacity: nat,
    slotCapacity: nat,
    maxIdBytes: nat,
    rowSize: nat,
    slotTableOffset: nat,
    poolOffset: nat,
    poolDataOffset: nat,
    poolDataBytes: nat,
    rowsOffset: nat,
    totalSize: nat)

  /** `(value + alignment - 1) & ~(alignment - 1)`. */
  function AlignUp(value: nat, alignment: nat): nat
    requires alignment > 0
  {
    AndNot(value + alignment - 1, alignment - 1)
  }

  /** `1 << (n - 1).bit_length()` for `n > 1`. */
  function NextPow2(n: int): nat
  {
    if n <= 1 then 1 else Pow2(BitLength(n - 1))
  }

  function Product(a: nat, b: nat): nat
  {
    a * b
  }

  lemma ProductIsTimes(n: nat, unit: nat)
    ensures Product(n, unit) == Times(n, unit)
  {
    TimesIsProduct(n, unit);
  }

  function ComputeLayout(capacity: int, maxIdBytes: int, rowSize: nat): Result<SegmentLayout>
  {
    if capacity <= 0 then Err(BadCapacity)
    else if maxIdBytes <= 0 then Err(BadMaxIdBytes)
    else if maxIdBytes > MAX_ID_BYTES_CEILING then Err(MaxIdBytesAboveCeiling)
    else if capacity > 0xFFFF_FFFF then Err(CapacityAboveUint32)
    else
      var slotCapacity := NextPow2(capacity * 2);
      var slotTableEnd := DATA_REGION_OFFSET + slotCapacity * SLOT_BYTES;
      var poolOffset := AlignUp(slotTableEnd, CACHE_LINE_SIZE);
      var poolDataOffset := poolOffset + STRING_POOL_HEADER_BYTES;
      var poolDataBytes := Product(capacity, LEN_PREFIX_BYTES + maxIdBytes);
      var rowsOffset := AlignUp(poolDataOffset + poolDataBytes, CACHE_LINE_SIZE);
      var totalSize := AlignUp(rowsOffset + Product(capacity, rowSize), PAGE_SIZE);
      if totalSize > MAX_TOTAL_SEGMENT_BYTES then Err(SegmentTooLarge)
      else Ok(SegmentLayout(capacity, slotCapacity, maxIdBytes, rowSize, DATA_REGION_OFFSET,
                            poolOffset, poolDataOffset, poolDataBytes, rowsOffset, totalSize))
  }

  /** The layout read back from an existing segment's header bytes. */
  function ComputeLayoutFromSegment(b: Buffer, rowSize: nat): Result<SegmentLayout>
    requires |b| >= DATA_REGION_OFFSET
    requires var capacity := ReadU32(b, CAPACITY_OFFSET);
             capacity > 0 ==> HeaderPoolOffset(capacity) + 4 <= |b|
  {
    var capacity := ReadU32(b, CAPACITY_OFFSET);
    if capacity == 0 then Err(HeaderCapacityZero)
    else
      var maxIdBytes := ReadU32(b, HeaderPoolOffset(capacity));
      if maxIdBytes == 0 then Err(HeaderMaxIdBytesZero)
      else ComputeLayout(capacity, maxIdBytes, rowSize)
  }

  function HeaderPoolOffset(capacity: nat): nat
  {
    AlignUp(DATA_REGION_OFFSET + NextPow2(capacity * 2) * SLOT_BYTES, CACHE_LINE_SIZE)
  }

  /** What every later module relies on: the regions follow one another without
      overlap, lie inside the segment, and the slot table is a power of two at least
      twice the capacity. */
  ghost predicate Valid(L: SegmentLayout)
  {
    && 1 <= L.capacity < U32_LIMIT
    && 1 <= L.maxIdBytes <= MAX_ID_BYTES_CEILING
    && IsPow2(L.slotCapacity)
    && 2 * L.capacity <= L.slotCapacity
    && L.slotTableOffset == DATA_REGION_OFFSET
    && L.slotTableOffset + SLOT_BYTES * L.slotCapacity <= L.poolOffset
    && L.poolDataOffset == L.poolOffset + STRING_POOL_HEADER_BYTES
    && L.poolDataBytes == Times(L.capacity, LEN_PREFIX_BYTES + L.maxIdBytes)
    && L.poolDataOffset + L.poolDataBytes <= L.rowsOffset
    && L.rowsOffset + Times(L.capacity, L.rowSize) <= L.totalSize
    && L.totalSize <= MAX_TOTAL_SEGMENT_BYTES
  }

  lemma AlignUpIs(value: nat, k: nat)
    ensures var a := Pow2(k); AlignUp(value, a) == value + a - 1 - (value + a - 1) % a
  {
    AndNotMask(value + Pow2(k) - 1, k);
  }

  lemma LeastMultiple(value: nat, a: nat, m: nat)
    requires a > 0
    ensures var r := value + a - 1 - (value + a - 1) % a;
            r % a == 0 && value <= r && (m % a == 0 && m >= value ==> r <= m)
  {
    var x := value + a - 1;
    MultipleBelow(x, a);
    if m % a == 0 && m >= value {
      MultiplesApart(m, x - x % a, a);
    }
  }

  /** The alignment mask yields the least multiple at or above `value`. */
  lemma AlignUpLeast(value: nat, k: nat, m: nat)
    ensures var a := Pow2(k); var r := AlignUp(value, a);
            r % a == 0 && r >= value && (m % a == 0 && m >= value ==> r <= m)
  {
    AlignUpIs(value, k);
    LeastMultiple(value, Pow2(k), m);
  }

  lemma MultipleBelow(x: nat, a: nat)
    requires a > 0
    ensures (x - x % a) % a == 0 && x - x % a + a > x
  {
    assert x - x % a == a * (x / a);
    ModIs(x - x % a, a, x / a, 0);
  }

  lemma MultiplesApart(m: nat, r: nat, a: nat)
    requires a > 0 && m % a == 0 && r % a == 0 && r < m + a
    ensures r <= m
  {
    var d := r / a - m / a;
    assert a * d == r - m;
    MulGrows(a, d);
  }

  lemma AlignUpBounds(value: nat, alignment: nat)
    requires IsPow2(alignment)
    ensures value <= AlignUp(value, alignment) && AlignUp(value, alignment) % alignment == 0
  {
    var k: nat :| Pow2(k) == alignment;
    AlignUpLeast(value, k, value);
  }

  /** `_next_pow2` is the least power of two at or above `n`. */
  lemma NextPow2Least(n: int)
    ensures IsPow2(NextPow2(n)) && NextPow2(n) >= n
    ensures forall j: nat :: Pow2(j) >= n ==> NextPow2(n) <= Pow2(j)
  {
    if n <= 1 {
      assert Pow2(0) == 1;
    } else {
      BitLengthBounds(n - 1);
      var w := BitLength(n - 1);
      forall j: nat | Pow2(j) >= n
        ensures Pow2(w) <= Pow2(j)
      {
        if j < w {
          Pow2Monotone(j, w - 1);
          assert false;
        }
        Pow2Monotone(w, j);
      }
    }
  }

  lemma LineAndPagePowers()
    ensures Pow2(6) == CACHE_LINE_SIZE && Pow2(12) == PAGE_SIZE
    ensures IsPow2(CACHE_LINE_SIZE) && IsPow2(PAGE_SIZE)
  {
    assert Pow2(3) == 8;
    assert Pow2(6) == 8 * Pow2(3);
    assert Pow2(9) == 8 * Pow2(6);
    assert Pow2(12) == 8 * Pow2(9);
  }

  lemma SlotRegionFits(capacity: nat)
    ensures var n := NextPow2(capacity * 2);
            IsPow2(n) && 2 * capacity <= n
            && DATA_REGION_OFFSET + SLOT_BYTES * n <= HeaderPoolOffset(capacity)
            && HeaderPoolOffset(capacity) % CACHE_LINE_SIZE == 0
  {
    NextPow2Least(capacity * 2);
    LineAndPagePowers();
    AlignUpBounds(DATA_REGION_OFFSET + NextPow2(capacity * 2) * SLOT_BYTES, CACHE_LINE_SIZE);
  }

  lemma AlignToLine(v: nat)
    ensures v <= AlignUp(v, CACHE_LINE_SIZE) && AlignUp(v, CACHE_LINE_SIZE) % CACHE_LINE_SIZE == 0
    ensures v <= AlignUp(v, PAGE_SIZE) && AlignUp(v, PAGE_SIZE) % PAGE_SIZE == 0
  {
    LineAndPagePowers();
    AlignUpBounds(v, CACHE_LINE_SIZE);
    AlignUpBounds(v, PAGE_SIZE);
  }

  /** The fields of an accepted layout, each as an alignment of what precedes it. */
  lemma LayoutFields(capacity: int, maxIdBytes: int, rowSize: nat)
    requires ComputeLayout(capacity, maxIdBytes, rowSize).Ok?
    ensures var L := ComputeLayout(capacity, maxIdBytes, rowSize).value;
            && 1 <= capacity <= 0xFFFF_FFFF && 1 <= maxIdBytes <= MAX_ID_BYTES_CEILING
            && L == SegmentLayout(capacity, NextPow2(capacity * 2), maxIdBytes, rowSize, DATA_REGION_OFFSET,
                                  HeaderPoolOffset(capacity), L.poolOffset + STRING_POOL_HEADER_BYTES,
                                  Product(capacity, LEN_PREFIX_BYTES + maxIdBytes),
                                  AlignUp(L.poolDataOffset + L.poolDataBytes, CACHE_LINE_SIZE),
                                  AlignUp(L.rowsOffset + Product(capacity, rowSize), PAGE_SIZE))
            && L.totalSize <= MAX_TOTAL_SEGMENT_BYTES
  {
  }

  /** Every layout `compute_layout` accepts has disjoint in-bounds regions; the row
      region and the pool header start on a cache line and the total is whole pages. */
  lemma ComputeLayoutValid(capacity: int, maxIdBytes: int, rowSize: nat)
    requires ComputeLayout(capacity, maxIdBytes, rowSize).Ok?
    ensures var L := ComputeLayout(capacity, maxIdBytes, rowSize).value;
            && Valid(L)
            && L.capacity == capacity && L.maxIdBytes == maxIdBytes && L.rowSize == rowSize
            && L.poolOffset % CACHE_LINE_SIZE == 0
            && L.rowsOffset % CACHE_LINE_SIZE == 0
            && L.totalSize % PAGE_SIZE == 0
  {
    hide ComputeLayout, AlignUp, NextPow2, Times, Product, Pow2, IsPow2;
    var L := ComputeLayout(capacity, maxIdBytes, rowSize).value;
    LayoutFields(capacity, maxIdBytes, rowSize);
    SlotRegionFits(capacity);
    ProductIsTimes(capacity, LEN_PREFIX_BYTES + maxIdBytes);
    ProductIsTimes(capacity, rowSize);
    AlignToLine(L.poolDataOffset + L.poolDataBytes);
    AlignToLine(L.rowsOffset + Times(capacity, rowSize));
  }

  /** `L` is a segment geometry for this capacity, id size and row size, with the pool and the
      rows on cache lines and whole pages in all. */
  ghost predicate Geometry(L: SegmentLayout, capacity: int, maxIdBytes: int, rowSize: nat)
  {
    && Valid(L) && L.capacity == capacity && L.maxIdBytes == maxIdBytes && L.rowSize == rowSize
    && L.poolOffset % CACHE_LINE_SIZE == 0 && L.rowsOffset % CACHE_LINE_SIZE == 0 && L.totalSize % PAGE_SIZE == 0
  }

  /** Every boundary of `A` is at or before that of `B`. */
  predicate AtMost(A: SegmentLayout, B: SegmentLayout)
  {
    && A.slotCapacity <= B.slotCapacity && A.slotTableOffset <= B.slotTableOffset && A.poolOffset <= B.poolOffset
    && A.poolDataOffset <= B.poolDataOffset && A.poolDataBytes <= B.poolDataBytes
    && A.rowsOffset <= B.rowsOffset && A.totalSize <= B.totalSize
  }

  lemma AlignedAbove(value: nat, k: nat, m: nat)
    requires value <= m && m % Pow2(k) == 0
    ensures AlignUp(value, Pow2(k)) <= m
  {
    AlignUpLeast(value, k, m);
  }

  /** Regions that start as early as alignment lets them are before those of any geometry. */
  lemma EarliestRegions(L: SegmentLayout, slots: nat, poolBytes: nat, rowBytes: nat)
    requires slots <= L.slotCapacity && DATA_REGION_OFFSET + SLOT_BYTES * L.slotCapacity <= L.poolOffset
    requires L.poolOffset + STRING_POOL_HEADER_BYTES + poolBytes <= L.rowsOffset
    requires L.rowsOffset + rowBytes <= L.totalSize
    requires L.poolOffset % CACHE_LINE_SIZE == 0 && L.rowsOffset % CACHE_LINE_SIZE == 0 && L.totalSize % PAGE_SIZE == 0
    ensures var pool := AlignUp(DATA_REGION_OFFSET + slots * SLOT_BYTES, CACHE_LINE_SIZE);
            var rows := AlignUp(pool + STRING_POOL_HEADER_BYTES + poolBytes, CACHE_LINE_SIZE);
            pool <= L.poolOffset && rows <= L.rowsOffset && AlignUp(rows + rowBytes, PAGE_SIZE) <= L.totalSize
  {
    hide AlignUp, Pow2, IsPow2;
    LineAndPagePowers();
    var slotEnd := DATA_REGION_OFFSET + slots * SLOT_BYTES;
    AlignedAbove(slotEnd, 6, L.poolOffset);
    var pool := AlignUp(slotEnd, CACHE_LINE_SIZE);
    AlignedAbove(pool + STRING_POOL_HEADER_BYTES + poolBytes, 6, L.rowsOffset);
    var rows := AlignUp(pool + STRING_POOL_HEADER_BYTES + poolBytes, CACHE_LINE_SIZE);
    AlignedAbove(rows + rowBytes, 12, L.totalSize);
  }

  /** What `compute_layout` makes of inputs within the bounds, if it is not too large. */
  lemma LayoutWithin(capacity: nat, maxIdBytes: nat, rowSize: nat)
    requires 1 <= capacity < U32_LIMIT && 1 <= maxIdBytes <= MAX_ID_BYTES_CEILING
    ensures var poolBytes, rowBytes := Times(capacity, LEN_PREFIX_BYTES + maxIdBytes), Times(capacity, rowSize);
            var slots := NextPow2(capacity * 2);
            var pool := AlignUp(DATA_REGION_OFFSET + slots * SLOT_BYTES, CACHE_LINE_SIZE);
            var rows := AlignUp(pool + STRING_POOL_HEADER_BYTES + poolBytes, CACHE_LINE_SIZE);
            var total := AlignUp(rows + rowBytes, PAGE_SIZE);
            ComputeLayout(capacity, maxIdBytes, rowSize) ==
              if total > MAX_TOTAL_SEGMENT_BYTES then Err(SegmentTooLarge)
              else Ok(SegmentLayout(capacity, slots, maxIdBytes, rowSize, DATA_REGION_OFFSET, pool,
                                    pool + STRING_POOL_HEADER_BYTES, poolBytes, rows, total))
  {
    hide AlignUp, NextPow2, Times, Product;
    ProductIsTimes(capacity, LEN_PREFIX_BYTES + maxIdBytes);
    ProductIsTimes(capacity, rowSize);
  }

  lemma LeastSlots(n: int, slots: nat)
    requires IsPow2(slots) && n <= slots
    ensures NextPow2(n) <= slots
  {
    hide NextPow2, Pow2;
    NextPow2Least(n);
    var k: nat :| Pow2(k) == slots;
    assert NextPow2(n) <= Pow2(k);
  }

  /** If any geometry exists the code accepts, and its own is the smallest. */
  lemma LeastGeometry(capacity: int, maxIdBytes: int, rowSize: nat, L: SegmentLayout)
    requires Geometry(L, capacity, maxIdBytes, rowSize)
    ensures ComputeLayout(capacity, maxIdBytes, rowSize).Ok?
    ensures AtMost(ComputeLayout(capacity, maxIdBytes, rowSize).value, L)
  {
    hide AlignUp, NextPow2, Pow2, Times, ComputeLayout, IsPow2, Product;
    var slots := NextPow2(capacity * 2);
    LeastSlots(capacity * 2, L.slotCapacity);
    LayoutWithin(capacity, maxIdBytes, rowSize);
    EarliestRegions(L, slots, Times(capacity, LEN_PREFIX_BYTES + maxIdBytes), Times(capacity, rowSize));
  }

  /** Which inputs are accepted: exactly those for which a geometry exists; and which error the
      others get. */
  lemma ComputeLayoutAccepts(capacity: int, maxIdBytes: int, rowSize: nat)
    ensures var r := ComputeLayout(capacity, maxIdBytes, rowSize);
            && (r.Ok? <==> exists L :: Geometry(L, capacity, maxIdBytes, rowSize))
            && (r == Err(BadCapacity) <==> capacity <= 0)
            && (r == Err(BadMaxIdBytes) <==> capacity >= 1 && maxIdBytes <= 0)
            && (r == Err(MaxIdBytesAboveCeiling) <==> capacity >= 1 && maxIdBytes > 65536)
            && (r == Err(CapacityAboveUint32) <==> capacity >= 0x1_0000_0000 && 1 <= maxIdBytes <= 65536)
            && (r == Err(SegmentTooLarge) <==>
                  && 1 <= capacity < 0x1_0000_0000 && 1 <= maxIdBytes <= 65536
                  && !exists L :: Geometry(L, capacity, maxIdBytes, rowSize))
  {
    var r := ComputeLayout(capacity, maxIdBytes, rowSize);
    if r.Ok? {
      ComputeLayoutValid(capacity, maxIdBytes, rowSize);
      assert Geometry(r.value, capacity, maxIdBytes, rowSize);
    }
    if L :| Geometry(L, capacity, maxIdBytes, rowSize) {
      LeastGeometry(capacity, maxIdBytes, rowSize, L);
    }
  }

  lemma AlignUpTo(value: nat, k: nat, r: nat)
    requires r % Pow2(k) == 0 && value <= r < value + Pow2(k)
    ensures AlignUp(value, Pow2(k)) == r
  {
    var a := Pow2(k);
    AlignUpLeast(value, k, r);
    var x := AlignUp(value, a);
    hide AlignUp, Pow2;
    MultiplesApart(r, x, a);
    MultiplesApart(x, r, a);
  }

  lemma SlotsForExample()
    ensures NextPow2(200_000) == 262_144
  {
    LineAndPagePowers();
    assert Pow2(15) == 8 * Pow2(12);
    assert Pow2(17) == 4 * Pow2(15) && Pow2(18) == 2 * Pow2(17);
    NextPow2Least(200_000);
    var n := NextPow2(200_000);
    var k: nat :| Pow2(k) == n;
    hide NextPow2;
    if k <= 17 {
      Pow2Monotone(k, 17);
    } else {
      Pow2Monotone(18, k);
    }
  }

  /** A hundred thousand entities with ids of up to 64 bytes and rows of 64 bytes. */
  lemma ExampleLayout()
    ensures ComputeLayout(100_000, 64, 64) ==
              Ok(SegmentLayout(100_000, 262_144, 64, 64, 64, 6_291_520, 6_291_528, 6_800_000, 13_091_584, 19_492_864))
  {
    LineAndPagePowers();
    SlotsForExample();
    hide Pow2, NextPow2;
    AlignUpTo(6_291_520, 6, 6_291_520);
    AlignUpTo(13_091_528, 6, 13_091_584);
    AlignUpTo(19_491_584, 12, 19_492_864);
    hide AlignUp;
  }

  /** A segment whose header holds the creating capacity and `max_id_bytes` yields the
      creating layout again. */
  lemma RecoverLayout(capacity: int, maxIdBytes: int, rowSize: nat, b: Buffer)
    requires ComputeLayout(capacity, maxIdBytes, rowSize).Ok?
    requires var L := ComputeLayout(capacity, maxIdBytes, rowSize).value;
             |b| == L.totalSize && L.totalSize >= L.poolOffset + 4 && L.totalSize >= DATA_REGION_OFFSET
             && ReadU32(b, CAPACITY_OFFSET) == capacity && ReadU32(b, L.poolOffset) == maxIdBytes
    ensures ComputeLayoutFromSegment(b, rowSize) == ComputeLayout(capacity, maxIdBytes, rowSize)
  {
    ComputeLayoutValid(capacity, maxIdBytes, rowSize);
  }
}
