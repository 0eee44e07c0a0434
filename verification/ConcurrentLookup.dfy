/** Lock-free lookups racing the single writer. Every read of a lookup (flags, hash, pool
    offset, id length, id bytes, row index) and every write of an insert is a separate
    step on one shared buffer; the steps interleave freely, and the writer may die between
    any two of its steps and be replaced. */
module ConcurrentLookup {
  import Bits
  import opened Bytes
  import opened Layout
  import opened SlotTable
  import opened Segment
  import opened SegmentInsert
  import opened SlotWords
  import opened Upsert
  import opened CrashSafety

  // ---------------------------------------------------------------------------
  // The reader
  // ---------------------------------------------------------------------------

  /** Program points of one lookup; `n` counts slots already passed. */
  datatype Reader =
    | Probing(idx: nat, n: nat)
    | SawOccupied(idx: nat, n: nat)
    | SawHash(idx: nat, n: nat)
    | SawOffset(idx: nat, n: nat, idOff: nat)
    | SawLength(idx: nat, n: nat, idOff: nat, len: nat)
    | SawId(idx: nat, n: nat)
    | Found(offset: nat)
    | Missing
    | Corrupt

  predicate AtSlot(r: Reader)
  {
    !r.Found? && !r.Missing? && !r.Corrupt?
  }

  datatype Query = Query(h: u64, id: Buffer)

  function Passed(L: SegmentLayout, idx: nat, n: nat): Reader
    requires idx < L.slotCapacity
  {
    Probing(Succ(idx, L.slotCapacity), n + 1)
  }

  predicate InSegment(L: SegmentLayout, x: Buffer, r: Reader)
  {
    && L.poolOffset <= |x| && SlotOff(L, L.slotCapacity) <= L.poolOffset
    && (AtSlot(r) ==> r.idx < L.slotCapacity)
  }

  /** One read of the shared buffer. */
  function ReaderStep(L: SegmentLayout, q: Query, x: Buffer, r: Reader): Reader
  {
    if !InSegment(L, x, r) then Corrupt
    else
    match r
    case Probing(idx, n) =>
      if n >= L.slotCapacity then Missing
      else
        var flags := ReadU32(x, SlotOff(L, idx) + SLOT_FLAGS_OFFSET);
        if flags == 0 then Missing
        else if flags == OCCUPIED then SawOccupied(idx, n)
        else Passed(L, idx, n)
    case SawOccupied(idx, n) =>
      if ReadU64(x, SlotOff(L, idx) + SLOT_NAME_HASH_OFFSET) == q.h then SawHash(idx, n) else Passed(L, idx, n)
    case SawHash(idx, n) =>
      SawOffset(idx, n, ReadU64(x, SlotOff(L, idx) + SLOT_ID_OFFSET_OFFSET))
    case SawOffset(idx, n, idOff) =>
      if L.poolDataOffset + idOff + LEN_PREFIX_BYTES > |x| then Corrupt
      else
        var len := ReadU32(x, L.poolDataOffset + idOff);
        if len > L.maxIdBytes then Corrupt else SawLength(idx, n, idOff, len)
    case SawLength(idx, n, idOff, len) =>
      var start := L.poolDataOffset + idOff + LEN_PREFIX_BYTES;
      if start + len > |x| then Corrupt
      else if x[start..start + len] == q.id then SawId(idx, n)
      else Passed(L, idx, n)
    case SawId(idx, n) =>
      Found(RowOff(L, ReadU32(x, SlotOff(L, idx) + SLOT_FEATURE_ROW_INDEX_OFFSET)))
    case Found(_) => r
    case Missing => r
    case Corrupt => r
  }

  // ---------------------------------------------------------------------------
  // The writer
  // ---------------------------------------------------------------------------

  /** Idle, or `k` whole writes and `j` bytes into the insert of `id` begun on `base`. */
  datatype Writer = Idle | Inserting(base: Buffer, e: nat, id: Buffer, row: Buffer, k: nat, j: nat)

  datatype State = State(buf: Buffer, writer: Writer, reader: Reader)

  ghost predicate WriterOk(L: SegmentLayout, H: HashFn, x: Buffer, w: Writer)
  {
    match w
    case Idle => WellFormed(L, H, x)
    case Inserting(base, e, id, row, k, j) =>
      CrashPoint(L, H, base, e, id, row, k, j) && x == CrashedBytes(L, base, e, H(id), id, row, k, j)
  }

  ghost predicate Later(k: nat, j: nat, k': nat, j': nat)
  {
    k < k' || (k == k' && j <= j')
  }

  /** Begin an insert of a new id; advance it by any amount; stop, because it is finished or
      because the writer died there and another takes over the buffer as it is; or copy part
      of a new row over a stored one. */
  ghost predicate WriterStep(L: SegmentLayout, H: HashFn, x: Buffer, w: Writer, x': Buffer, w': Writer)
  {
    || (w.Idle? && w'.Inserting? && x' == x && w'.base == x && w'.k == 0 && w'.j == 0
        && CrashPoint(L, H, x, w'.e, w'.id, w'.row, 0, 0))
    || (w.Inserting? && w'.Inserting? && w' == w.(k := w'.k, j := w'.j)
        && Later(w.k, w.j, w'.k, w'.j) && WriterOk(L, H, x', w'))
    || (w.Inserting? && w'.Idle? && x' == x)
    || (w.Idle? && w'.Idle? && RowCopy(L, H, x, x'))
  }

  ghost predicate RowCopy(L: SegmentLayout, H: HashFn, x: Buffer, x': Buffer)
  {
    WellFormed(L, H, x) && exists id: Buffer, row: Buffer, j: nat :: CopiesRow(L, H, x, x', id, row, j)
  }

  ghost predicate CopiesRow(L: SegmentLayout, H: HashFn, x: Buffer, x': Buffer, id: Buffer, row: Buffer, j: nat)
    requires WellFormed(L, H, x)
  {
    && id in RowMap(L, H, x) && |row| == L.rowSize && j <= |row|
    && RowOff(L, RowMap(L, H, x)[id]) + L.rowSize <= |x|
    && x' == Splice(x, RowOff(L, RowMap(L, H, x)[id]), row[..j])
  }

  // ---------------------------------------------------------------------------
  // What the writer guarantees
  // ---------------------------------------------------------------------------

  /** Published slots stay as they are. */
  ghost predicate Extends(L: SegmentLayout, H: HashFn, b: Buffer, x: Buffer)
  {
    && WellFormed(L, H, b) && WellFormed(L, H, x)
    && forall i {:trigger SlotsOf(L, x)[i]} :: 0 <= i < L.slotCapacity && SlotsOf(L, b)[i].Taken?
         ==> SlotsOf(L, x)[i] == SlotsOf(L, b)[i]
  }

  lemma CrashedSlots(L: SegmentLayout, H: HashFn, b: Buffer, e: nat, id: Buffer, row: Buffer, k: nat, j: nat)
    requires CrashPoint(L, H, b, e, id, row, k, j)
    ensures var x := CrashedBytes(L, b, e, H(id), id, row, k, j);
            && WellFormed(L, H, x)
            && e < L.slotCapacity && SlotsOf(L, b)[e].Vacant?
            && SlotsOf(L, x) == (if BeforePublication(k, j) then SlotsOf(L, b)
                                 else SlotsOf(L, b)[e := Taken(H(id), id, PoolCursor(b), NextRow(b))])
  {
    hide Encode, Decode, Probe, CrashedBytes, InsertWrites, TableOk, Bits.Times, SameVisible, CursorsAhead;
    hide InsertedBytes;
    var x := CrashedBytes(L, b, e, H(id), id, row, k, j);
    assert |SlotsOf(L, b)| == L.slotCapacity;
    if BeforePublication(k, j) {
      CutVisible(L, H, b, e, id, row, k, j);
      CutCursorsAhead(L, H, b, e, id, row, k, j);
      InvisibleWellFormed(L, H, b, x, e);
    } else {
      CrashAfterPublication(L, H, b, e, id, row, k, j);
      InsertedWellFormed(L, H, b, e, id, row);
      InsertedTable(L, H, b, e, id, row);
    }
  }

  lemma WriterOkWellFormed(L: SegmentLayout, H: HashFn, x: Buffer, w: Writer)
    requires WriterOk(L, H, x, w)
    ensures WellFormed(L, H, x)
  {
    if w.Inserting? {
      CrashedSlots(L, H, w.base, w.e, w.id, w.row, w.k, w.j);
    }
  }

  /** Every writer step keeps the writer's own invariant and every published slot. */
  lemma WriterStepExtends(L: SegmentLayout, H: HashFn, x: Buffer, w: Writer, x': Buffer, w': Writer)
    requires WriterOk(L, H, x, w) && WriterStep(L, H, x, w, x', w')
    ensures WriterOk(L, H, x', w') && Extends(L, H, x, x')
  {
    hide Encode, Decode, Probe, CrashedBytes, InsertWrites, TableOk, Bits.Times, WellFormed, SlotAt, CrashPoint;
    WriterOkWellFormed(L, H, x, w);
    if w.Idle? && w'.Idle? {
      var id, row, j :| CopiesRow(L, H, x, x', id, row, j);
      CrashedUpdate(L, H, x, id, row, j);
      RowCopyKeepsSlots(L, H, x, x', id, row, j);
    } else if w.Idle? {
      EmptyCrash(L, H, x, w'.e, w'.id, w'.row);
    } else {
      CrashedSlots(L, H, w.base, w.e, w.id, w.row, w.k, w.j);
      if w'.Inserting? {
        CrashedSlots(L, H, w.base, w.e, w.id, w.row, w'.k, w'.j);
      }
    }
  }

  lemma EmptyCrash(L: SegmentLayout, H: HashFn, x: Buffer, e: nat, id: Buffer, row: Buffer)
    requires CrashPoint(L, H, x, e, id, row, 0, 0)
    ensures CrashedBytes(L, x, e, H(id), id, row, 0, 0) == x
  {
  }

  lemma RowCopyKeepsSlots(L: SegmentLayout, H: HashFn, x: Buffer, x': Buffer, id: Buffer, row: Buffer, j: nat)
    requires WellFormed(L, H, x) && CopiesRow(L, H, x, x', id, row, j)
    ensures Sized(L, x') && SlotsOf(L, x') == SlotsOf(L, x)
  {
    hide Encode, Decode, Probe, TableOk, Bits.Times, StoredId, Entries;
    var off := RowOff(L, RowMap(L, H, x)[id]);
    SpliceOutside(x, off, row[..j], 0, L.rowsOffset);
    assert x'[..L.rowsOffset] == x[..L.rowsOffset];
    TableBelowRows(L, H, x, x');
  }

  // ---------------------------------------------------------------------------
  // What the reader knows
  // ---------------------------------------------------------------------------

  /** If the id was stored when the lookup began, its slot still lies ahead. */
  ghost predicate StillAhead(L: SegmentLayout, H: HashFn, q: Query, start: Buffer, idx: nat, n: nat)
    requires WellFormed(L, H, start)
  {
    && idx < L.slotCapacity && n <= L.slotCapacity
    && (q.id in RowMap(L, H, start) ==>
          Probe(SlotsOf(L, start), q.h, q.id, idx, L.slotCapacity - n) == Search(SlotsOf(L, start), q.h, q.id))
  }

  ghost predicate AtTaken(L: SegmentLayout, H: HashFn, q: Query, start: Buffer, x: Buffer, idx: nat, n: nat)
    requires WellFormed(L, H, start) && WellFormed(L, H, x)
  {
    StillAhead(L, H, q, start, idx, n) && n < L.slotCapacity && SlotsOf(L, x)[idx].Taken?
  }

  ghost predicate ReaderOk(L: SegmentLayout, H: HashFn, q: Query, start: Buffer, x: Buffer, r: Reader)
    requires WellFormed(L, H, start) && WellFormed(L, H, x)
  {
    match r
    case Probing(idx, n) => StillAhead(L, H, q, start, idx, n)
    case SawOccupied(idx, n) => AtTaken(L, H, q, start, x, idx, n)
    case SawHash(idx, n) => AtTaken(L, H, q, start, x, idx, n) && SlotsOf(L, x)[idx].hash == q.h
    case SawOffset(idx, n, idOff) =>
      && AtTaken(L, H, q, start, x, idx, n) && SlotsOf(L, x)[idx].hash == q.h
      && SlotsOf(L, x)[idx].idOff == idOff
    case SawLength(idx, n, idOff, len) =>
      && AtTaken(L, H, q, start, x, idx, n) && SlotsOf(L, x)[idx].hash == q.h
      && SlotsOf(L, x)[idx].idOff == idOff && |SlotsOf(L, x)[idx].id| == len
    case SawId(idx, n) => AtTaken(L, H, q, start, x, idx, n) && SlotsOf(L, x)[idx].id == q.id
    case Found(offset) => q.id in RowMap(L, H, x) && offset == RowOff(L, RowMap(L, H, x)[q.id])
    case Missing => q.id !in RowMap(L, H, start)
    case Corrupt => false
  }

  /** A writer step disturbs nothing the reader has learned. */
  lemma ReaderOkKept(L: SegmentLayout, H: HashFn, q: Query, start: Buffer, x: Buffer, x': Buffer, r: Reader)
    requires WellFormed(L, H, start) && Extends(L, H, x, x') && ReaderOk(L, H, q, start, x, r)
    ensures ReaderOk(L, H, q, start, x', r)
  {
    hide Encode, Decode, Probe, TableOk, SlotAt, Entries, Search;
    if r.Found? {
      MapWellDefined(L, H, x);
      MapWellDefined(L, H, x');
      var i := SlotOfEntry(SlotsOf(L, x), q.id);
      assert SlotsOf(L, x')[i] == SlotsOf(L, x)[i];
      EntryOf(SlotsOf(L, x'), i);
    } else if !r.Missing? && !r.Corrupt? && !r.Probing? {
      assert SlotsOf(L, x')[r.idx] == SlotsOf(L, x)[r.idx];
    }
  }

  /** Passing a published slot that does not hold the id leaves the id's slot ahead. */
  lemma PassKeepsAhead(L: SegmentLayout, H: HashFn, q: Query, start: Buffer, x: Buffer, idx: nat, n: nat)
    requires Extends(L, H, start, x) && q.h == H(q.id) && AtTaken(L, H, q, start, x, idx, n)
    requires var s := SlotsOf(L, x)[idx]; !(s.hash == q.h && s.id == q.id)
    ensures StillAhead(L, H, q, start, Succ(idx, L.slotCapacity), n + 1)
  {
    hide Encode, Decode, SlotAt, Entries, Bits.Times, StoredId;
    SearchIsMembership(TableOf(L, start), H, L.capacity, L.maxIdBytes, q.id);
    var was := SlotsOf(L, start)[idx];
    assert SlotOk(was, TableOf(L, start), H, L.maxIdBytes);
    assert was.Taken? ==> SlotsOf(L, x)[idx] == was;
  }

  lemma MissAtVacant(L: SegmentLayout, H: HashFn, q: Query, start: Buffer, x: Buffer, idx: nat, n: nat)
    requires Extends(L, H, start, x) && q.h == H(q.id) && StillAhead(L, H, q, start, idx, n)
    requires n < L.slotCapacity ==> SlotsOf(L, x)[idx].Vacant?
    ensures q.id !in RowMap(L, H, start)
  {
    hide Encode, Decode, SlotAt, Entries, Bits.Times, StoredId;
    SearchIsMembership(TableOf(L, start), H, L.capacity, L.maxIdBytes, q.id);
    if n < L.slotCapacity {
      var was := SlotsOf(L, start)[idx];
      assert SlotOk(was, TableOf(L, start), H, L.maxIdBytes);
      var now := SlotsOf(L, x)[idx];
      assert !was.Taken?;
    }
  }

  lemma ReadBounds(L: SegmentLayout, H: HashFn, x: Buffer)
    requires WellFormed(L, H, x)
    ensures |x| == L.totalSize && L.poolOffset <= |x| && SlotOff(L, L.slotCapacity) <= L.poolOffset
  {
  }

  lemma FlagReadOk(L: SegmentLayout, H: HashFn, q: Query, start: Buffer, x: Buffer, r: Reader)
    requires WellFormed(L, H, start) && WellFormed(L, H, x) && Extends(L, H, start, x)
    requires q.h == H(q.id) && ReaderOk(L, H, q, start, x, r) && r.Probing?
    ensures ReaderOk(L, H, q, start, x, ReaderStep(L, q, x, r))
  {
    hide Decode, Encode, Probe, TableOk, SlotAt, Entries, Search, Bits.Times, StillAhead, Extends, RowMap;
    ReadBounds(L, H, x);
    AheadInRange(L, H, q, start, r.idx, r.n);
    if r.n < L.slotCapacity {
      FlagsDecide(L, H, x, r.idx);
    }
    if r.n >= L.slotCapacity || SlotsOf(L, x)[r.idx].Vacant? {
      MissAtVacant(L, H, q, start, x, r.idx, r.n);
    }
  }

  lemma FieldReadOk(L: SegmentLayout, H: HashFn, q: Query, start: Buffer, x: Buffer, r: Reader)
    requires WellFormed(L, H, start) && WellFormed(L, H, x) && Extends(L, H, start, x)
    requires q.h == H(q.id) && ReaderOk(L, H, q, start, x, r) && (r.SawOccupied? || r.SawHash? || r.SawId?)
    ensures ReaderOk(L, H, q, start, x, ReaderStep(L, q, x, r))
  {
    hide Decode, Encode, Probe, TableOk, SlotAt, Entries, Search, Bits.Times, StillAhead, Extends, RowMap;
    ReadBounds(L, H, x);
    AheadInRange(L, H, q, start, r.idx, r.n);
    TakenFields(L, H, x, r.idx);
    if r.SawOccupied? && SlotsOf(L, x)[r.idx].hash != q.h {
      PassKeepsAhead(L, H, q, start, x, r.idx, r.n);
    }
    if r.SawId? {
      RowOfTaken(L, H, x, r.idx);
    }
  }

  lemma EntryReadOk(L: SegmentLayout, H: HashFn, q: Query, start: Buffer, x: Buffer, r: Reader)
    requires WellFormed(L, H, start) && WellFormed(L, H, x) && Extends(L, H, start, x)
    requires q.h == H(q.id) && ReaderOk(L, H, q, start, x, r) && (r.SawOffset? || r.SawLength?)
    ensures ReaderOk(L, H, q, start, x, ReaderStep(L, q, x, r))
  {
    hide Decode, Encode, Probe, TableOk, SlotAt, Entries, Search, Bits.Times, StillAhead, Extends, RowMap;
    ReadBounds(L, H, x);
    AheadInRange(L, H, q, start, r.idx, r.n);
    TakenFields(L, H, x, r.idx);
    if r.SawLength? && SlotsOf(L, x)[r.idx].id != q.id {
      PassKeepsAhead(L, H, q, start, x, r.idx, r.n);
    }
  }

  /** A read step keeps the reader's invariant. */
  lemma ReaderStepOk(L: SegmentLayout, H: HashFn, q: Query, start: Buffer, x: Buffer, r: Reader)
    requires WellFormed(L, H, start) && WellFormed(L, H, x) && Extends(L, H, start, x)
    requires q.h == H(q.id) && ReaderOk(L, H, q, start, x, r)
    ensures ReaderOk(L, H, q, start, x, ReaderStep(L, q, x, r))
  {
    if r.Probing? {
      FlagReadOk(L, H, q, start, x, r);
    } else if r.SawOffset? || r.SawLength? {
      EntryReadOk(L, H, q, start, x, r);
    } else if r.SawOccupied? || r.SawHash? || r.SawId? {
      FieldReadOk(L, H, q, start, x, r);
    } else {
      hide WellFormed, RowMap, Extends;
    }
  }

  lemma AheadInRange(L: SegmentLayout, H: HashFn, q: Query, start: Buffer, idx: nat, n: nat)
    requires WellFormed(L, H, start) && StillAhead(L, H, q, start, idx, n)
    ensures idx < L.slotCapacity && n <= L.slotCapacity && SlotOff(L, idx) + SLOT_BYTES <= L.totalSize
  {
  }

  lemma RowOfTaken(L: SegmentLayout, H: HashFn, x: Buffer, i: nat)
    requires WellFormed(L, H, x) && i < L.slotCapacity && SlotsOf(L, x)[i].Taken?
    ensures SlotsOf(L, x)[i].id in RowMap(L, H, x)
    ensures RowMap(L, H, x)[SlotsOf(L, x)[i].id] == SlotsOf(L, x)[i].row
  {
    MapWellDefined(L, H, x);
    EntryOf(SlotsOf(L, x), i);
  }

  // ---------------------------------------------------------------------------
  // Runs
  // ---------------------------------------------------------------------------

  ghost predicate Step(L: SegmentLayout, H: HashFn, q: Query, s: State, t: State)
  {
    || (WriterStep(L, H, s.buf, s.writer, t.buf, t.writer) && t.reader == s.reader)
    || (t.buf == s.buf && t.writer == s.writer && t.reader == ReaderStep(L, q, s.buf, s.reader))
  }

  /** Any interleaving of one lookup with the writer, from any point of the writer's life. */
  ghost predicate Run(L: SegmentLayout, H: HashFn, q: Query, run: seq<State>)
  {
    && |run| > 0 && L.slotCapacity > 0
    && WriterOk(L, H, run[0].buf, run[0].writer)
    && run[0].reader == Probing(Bits.Remainder(q.h, L.slotCapacity), 0)
    && (forall i {:trigger Moves(L, H, q, run, i)} :: 0 <= i < |run| - 1 ==> Moves(L, H, q, run, i))
  }

  ghost predicate Moves(L: SegmentLayout, H: HashFn, q: Query, run: seq<State>, i: nat)
    requires i + 1 < |run|
  {
    Step(L, H, q, run[i], run[i + 1])
  }

  ghost predicate StateOk(L: SegmentLayout, H: HashFn, q: Query, start: Buffer, s: State)
  {
    && WriterOk(L, H, s.buf, s.writer)
    && WellFormed(L, H, start) && Extends(L, H, start, s.buf)
    && ReaderOk(L, H, q, start, s.buf, s.reader)
  }

  lemma StepKeepsOk(L: SegmentLayout, H: HashFn, q: Query, start: Buffer, s: State, t: State)
    requires q.h == H(q.id) && StateOk(L, H, q, start, s) && Step(L, H, q, s, t)
    ensures StateOk(L, H, q, start, t)
  {
    hide WriterOk, WellFormed, ReaderOk, WriterStep, ReaderStep, SlotsOf, SlotAt;
    if WriterStep(L, H, s.buf, s.writer, t.buf, t.writer) && t.reader == s.reader {
      WriterStepExtends(L, H, s.buf, s.writer, t.buf, t.writer);
      ExtendsTransitive(L, H, start, s.buf, t.buf);
      ReaderOkKept(L, H, q, start, s.buf, t.buf, s.reader);
    } else {
      ReaderStepOk(L, H, q, start, s.buf, s.reader);
    }
  }

  lemma ExtendsTransitive(L: SegmentLayout, H: HashFn, a: Buffer, b: Buffer, c: Buffer)
    requires Extends(L, H, a, b) && Extends(L, H, b, c)
    ensures Extends(L, H, a, c)
  {
    hide TableOk, SlotAt;
    forall i | 0 <= i < L.slotCapacity && SlotsOf(L, a)[i].Taken?
      ensures SlotsOf(L, c)[i] == SlotsOf(L, a)[i]
    {
      assert SlotsOf(L, b)[i] == SlotsOf(L, a)[i];
    }
  }

  lemma {:induction false} RunOk(L: SegmentLayout, H: HashFn, q: Query, run: seq<State>, n: nat)
    requires q.h == H(q.id) && Run(L, H, q, run) && n < |run|
    ensures StateOk(L, H, q, run[0].buf, run[n])
  {
    hide WriterOk, WellFormed, Step, SlotsOf, SlotAt, Bits.Remainder;
    if n == 0 {
      WriterOkWellFormed(L, H, run[0].buf, run[0].writer);
    } else {
      RunOk(L, H, q, run, n - 1);
      assert Moves(L, H, q, run, n - 1);
      StepKeepsOk(L, H, q, run[0].buf, run[n - 1], run[n]);
    }
  }

  /** Linearizability of lookup. Whatever the writer does meanwhile, also if it dies inside an
      insert and others follow it: a miss means the id was absent when the lookup began; a hit
      means it is stored now, at exactly the returned offset; and no interleaving reads a
      corrupt entry. */
  lemma LookupLinearizable(L: SegmentLayout, H: HashFn, q: Query, run: seq<State>)
    requires q.h == H(q.id) && Run(L, H, q, run)
    ensures var start, end := run[0].buf, run[|run| - 1];
            && WellFormed(L, H, start) && WellFormed(L, H, end.buf)
            && !end.reader.Corrupt?
            && (end.reader.Missing? ==> q.id !in RowMap(L, H, start))
            && (end.reader.Found? ==>
                  q.id in RowMap(L, H, end.buf) && end.reader.offset == RowOff(L, RowMap(L, H, end.buf)[q.id]))
  {
    hide WriterOk, TableOk, SlotsOf, SlotAt, Extends;
    RunOk(L, H, q, run, |run| - 1);
    WriterOkWellFormed(L, H, run[|run| - 1].buf, run[|run| - 1].writer);
  }

  /** Rows never move: an id stored at the start keeps its row index to the end. So an id
      present before the lookup is never missed and always gets its own offset. */
  lemma PresentIdAlwaysFound(L: SegmentLayout, H: HashFn, q: Query, run: seq<State>)
    requires q.h == H(q.id) && Run(L, H, q, run)
    requires WellFormed(L, H, run[0].buf) && q.id in RowMap(L, H, run[0].buf)
    ensures var end := run[|run| - 1].reader;
            && !end.Missing? && !end.Corrupt?
            && (end.Found? ==> end.offset == RowOff(L, RowMap(L, H, run[0].buf)[q.id]))
  {
    hide WriterOk, TableOk, SlotAt, Entries, Moves;
    var start, end := run[0].buf, run[|run| - 1].buf;
    LookupLinearizable(L, H, q, run);
    RunOk(L, H, q, run, |run| - 1);
    MapWellDefined(L, H, start);
    MapWellDefined(L, H, end);
    var i := SlotOfEntry(SlotsOf(L, start), q.id);
    assert SlotsOf(L, end)[i] == SlotsOf(L, start)[i];
    EntryOf(SlotsOf(L, end), i);
  }

  /** Reads left before the lookup must have answered: lookups are wait-free. */
  function ReadsLeft(L: SegmentLayout, r: Reader): int
  {
    match r
    case Probing(_, n) => 6 * (L.slotCapacity - n) + 6
    case SawOccupied(_, n) => 6 * (L.slotCapacity - n) + 5
    case SawHash(_, n) => 6 * (L.slotCapacity - n) + 4
    case SawOffset(_, n, _) => 6 * (L.slotCapacity - n) + 3
    case SawLength(_, n, _, _) => 6 * (L.slotCapacity - n) + 2
    case SawId(_, n) => 6 * (L.slotCapacity - n) + 1
    case Found(_) => 0
    case Missing => 0
    case Corrupt => 0
  }

  lemma LookupWaitFree(L: SegmentLayout, H: HashFn, q: Query, start: Buffer, s: State)
    requires StateOk(L, H, q, start, s) && AtSlot(s.reader)
    ensures 0 <= ReadsLeft(L, ReaderStep(L, q, s.buf, s.reader)) < ReadsLeft(L, s.reader)
  {
    hide Decode, TableOk, SlotsOf, SlotAt, WriterOk, Probe, Search, Extends, WellFormed;
    assert s.reader.n <= L.slotCapacity;
    assert !s.reader.Probing? ==> s.reader.n < L.slotCapacity;
  }
}
