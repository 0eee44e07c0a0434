/** The writer half of the offline store: column buckets whose lists are reached through
    two sets of references, appends that are all-or-nothing, and flushes that may fail at
    any bucket without losing or inventing a row. */
module OfflineStore {
  import opened Bytes
  import opened Sorting
  import opened Schema

  datatype Option<+T> = None | Some(value: T)

  /** One table cell: an entity id, an integer column, or a feature value. */
  datatype Cell = Id(id: Buffer) | Num(n: int) | Val(value: Buffer)

  // ---------------------------------------------------------------------------
  // The column plan
  // ---------------------------------------------------------------------------

  const DECL_OFFSET: nat := 2

  const RESERVED_NAMES: set<string> := {"entity_id", "event_time_ns", "msg_id_ms", "msg_id_seq", "event_date"}

  /** Column names in declaration order, and the column of each wire position. */
  datatype Plan = Plan(names: seq<string>, wireToDecl: seq<nat>, includeMsgId: bool)

  function ColumnCount(plan: Plan): nat
  {
    DECL_OFFSET + |plan.wireToDecl| + (if plan.includeMsgId then 2 else 0)
  }

  /** Every feature column is the target of exactly one wire position. */
  ghost predicate PlanOk(plan: Plan)
  {
    && |plan.names| == ColumnCount(plan)
    && (forall k {:trigger plan.wireToDecl[k]} :: 0 <= k < |plan.wireToDecl| ==>
          DECL_OFFSET <= plan.wireToDecl[k] < DECL_OFFSET + |plan.wireToDecl|)
    && (forall j, k {:trigger plan.wireToDecl[j], plan.wireToDecl[k]} :: 0 <= j < k < |plan.wireToDecl| ==>
          plan.wireToDecl[j] != plan.wireToDecl[k])
    && (forall j {:trigger j in plan.wireToDecl} :: DECL_OFFSET <= j < DECL_OFFSET + |plan.wireToDecl| ==>
          j in plan.wireToDecl)
  }

  datatype PlanResult = Planned(plan: Plan) | ReservedName(index: nat) | UnsupportedShape(index: nat)

  /** Arrow columns are scalars, lists, or lists of lists. */
  const MAX_RANK: nat := 2

  /** `_arrow_plan_for`: declared columns, and the wire-to-declaration permutation. */
  method ArrowPlanFor(s: Fields, H: NameHash, fieldNames: seq<string>, includeMsgId: bool) returns (r: PlanResult)
    requires |fieldNames| == |s|
    ensures r.ReservedName? <==>
              exists i {:trigger fieldNames[i]} :: 0 <= i < |fieldNames| && fieldNames[i] in RESERVED_NAMES
    ensures r.UnsupportedShape? <==>
              (forall i {:trigger fieldNames[i]} :: 0 <= i < |fieldNames| ==> fieldNames[i] !in RESERVED_NAMES)
                                     && exists i {:trigger s[i]} :: 0 <= i < |s| && |s[i].shape| > MAX_RANK
    ensures r.Planned? ==>
              && PlanOk(r.plan) && r.plan.includeMsgId == includeMsgId && |r.plan.wireToDecl| == |s|
              && (forall k :: 0 <= k < |s| ==> r.plan.names[r.plan.wireToDecl[k]] == fieldNames[WireOrder(s, H)[k]])
  {
    hide PlanOk, Argsort, Hashes;
    for i := 0 to |fieldNames|
      invariant forall j {:trigger fieldNames[j]} :: 0 <= j < i ==> fieldNames[j] !in RESERVED_NAMES
    {
      if fieldNames[i] in RESERVED_NAMES {
        return ReservedName(i);
      }
    }
    for i := 0 to |s|
      invariant forall j {:trigger s[j]} :: 0 <= j < i ==> |s[j].shape| <= MAX_RANK
    {
      if |s[i].shape| > MAX_RANK {
        return UnsupportedShape(i);
      }
    }
    var names := ["entity_id", "event_time_ns"] + fieldNames +
      (if includeMsgId then ["msg_id_ms", "msg_id_seq"] else []);
    var order := WireOrder(s, H);
    WireOrderOk(s, H);
    var wireToDecl := seq(|s|, k requires 0 <= k < |s| => DECL_OFFSET + order[k]);
    var plan := Plan(names, wireToDecl, includeMsgId);
    ShiftedOrderOk(order, |s|, plan);
    return Planned(plan);
  }

  lemma ShiftedOrderOk(order: seq<nat>, n: nat, plan: Plan)
    requires IsPermutation(order, n) && |plan.wireToDecl| == n && |plan.names| == ColumnCount(plan)
    requires forall k :: 0 <= k < n ==> plan.wireToDecl[k] == DECL_OFFSET + order[k]
    ensures PlanOk(plan)
  {
    forall j | DECL_OFFSET <= j < DECL_OFFSET + n
      ensures j in plan.wireToDecl
    {
      assert j - DECL_OFFSET in order;
      var k :| 0 <= k < n && order[k] == j - DECL_OFFSET;
      assert plan.wireToDecl[k] == j;
    }
    forall j, k | 0 <= j < k < n
      ensures plan.wireToDecl[j] != plan.wireToDecl[k]
    {
      assert order[j] != order[k];
    }
  }

  function IndexOf(s: seq<nat>, x: nat): (i: nat)
    requires x in s
    ensures i < |s| && s[i] == x
  {
    if s[0] == x then 0 else 1 + IndexOf(s[1..], x)
  }

  /** The cells of one row, column by column. */
  ghost function RowCells(plan: Plan, entityId: Buffer, eventTime: int, values: seq<Buffer>, ms: int,
                          sq: int): (cells: seq<Cell>)
    requires PlanOk(plan) && |values| == |plan.wireToDecl|
    ensures |cells| == ColumnCount(plan)
  {
    seq(ColumnCount(plan), j requires 0 <= j < ColumnCount(plan) =>
      if j == 0 then Id(entityId)
      else if j == 1 then Num(eventTime)
      else if j < DECL_OFFSET + |plan.wireToDecl| then Val(values[IndexOf(plan.wireToDecl, j)])
      else Num(if j == DECL_OFFSET + |plan.wireToDecl| then ms else sq))
  }

  /** Each wire value sits in its own field's column. */
  lemma WireValueInItsColumn(plan: Plan, entityId: Buffer, eventTime: int, values: seq<Buffer>, ms: int, sq: int,
                             k: nat)
    requires PlanOk(plan) && |values| == |plan.wireToDecl| && k < |values|
    ensures RowCells(plan, entityId, eventTime, values, ms, sq)[plan.wireToDecl[k]] == Val(values[k])
  {
    IndexUnique(plan, k);
  }

  lemma RowCellsAre(plan: Plan, entityId: Buffer, eventTime: int, values: seq<Buffer>, ms: int, sq: int)
    requires PlanOk(plan) && |values| == |plan.wireToDecl|
    ensures var row, at := RowCells(plan, entityId, eventTime, values, ms, sq), DECL_OFFSET + |plan.wireToDecl|;
            && row[0] == Id(entityId) && row[1] == Num(eventTime)
            && 0 !in plan.wireToDecl && 1 !in plan.wireToDecl
            && (forall j {:trigger row[j]} :: DECL_OFFSET <= j < at ==>
                  j in plan.wireToDecl && row[j] == Val(values[IndexOf(plan.wireToDecl, j)]))
            && (forall j {:trigger row[j]} :: at <= j < |row| ==> j !in plan.wireToDecl)
            && (plan.includeMsgId ==> row[at] == Num(ms) && row[at + 1] == Num(sq))
  {
  }

  // ---------------------------------------------------------------------------
  // Buckets
  // ---------------------------------------------------------------------------

  /** A mutable list of cells. */
  class Column {
    var cells: seq<Cell>

    constructor ()
      ensures cells == []
    {
      cells := [];
    }

    method Append(x: Cell)
      modifies this
      ensures cells == old(cells) + [x]
    {
      cells := cells + [x];
    }
  }

  function Transposed(lists: seq<seq<Cell>>, n: nat): (rows: seq<seq<Cell>>)
    requires forall j :: 0 <= j < |lists| ==> |lists[j]| == n
    ensures |rows| == n
  {
    seq(n, i requires 0 <= i < n => seq(|lists|, j requires 0 <= j < |lists| => lists[j][i]))
  }

  lemma TransposedAppend(was: seq<seq<Cell>>, now: seq<seq<Cell>>, n: nat, row: seq<Cell>)
    requires |now| == |was| == |row|
    requires forall j :: 0 <= j < |was| ==> |was[j]| == n && now[j] == was[j] + [row[j]]
    ensures Transposed(now, n + 1) == Transposed(was, n) + [row]
  {
    forall i | 0 <= i < n + 1
      ensures Transposed(now, n + 1)[i] == (Transposed(was, n) + [row])[i]
    {
    }
  }

  /** Rows of one `(schema, date)`: `columns` for the file writer, and further references
      to the same lists for the append path. */
  class Bucket {
    const plan: Plan
    const columns: seq<Column>
    const wireLists: seq<Column>
    const entityIdCol: Column
    const eventTimeCol: Column
    const msgIdMsCol: Column?
    const msgIdSeqCol: Column?

    /** The lists a bucket owns. */
    ghost function Repr(): set<Column>
    {
      set c | c in columns
    }

    ghost predicate Aliased()
    {
      && PlanOk(plan) && |columns| == ColumnCount(plan)
      && (forall i, j {:trigger columns[i], columns[j]} :: 0 <= i < j < |columns| ==> columns[i] != columns[j])
      && |wireLists| == |plan.wireToDecl|
      && (forall k {:trigger wireLists[k]} :: 0 <= k < |wireLists| ==> wireLists[k] == columns[plan.wireToDecl[k]])
      && entityIdCol == columns[0] && eventTimeCol == columns[1]
      && (if plan.includeMsgId then
            msgIdMsCol == columns[DECL_OFFSET + |plan.wireToDecl|]
              && msgIdSeqCol == columns[DECL_OFFSET + |plan.wireToDecl| + 1]
          else msgIdMsCol == null && msgIdSeqCol == null)
    }

    /** All columns have the same length. */
    ghost predicate Valid()
      reads Repr()
    {
      Aliased() && forall j {:trigger columns[j]} :: 0 <= j < |columns| ==> |columns[j].cells| == |columns[0].cells|
    }

    function Lists(): (lists: seq<seq<Cell>>)
      reads Repr()
      ensures |lists| == |columns|
    {
      seq(|columns|, j requires 0 <= j < |columns| reads Repr() => columns[j].cells)
    }

    /** The bucket as rows. */
    function Rows(): (rows: seq<seq<Cell>>)
      requires Valid()
      reads Repr()
    {
      Transposed(Lists(), |columns[0].cells|)
    }

    /** `_make_bucket`: fresh lists, and the references into them. */
    constructor (plan: Plan)
      requires PlanOk(plan)
      ensures this.plan == plan && Valid() && Rows() == [] && fresh(Repr())
    {
      var lists: seq<Column> := [];
      for i := 0 to ColumnCount(plan)
        invariant |lists| == i && fresh(lists)
        invariant forall j {:trigger lists[j]} :: 0 <= j < i ==> lists[j].cells == []
        invariant forall j, k {:trigger lists[j], lists[k]} :: 0 <= j < k < i ==> lists[j] != lists[k]
      {
        var column := new Column();
        lists := lists + [column];
      }
      var at := DECL_OFFSET + |plan.wireToDecl|;
      this.plan := plan;
      columns := lists;
      wireLists := seq(|plan.wireToDecl|, k requires 0 <= k < |plan.wireToDecl| => lists[plan.wireToDecl[k]]);
      entityIdCol, eventTimeCol := lists[0], lists[1];
      msgIdMsCol := if plan.includeMsgId then lists[at] else null;
      msgIdSeqCol := if plan.includeMsgId then lists[at + 1] else null;
    }

    /** The value loop of `append`. */
    method AppendValues(values: seq<Buffer>)
      requires Aliased() && |values| == |wireLists|
      modifies Repr()
      ensures forall j {:trigger columns[j]} :: 0 <= j < |columns| ==>
                columns[j].cells == if j in plan.wireToDecl
                                    then old(columns[j].cells) + [Val(values[IndexOf(plan.wireToDecl, j)])]
                                    else old(columns[j].cells)
    {
      for k := 0 to |values|
        invariant forall j {:trigger columns[j]} :: 0 <= j < |columns| ==>
                    columns[j].cells == if j in plan.wireToDecl && IndexOf(plan.wireToDecl, j) < k
                                        then old(columns[j].cells) + [Val(values[IndexOf(plan.wireToDecl, j)])]
                                        else old(columns[j].cells)
      {
        IndexUnique(plan, k);
        wireLists[k].Append(Val(values[k]));
      }
    }

    method AppendHead(entityId: Buffer, eventTime: int)
      requires Aliased()
      modifies Repr()
      ensures forall j {:trigger columns[j]} :: 0 <= j < |columns| ==>
                (columns[j].cells == if j == 0 then old(columns[j].cells) + [Id(entityId)]
                                     else if j == 1 then old(columns[j].cells) + [Num(eventTime)]
                                     else old(columns[j].cells))
    {
      hide PlanOk;
      entityIdCol.Append(Id(entityId));
      eventTimeCol.Append(Num(eventTime));
    }

    method AppendMsgId(ms: int, sq: int)
      requires Aliased()
      modifies Repr()
      ensures forall j {:trigger columns[j]} :: 0 <= j < |columns| ==>
                (columns[j].cells == if plan.includeMsgId && j >= DECL_OFFSET + |plan.wireToDecl|
                                     then old(columns[j].cells) +
                                       [Num(if j == DECL_OFFSET + |plan.wireToDecl| then ms else sq)]
                                     else old(columns[j].cells))
    {
      hide PlanOk;
      if plan.includeMsgId {
        msgIdMsCol.Append(Num(ms));
        msgIdSeqCol.Append(Num(sq));
      }
    }

    /** Every list grows by its cell of the row. */
    method AppendCells(entityId: Buffer, eventTime: int, values: seq<Buffer>, ms: int, sq: int)
      requires Aliased() && |values| == |wireLists|
      modifies Repr()
      ensures forall j {:trigger columns[j]} :: 0 <= j < |columns| ==>
                columns[j].cells == old(columns[j].cells) + [RowCells(plan, entityId, eventTime, values, ms, sq)[j]]
    {
      RowCellsAre(plan, entityId, eventTime, values, ms, sq);
      AppendHead(entityId, eventTime);
      AppendValues(values);
      AppendMsgId(ms, sq);
      hide RowCells, PlanOk, IndexOf;
    }

    /** The infallible tail of `append`, entirely through the second set of references. */
    method AppendRow(entityId: Buffer, eventTime: int, values: seq<Buffer>, ms: int, sq: int)
      requires Valid() && |values| == |wireLists|
      modifies Repr()
      ensures Valid()
      ensures Rows() == old(Rows()) + [RowCells(plan, entityId, eventTime, values, ms, sq)]
    {
      hide RowCells, PlanOk;
      ghost var row := RowCells(plan, entityId, eventTime, values, ms, sq);
      ghost var was, n := Lists(), |columns[0].cells|;
      AppendCells(entityId, eventTime, values, ms, sq);
      TransposedAppend(was, Lists(), n, row);
    }
  }

  lemma IndexUnique(plan: Plan, k: nat)
    requires PlanOk(plan) && k < |plan.wireToDecl|
    ensures plan.wireToDecl[k] in plan.wireToDecl && IndexOf(plan.wireToDecl, plan.wireToDecl[k]) == k
    ensures forall j {:trigger IndexOf(plan.wireToDecl, j)} ::
              j in plan.wireToDecl && IndexOf(plan.wireToDecl, j) == k ==> j == plan.wireToDecl[k]
  {
    var j := IndexOf(plan.wireToDecl, plan.wireToDecl[k]);
    assert plan.wireToDecl[j] == plan.wireToDecl[k];
    assert j < k || k < j || j == k;
  }

  // ---------------------------------------------------------------------------
  // The store
  // ---------------------------------------------------------------------------

  const DAY_NS: int := 86_400_000_000_000

  /** A `(schema, event date)` bucket key. */
  datatype Key = Key(schema: nat, date: int)

  /** The UTC date of an event time in nanoseconds; none outside the years `datetime` knows. */
  type Calendar = int -> Option<int>

  /** A row, and the partition it belongs to. */
  datatype Row = Row(key: Key, cells: seq<Cell>)

  datatype File = File(key: Key, rows: seq<seq<Cell>>)

  datatype AppendResult = Appended | BadEventTime | WrongLength | BadMsgId

  /** Where one `_write_table` raises, if anywhere; `partial` rows had reached the file. */
  datatype WriteFault =
    | NoFault
    | MkdirFails
    | WriteFails(partial: nat)
    | StatFails
    | FsyncFails
    | RenameFails
    | DirSyncFails

  /** The dataset's files, and the private temporary ones by name. */
  datatype Files = Files(dataset: seq<File>, tmp: map<nat, File>)

  type MsgIdParser = Buffer -> Option<(int, int)>

  /** Well-formed buckets of their schemas' plans, with lists of their own among `owned`. */
  ghost predicate BucketsAre(plans: seq<Plan>, buffers: map<Key, Bucket>, owned: set<Column>)
    reads owned
  {
    && (forall k {:trigger buffers[k]} :: k in buffers ==>
          && k.schema < |plans| && buffers[k].plan == plans[k.schema]
          && buffers[k].Repr() <= owned && buffers[k].Valid())
    && (forall j, k {:trigger buffers[j], buffers[k]} :: j in buffers && k in buffers && j != k ==>
          buffers[j].Repr() !! buffers[k].Repr())
  }

  ghost function ContentOf(plans: seq<Plan>, buffers: map<Key, Bucket>, owned: set<Column>): map<Key, seq<seq<Cell>>>
    requires BucketsAre(plans, buffers, owned)
    reads owned
  {
    map k | k in buffers :: buffers[k].Rows()
  }

  /** One more bucket, of new lists. */
  lemma AddedBucket(plans: seq<Plan>, buffers: map<Key, Bucket>, owned: set<Column>, key: Key, bucket: Bucket)
    requires BucketsAre(plans, buffers, owned) && key !in buffers && key.schema < |plans|
    requires bucket.Valid() && bucket.plan == plans[key.schema] && bucket.Repr() !! owned
    ensures BucketsAre(plans, buffers[key := bucket], owned + bucket.Repr())
    ensures ContentOf(plans, buffers[key := bucket], owned + bucket.Repr()) ==
              ContentOf(plans, buffers, owned)[key := bucket.Rows()]
  {
    hide Bucket.Valid, Bucket.Rows, Bucket.Repr, PlanOk;
    var now := buffers[key := bucket];
    assert forall k {:trigger now[k]} :: k in now && k != key ==> now[k] == buffers[k];
    assert BucketsAre(plans, now, owned + bucket.Repr());
    hide BucketsAre;
    assert ContentOf(plans, now, owned + bucket.Repr()) == ContentOf(plans, buffers, owned)[key := bucket.Rows()];
  }

  class ParquetStore {
    const plans: seq<Plan>
    const parse: MsgIdParser
    const dateOf: Calendar
    var buffers: map<Key, Bucket>
    /** `_date_cache`: the date computed for the first event time seen of a day. */
    var dates: map<int, int>
    var disk: seq<File>
    var tmp: map<nat, File>
    ghost var appended: set<Row>
    /** Every list reachable from a bucket. */
    ghost var repr: set<Column>

    ghost predicate BucketsOk()
      reads this`buffers, this`repr, repr
    {
      BucketsAre(plans, buffers, repr)
    }

    /** What each bucket holds. */
    ghost function Content(): map<Key, seq<seq<Cell>>>
      requires BucketsOk()
      reads this`buffers, this`repr, repr
    {
      ContentOf(plans, buffers, repr)
    }

    ghost function Buffered(): set<Row>
      requires BucketsOk()
      reads this`buffers, this`repr, repr
    {
      ContentRows(Content())
    }

    ghost function OnDisk(): set<Row>
      reads this`disk
    {
      DiskRows(disk)
    }

    /** Each cached date is the calendar's for some event time of that day. */
    ghost predicate CacheOk()
      reads this`dates
    {
      forall day {:trigger dates[day]} :: day in dates ==>
        exists ns :: ns / DAY_NS == day && dateOf(ns) == Some(dates[day])
    }

    /** Nothing appended is ever missing, nothing else is ever present, and no temporary
        file outlives its write. */
    ghost predicate Valid()
      reads this, repr
    {
      && (forall p :: p in plans ==> PlanOk(p))
      && BucketsOk() && CacheOk() && tmp == map[]
      && appended == OnDisk() + Buffered()
      && RowsShaped(plans, appended)
    }

    /** Opened on an existing dataset, as after a restart: whatever a dead process left in the
        temporary directory goes. */
    constructor (plans: seq<Plan>, parse: MsgIdParser, dateOf: Calendar, left: Files)
      requires forall p :: p in plans ==> PlanOk(p)
      requires RowsShaped(plans, DiskRows(left.dataset))
      ensures Valid() && this.plans == plans && this.dateOf == dateOf && disk == left.dataset
      ensures Buffered() == {} && appended == OnDisk() && dates == map[] && repr == {}
    {
      this.plans, this.parse, this.dateOf := plans, parse, dateOf;
      buffers, repr, dates := map[], {}, map[];
      this.disk, tmp := left.dataset, map[];
      appended := DiskRows(left.dataset);
    }

    /** The date an append would use: the cached one of that day, or the calendar's. */
    function DateFor(eventTime: int): Option<int>
      reads this`dates
    {
      if eventTime / DAY_NS in dates then Some(dates[eventTime / DAY_NS]) else dateOf(eventTime)
    }

    /** `_get_date_str`. */
    method GetDate(eventTime: int) returns (date: Option<int>)
      requires CacheOk()
      modifies this`dates
      ensures CacheOk() && date == old(DateFor(eventTime))
      ensures dates == if date.Some? then old(dates)[eventTime / DAY_NS := date.value] else old(dates)
    {
      var day := eventTime / DAY_NS;
      if day in dates {
        return Some(dates[day]);
      }
      date := dateOf(eventTime);
      if date.Some? {
        assert eventTime / DAY_NS == day;
        dates := dates[day := date.value];
      }
    }

    /** With a calendar that gives one answer a day, the cache changes no answer. */
    lemma CacheTransparent(eventTime: int)
      requires CacheOk()
      requires forall a, b {:trigger dateOf(a), dateOf(b)} :: a / DAY_NS == b / DAY_NS ==> dateOf(a) == dateOf(b)
      ensures DateFor(eventTime) == dateOf(eventTime)
    {
      var day := eventTime / DAY_NS;
      if day in dates {
        var ns :| ns / DAY_NS == day && dateOf(ns) == Some(dates[day]);
      }
    }

    /** So it is for a calendar that names the UTC days, of twenty-four hours from midnight to
        midnight since the epoch, whatever it calls them. */
    lemma CacheNamesUtcDays(eventTime: int, nameOf: Calendar)
      requires CacheOk()
      requires forall ns {:trigger dateOf(ns)} :: dateOf(ns) == nameOf(ns / (24 * 60 * 60 * 1_000_000_000))
      ensures DateFor(eventTime) == nameOf(eventTime / (24 * 60 * 60 * 1_000_000_000))
    {
      CacheTransparent(eventTime);
      assert dateOf(eventTime) == nameOf(eventTime / (24 * 60 * 60 * 1_000_000_000));
    }

    /** The bucket of a key, made on first use. */
    method EnsureBucket(key: Key)
      requires BucketsOk() && key.schema < |plans| && PlanOk(plans[key.schema])
      modifies this`buffers, this`repr
      ensures BucketsOk() && key in buffers && fresh(repr - old(repr))
      ensures Content() == old(if key in Content() then Content() else Content()[key := []])
    {
      hide Bucket.Aliased, Bucket.Valid, Bucket.Rows, PlanOk, BucketsOk;
      if key !in buffers {
        var bucket := new Bucket(plans[key.schema]);
        assert bucket.Repr() !! repr;
        AddBucket(key, bucket);
      }
    }

    method AddBucket(key: Key, bucket: Bucket)
      requires BucketsOk() && key !in buffers && key.schema < |plans|
      requires bucket.Valid() && bucket.plan == plans[key.schema] && bucket.Repr() !! repr
      modifies this`buffers, this`repr
      ensures BucketsOk() && buffers == old(buffers)[key := bucket] && repr == old(repr) + bucket.Repr()
      ensures Content() == old(Content())[key := bucket.Rows()]
    {
      hide Bucket.Valid, Bucket.Rows, Bucket.Repr, PlanOk, ContentRows, DiskRows, BucketsAre, ContentOf;
      ghost var was, owned := buffers, repr;
      buffers, repr := buffers[key := bucket], repr + bucket.Repr();
      AddedBucket(plans, was, owned, key, bucket);
    }

    lemma ContentKeys()
      requires BucketsOk()
      ensures Content().Keys == buffers.Keys && (buffers == map[] ==> Content() == map[])
    {
      hide BucketsAre, Bucket.Rows;
    }

    lemma BucketWidth(key: Key)
      requires BucketsOk() && key in buffers
      ensures key.schema < |plans| && |buffers[key].wireLists| == |plans[key.schema].wireToDecl|
    {
    }

    method AppendTo(key: Key, entityId: Buffer, eventTime: int, values: seq<Buffer>, ms: int, sq: int)
      requires BucketsOk() && key in buffers && PlanOk(plans[key.schema]) && |values| == |plans[key.schema].wireToDecl|
      modifies repr
      ensures BucketsOk()
      ensures Content() == old(Content()[key := Content()[key] +
                [RowCells(plans[key.schema], entityId, eventTime, values, ms, sq)]])
    {
      hide Bucket.Rows, Bucket.Repr, Bucket.Valid, PlanOk, RowCells;
      BucketWidth(key);
      assert buffers[key].Valid() && buffers[key].plan == plans[key.schema] && buffers[key].Repr() <= repr;
      ghost var was, before := Content(), buffers[key].Rows();
      ghost var cells := RowCells(plans[key.schema], entityId, eventTime, values, ms, sq);
      buffers[key].AppendRow(entityId, eventTime, values, ms, sq);
      OthersKept(key);
      assert buffers[key].Rows() == before + [cells] && before == was[key];
      assert BucketsOk();
      assert Content() == was[key := was[key] + [cells]];
    }

    /** Writing one bucket's lists leaves every other bucket as it was. */
    twostate lemma OthersKept(key: Key)
      requires old(BucketsOk()) && key in buffers && buffers == old(buffers) && repr == old(repr)
      requires forall c: Column {:trigger c.cells} :: c in old(repr) && c !in buffers[key].Repr() ==>
                 c.cells == old(c.cells)
      ensures forall k {:trigger buffers[k]} :: k in buffers && k != key ==>
                old(buffers[k].Valid()) && buffers[k].Valid() && buffers[k].Rows() == old(buffers[k].Rows())
    {
      forall k | k in buffers && k != key
        ensures old(buffers[k].Valid()) && buffers[k].Valid() && buffers[k].Rows() == old(buffers[k].Rows())
      {
        var bucket := buffers[k];
        assert bucket.Repr() !! buffers[key].Repr();
        assert forall j {:trigger bucket.columns[j]} :: 0 <= j < |bucket.columns| ==>
            bucket.columns[j] in bucket.Repr() && bucket.columns[j].cells == old(bucket.columns[j].cells);
        assert bucket.Lists() == old(bucket.Lists());
      }
    }

    /** Find or make the bucket; no row changes. */
    method Open(key: Key)
      requires Valid() && key.schema < |plans|
      modifies this`buffers, this`repr
      ensures Valid() && key in buffers && fresh(repr - old(repr)) && Buffered() == old(Buffered())
    {
      hide BucketsOk, BucketsAre, ContentOf, DiskRows, PlanOk, ContentRows, CacheOk, RowsShaped;
      assert plans[key.schema] in plans;
      ghost var was := Content();
      EnsureBucket(key);
      ContentEmpty(was, key);
    }

    /** Append to an open bucket. */
    method Record(key: Key, entityId: Buffer, eventTime: int, values: seq<Buffer>, ms: int, sq: int)
      requires Valid() && key in buffers && key.schema < |plans| && PlanOk(plans[key.schema])
      requires |values| == |plans[key.schema].wireToDecl|
      modifies this`appended, repr
      ensures Valid()
      ensures var row := Row(key, RowCells(plans[key.schema], entityId, eventTime, values, ms, sq));
              Buffered() == old(Buffered()) + {row} && appended == old(appended) + {row}
    {
      hide BucketsOk, BucketsAre, ContentOf, DiskRows, PlanOk, ContentRows, RowCells, CacheOk, RowsShaped, Shaped;
      ghost var was, cells := Content(), RowCells(plans[key.schema], entityId, eventTime, values, ms, sq);
      ContentKeys();
      AppendTo(key, entityId, eventTime, values, ms, sq);
      ContentGrows(was, key, cells);
      ShapedMore(plans, appended, key, entityId, eventTime, values, ms, sq);
      appended := appended + {Row(key, cells)};
    }

    /** One row into its bucket, or an error that changes no row. */
    method Append(schema: nat, entityId: Buffer, eventTime: int, values: seq<Buffer>, msgId: Buffer)
      returns (r: AppendResult)
      requires Valid() && schema < |plans|
      modifies this, repr
      ensures Valid() && fresh(repr - old(repr)) && disk == old(disk)
      ensures r.BadEventTime? <==> old(DateFor(eventTime)).None?
      ensures r.WrongLength? <==> old(DateFor(eventTime)).Some? && |values| != |plans[schema].wireToDecl|
      ensures r.BadMsgId? <==> old(DateFor(eventTime)).Some? && |values| == |plans[schema].wireToDecl|
                               && plans[schema].includeMsgId && parse(msgId).None?
      ensures r.Appended? ==>
                && PlanOk(plans[schema]) && |values| == |plans[schema].wireToDecl|
                && var (ms, sq) := if plans[schema].includeMsgId then parse(msgId).value else (0, 0);
                   var date := old(DateFor(eventTime)).value;
                   var row := Row(Key(schema, date), RowCells(plans[schema], entityId, eventTime, values, ms, sq));
                   Buffered() == old(Buffered()) + {row} && appended == old(appended) + {row}
      ensures !r.Appended? ==> Buffered() == old(Buffered()) && appended == old(appended)
    {
      hide BucketsOk, BucketsAre, ContentOf, DiskRows, PlanOk, ContentRows, RowCells, Buffered, CacheOk, RowsShaped;
      var date := GetDate(eventTime);
      if date.None? {
        return BadEventTime;
      }
      var key := Key(schema, date.value);
      assert plans[schema] in plans;
      Open(key);
      BucketWidth(key);
      if |values| != |buffers[key].wireLists| {
        return WrongLength;
      }
      var ms, sq := 0, 0;
      if plans[schema].includeMsgId {
        var parsed := parse(msgId);
        if parsed.None? {
          return BadMsgId;
        }
        ms, sq := parsed.value.0, parsed.value.1;
      }
      Record(key, entityId, eventTime, values, ms, sq);
      return Appended;
    }

    /** Write every non-empty bucket to its own file. The first write that raises ends the
        flush: buckets not yet finalized return to the buffer, including one whose file was
        already renamed into place. */
    method Flush(fault: Key -> WriteFault, uuid: Key -> nat)
      returns (ok: bool, ghost wrote: set<Row>, ghost restored: set<Row>)
      requires Valid()
      modifies this`buffers, this`disk, this`tmp
      ensures Valid()
      ensures wrote + restored <= old(Buffered())
      ensures Buffered() == old(Buffered()) - wrote
      ensures OnDisk() == old(OnDisk()) + wrote + restored
      ensures ok <==> forall row :: row in old(Buffered()) ==> fault(row.key).NoFault?
      ensures ok ==> wrote == old(Buffered())
    {
      hide BucketsOk, BucketsAre, ContentOf, CacheOk, RowsShaped, Holds, PlanOk, ContentRows, DiskRows, Only;
      ghost var content := Content();
      SnapshotHolds();
      var snapshot := Unempty();
      EmptyBucketsHoldNothing(content, snapshot.Keys);
      buffers := map[];
      ok, wrote, restored := WriteBuckets(snapshot, content, fault, uuid);
      ContentKeys();
      hide WriteEffect, KeyRows;
      FinishedEffect(content, snapshot.Keys, Content(), old(DiskRows(disk)), DiskRows(disk), wrote, restored, fault,
        ok);
    }

    /** `_write_table`: into a temporary file, then renamed into the dataset. At every point
        where the process can die the dataset has the whole file or does not have it, and on
        a failure the temporary file is removed. */
    method WriteTable(file: File, uuid: nat, fault: WriteFault) returns (ok: bool, ghost seen: seq<Files>)
      requires uuid !in tmp
      modifies this`disk, this`tmp
      ensures ok <==> fault.NoFault?
      ensures disk == if Renamed(fault) then old(disk) + [file] else old(disk)
      ensures tmp == old(tmp)
      ensures forall fs :: fs in seen ==> fs.dataset == old(disk) || fs.dataset == old(disk) + [file]
    {
      ghost var start := disk;
      seen := [Files(disk, tmp)];
      if fault.MkdirFails? {
        return false, seen;
      }
      if fault.WriteFails? {
        tmp := tmp[uuid := File(file.key,
          if fault.partial <= |file.rows| then file.rows[..fault.partial] else file.rows)];
        seen := seen + [Files(disk, tmp)];
        tmp := tmp - {uuid};
        return false, seen;
      }
      tmp := tmp[uuid := file];
      seen := seen + [Files(disk, tmp)];
      if fault.StatFails? || fault.FsyncFails? || fault.RenameFails? {
        tmp := tmp - {uuid};
        return false, seen;
      }
      disk, tmp := disk + [tmp[uuid]], tmp - {uuid};
      seen := seen + [Files(disk, tmp)];
      ok := fault.NoFault?;
    }

    /** One turn of the write loop: some bucket's rows reach the disk, and leave `todo`
        unless the write raised. */
    method WriteNext(todo: map<Key, Bucket>, ghost content: map<Key, seq<seq<Cell>>>, fault: Key -> WriteFault,
                     uuid: Key -> nat)
      returns (ok: bool, rest: map<Key, Bucket>, ghost wrote: set<Row>, ghost restored: set<Row>)
      requires todo != map[] && Holds(todo, content) && tmp == map[]
      modifies this`disk, this`tmp
      ensures tmp == map[]
      ensures Holds(rest, content) && (ok ==> |rest.Keys| < |todo.Keys|)
      ensures WriteEffect(KeyRows(content, todo.Keys), KeyRows(content, rest.Keys), old(DiskRows(disk)), DiskRows(disk),
                          wrote, restored, fault, ok)
    {
      hide Holds, ContentRows, DiskRows, Only, KeyRows, WriteEffect, Bucket.Rows, Bucket.Valid, Bucket.Repr;
      var key :| key in todo;
      HeldBucket(todo, content, key);
      FileHoldsBucket(content, disk, key);
      OneKey(content, todo.Keys, key);
      ghost var seen;
      ok, seen := WriteTable(File(key, todo[key].Rows()), uuid(key), fault(key));
      ghost var rows := KeyRows(content, {key});
      wrote, restored := if ok then rows else {}, if fault(key).DirSyncFails? then rows else {};
      HoldsLess(todo, content, key);
      rest := if ok then todo - {key} else todo;
      WroteOne(KeyRows(content, todo.Keys), rows, old(DiskRows(disk)), key, fault);
    }

    /** The write loop. */
    method WriteBuckets(snapshot: map<Key, Bucket>, ghost content: map<Key, seq<seq<Cell>>>, fault: Key -> WriteFault,
                        uuid: Key -> nat)
      returns (ok: bool, ghost wrote: set<Row>, ghost restored: set<Row>)
      requires Holds(snapshot, content) && buffers == map[] && tmp == map[]
      modifies this`buffers, this`disk, this`tmp
      ensures BucketsOk() && (ok ==> buffers == map[]) && tmp == map[]
      ensures WriteEffect(KeyRows(content, snapshot.Keys), ContentRows(Content()), old(DiskRows(disk)), DiskRows(disk),
                          wrote, restored, fault, ok)
    {
      hide *;
      ghost var all, d0 := KeyRows(content, snapshot.Keys), DiskRows(disk);
      var todo := snapshot;
      ok, wrote, restored := true, {}, {};
      NoEffect(all, d0, fault);
      while ok && todo != map[]
        invariant Holds(todo, content) && (ok ==> restored == {}) && tmp == map[]
        invariant WriteEffect(all, KeyRows(content, todo.Keys), d0, DiskRows(disk), wrote, restored, fault, ok)
        decreases ok, |todo.Keys|
      {
        ghost var left, d1, was := KeyRows(content, todo.Keys), DiskRows(disk), wrote;
        ghost var now;
        ok, todo, now, restored := WriteNext(todo, content, fault, uuid);
        wrote := was + now;
        EffectsCompose(all, left, KeyRows(content, todo.Keys), d0, d1, DiskRows(disk), was, now, restored, fault, ok);
      }
      Restore(todo, content);
    }

    /** The snapshot of non-empty buckets. */
    function Unempty(): (snapshot: map<Key, Bucket>)
      requires BucketsOk()
      reads this`buffers, this`repr, repr
    {
      map k | k in buffers && buffers[k].entityIdCol.cells != [] :: buffers[k]
    }

    /** Buckets out of the buffer, with what they hold. */
    ghost predicate Holds(todo: map<Key, Bucket>, content: map<Key, seq<seq<Cell>>>)
      reads this`repr, repr
    {
      && (forall k {:trigger todo[k]} :: k in todo ==>
            && k in content && content[k] != []
            && k.schema < |plans| && todo[k].plan == plans[k.schema]
            && todo[k].Repr() <= repr && todo[k].Valid() && todo[k].Rows() == content[k])
      && (forall j, k {:trigger todo[j], todo[k]} :: j in todo && k in todo && j != k ==>
            todo[j].Repr() !! todo[k].Repr())
    }

    lemma SnapshotHolds()
      requires BucketsOk()
      ensures Holds(Unempty(), Content()) && Unempty().Keys <= Content().Keys
      ensures forall k :: k in Content() && k !in Unempty().Keys ==> Content()[k] == []
    {
      forall k | k in buffers
        ensures buffers[k].entityIdCol.cells == [] <==> buffers[k].Rows() == []
      {
        assert buffers[k].Valid();
      }
    }

    lemma HeldBucket(todo: map<Key, Bucket>, content: map<Key, seq<seq<Cell>>>, key: Key)
      requires Holds(todo, content) && key in todo
      ensures todo[key].Valid() && key in content && content[key] != [] && todo[key].Rows() == content[key]
      ensures todo[key].Repr() <= repr
    {
    }

    lemma HoldsLess(todo: map<Key, Bucket>, content: map<Key, seq<seq<Cell>>>, key: Key)
      requires Holds(todo, content)
      ensures Holds(todo - {key}, content) && (todo - {key}).Keys == todo.Keys - {key}
    {
      hide Bucket.Valid, Bucket.Rows, Bucket.Repr;
      var rest := todo - {key};
      assert forall k {:trigger rest[k]} :: k in rest ==> k in todo && rest[k] == todo[k];
    }

    /** Put unwritten buckets back. */
    method Restore(todo: map<Key, Bucket>, ghost content: map<Key, seq<seq<Cell>>>)
      requires Holds(todo, content)
      modifies this`buffers
      ensures buffers == todo && BucketsOk() && ContentRows(Content()) == KeyRows(content, todo.Keys)
    {
      hide Bucket.Valid, Bucket.Rows, Bucket.Repr;
      buffers := todo;
      assert BucketsOk();
      assert Content() == Only(content, todo.Keys);
    }
  }

  /** What writing some buckets does: of the rows `all`, `wrote` are on disk and out of the
      buffer, `left` stay buffered, and `restored` of those are on disk too. */
  ghost predicate WriteEffect(all: set<Row>, left: set<Row>, d0: set<Row>, d1: set<Row>, wrote: set<Row>,
                              restored: set<Row>, fault: Key -> WriteFault, ok: bool)
  {
    && wrote + restored <= all && left == all - wrote && d1 == d0 + wrote + restored
    && (forall row :: row in wrote ==> fault(row.key).NoFault?)
    && (ok ==> restored == {})
    && (!ok ==> exists row :: row in all && !fault(row.key).NoFault?)
  }

  /** What writing the rows of one bucket does. */
  lemma WroteOne(all: set<Row>, rows: set<Row>, d0: set<Row>, key: Key, fault: Key -> WriteFault)
    requires rows <= all && (forall row :: row in rows ==> row.key == key) && exists row :: row in all && row.key == key
    ensures WriteEffect(all, if fault(key).NoFault? then all - rows else all,
                        d0, if Renamed(fault(key)) then d0 + rows else d0,
                        if fault(key).NoFault? then rows else {}, if fault(key).DirSyncFails? then rows else {}, fault,
                        fault(key).NoFault?)
  {
  }

  lemma NoEffect(all: set<Row>, d0: set<Row>, fault: Key -> WriteFault)
    ensures WriteEffect(all, all, d0, d0, {}, {}, fault, true)
  {
  }

  lemma EffectsCompose(all: set<Row>, mid: set<Row>, left: set<Row>, d0: set<Row>, d1: set<Row>, d2: set<Row>,
                       was: set<Row>, now: set<Row>, restored: set<Row>, fault: Key -> WriteFault, ok: bool)
    requires WriteEffect(all, mid, d0, d1, was, {}, fault, true)
    requires WriteEffect(mid, left, d1, d2, now, restored, fault, ok)
    ensures WriteEffect(all, left, d0, d2, was + now, restored, fault, ok)
    ensures ok ==> restored == {}
  {
  }

  /** The whole flush, in the terms of its contract. */
  lemma FinishedEffect(content: map<Key, seq<seq<Cell>>>, keys: set<Key>, now: map<Key, seq<seq<Cell>>>, d0: set<Row>,
                       d1: set<Row>, wrote: set<Row>, restored: set<Row>, fault: Key -> WriteFault, ok: bool)
    requires WriteEffect(KeyRows(content, keys), ContentRows(now), d0, d1, wrote, restored, fault, ok)
    requires KeyRows(content, keys) == ContentRows(content) && (ok ==> now == map[])
    ensures wrote + restored <= ContentRows(content)
    ensures ContentRows(now) == ContentRows(content) - wrote
    ensures d1 == d0 + wrote + restored
    ensures d0 + ContentRows(content) == d1 + ContentRows(now)
    ensures ok <==> forall row :: row in ContentRows(content) ==> fault(row.key).NoFault?
    ensures ok ==> wrote == ContentRows(content)
  {
    hide KeyRows;
    if ok {
      assert ContentRows(now) == {};
    }
  }

  /** The rows of some keys' buckets. */
  ghost function KeyRows(content: map<Key, seq<seq<Cell>>>, keys: set<Key>): set<Row>
  {
    ContentRows(Only(content, keys))
  }

  lemma EmptyBucketsHoldNothing(content: map<Key, seq<seq<Cell>>>, keys: set<Key>)
    requires forall k :: k in content && k !in keys ==> content[k] == []
    ensures KeyRows(content, keys) == ContentRows(content)
  {
  }

  lemma InRows(content: map<Key, seq<seq<Cell>>>, keys: set<Key>, row: Row)
    ensures row in KeyRows(content, keys) <==> row.key in content && row.key in keys && row.cells in content[row.key]
  {
  }

  lemma OneKey(content: map<Key, seq<seq<Cell>>>, keys: set<Key>, key: Key)
    requires key in keys && key in content && content[key] != []
    ensures KeyRows(content, {key}) <= KeyRows(content, keys)
    ensures KeyRows(content, keys - {key}) == KeyRows(content, keys) - KeyRows(content, {key})
    ensures forall row :: row in KeyRows(content, {key}) ==> row.key == key
    ensures exists row :: row in KeyRows(content, keys) && row.key == key
  {
    forall row
      ensures row in KeyRows(content, keys - {key}) <==> row in KeyRows(content, keys) - KeyRows(content, {key})
      ensures row in KeyRows(content, {key}) ==> row in KeyRows(content, keys)
    {
      InRows(content, keys, row);
      InRows(content, keys - {key}, row);
      InRows(content, {key}, row);
    }
    InRows(content, keys, Row(key, content[key][0]));
  }

  lemma FileHoldsBucket(content: map<Key, seq<seq<Cell>>>, disk: seq<File>, key: Key)
    requires key in content
    ensures DiskRows(disk + [File(key, content[key])]) == DiskRows(disk) + KeyRows(content, {key})
  {
    var now := disk + [File(key, content[key])];
    forall row
      ensures row in DiskRows(now) <==> row in DiskRows(disk) + KeyRows(content, {key})
    {
      InRows(content, {key}, row);
      if row in DiskRows(disk) {
        var f, r :| f in disk && r in f.rows && row == Row(f.key, r);
        assert f in now;
      }
      if row in KeyRows(content, {key}) {
        assert now[|disk|] in now;
      }
    }
  }

  /** The buckets of some keys. */
  ghost function Only(content: map<Key, seq<seq<Cell>>>, keys: set<Key>): map<Key, seq<seq<Cell>>>
  {
    map k | k in content && k in keys :: content[k]
  }

  ghost function ContentRows(content: map<Key, seq<seq<Cell>>>): set<Row>
  {
    set k, r | k in content && r in content[k] :: Row(k, r)
  }

  lemma ContentEmpty(content: map<Key, seq<seq<Cell>>>, key: Key)
    ensures key !in content ==> ContentRows(content[key := []]) == ContentRows(content)
  {
  }

  lemma ContentGrows(content: map<Key, seq<seq<Cell>>>, key: Key, cells: seq<Cell>)
    requires key in content
    ensures ContentRows(content[key := content[key] + [cells]]) == ContentRows(content) + {Row(key, cells)}
  {
    var now := content[key := content[key] + [cells]];
    forall row
      ensures row in ContentRows(now) <==> row in ContentRows(content) + {Row(key, cells)}
    {
      assert row in ContentRows(now) <==> row.key in now && row.cells in now[row.key];
      assert row in ContentRows(content) <==> row.key in content && row.cells in content[row.key];
    }
  }

  /** A row's cells have the kinds of its schema's columns. */
  ghost predicate Shaped(plan: Plan, cells: seq<Cell>)
  {
    && |cells| == ColumnCount(plan) && cells[0].Id? && cells[1].Num?
    && (forall j {:trigger cells[j]} :: DECL_OFFSET <= j < DECL_OFFSET + |plan.wireToDecl| ==> cells[j].Val?)
    && (forall j {:trigger cells[j]} :: DECL_OFFSET + |plan.wireToDecl| <= j < |cells| ==> cells[j].Num?)
  }

  ghost predicate RowsShaped(plans: seq<Plan>, rows: set<Row>)
  {
    forall row {:trigger row in rows} :: row in rows ==>
      row.key.schema < |plans| && Shaped(plans[row.key.schema], row.cells)
  }

  lemma ShapedMore(plans: seq<Plan>, rows: set<Row>, key: Key, entityId: Buffer, eventTime: int, values: seq<Buffer>,
                   ms: int, sq: int)
    requires RowsShaped(plans, rows) && key.schema < |plans|
    requires PlanOk(plans[key.schema]) && |values| == |plans[key.schema].wireToDecl|
    ensures RowsShaped(plans, rows + {Row(key, RowCells(plans[key.schema], entityId, eventTime, values, ms, sq))})
  {
    assert Shaped(plans[key.schema], RowCells(plans[key.schema], entityId, eventTime, values, ms, sq));
    hide RowCells, Shaped, PlanOk;
  }

  /** The rename was reached. */
  predicate Renamed(fault: WriteFault)
  {
    fault.NoFault? || fault.DirSyncFails?
  }

  ghost function DiskRows(disk: seq<File>): set<Row>
  {
    set f, r | f in disk && r in f.rows :: Row(f.key, r)
  }
}
