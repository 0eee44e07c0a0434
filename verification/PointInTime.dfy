/** Point-in-time reads: dedup, sort, binary-search as-of join and latest-per-entity,
    against a declarative definition that mentions neither files nor row order. Entity ids
    are represented by their rank in string order. */
module PointInTime {

  /** A stored feature row. `msgId` columns are compared only when the dataset has them. */
  datatype Row = Row(entity: int, eventTime: int, ms: int, sq: int, values: seq<int>)

  datatype Answer = Null | Found(row: Row)

  datatype Query = Query(entity: int, asOf: int)

  // ---------------------------------------------------------------------------
  // The declarative definition
  // ---------------------------------------------------------------------------

  predicate NotAfter(msgId: bool, a: Row, b: Row)
  {
    || a.eventTime < b.eventTime
    || (a.eventTime == b.eventTime && (!msgId || a.ms < b.ms || (a.ms == b.ms && a.sq <= b.sq)))
  }

  predicate InWindow(r: Row, lo: int, hi: int)
  {
    lo <= r.eventTime <= hi
  }

  predicate Matches(r: Row, q: Query, lookback: int)
  {
    r.entity == q.entity && InWindow(r, q.asOf - lookback, q.asOf)
  }

  /** The greatest matching row by (event time, message id), or null when there is none. */
  ghost predicate IsAsOf(msgId: bool, rows: set<Row>, q: Query, lookback: int, a: Answer)
  {
    match a
    case Null => forall r :: r in rows ==> !Matches(r, q, lookback)
    case Found(x) =>
      x in rows && Matches(x, q, lookback) && forall r :: r in rows && Matches(r, q, lookback) ==> NotAfter(msgId, r, x)
  }

  /** No matching row is newer than `x`: none has a later event time, and with message ids none of
      the same time has a greater id, milliseconds first and then sequence number. */
  ghost predicate Newest(msgId: bool, rows: set<Row>, q: Query, lookback: int, x: Row)
  {
    && x in rows && x.entity == q.entity && q.asOf - lookback <= x.eventTime <= q.asOf
    && forall r {:trigger r in rows} ::
         r in rows && r.entity == q.entity && q.asOf - lookback <= r.eventTime <= q.asOf ==>
           && r.eventTime <= x.eventTime
           && (msgId && r.eventTime == x.eventTime ==> r.ms <= x.ms && (r.ms == x.ms ==> r.sq <= x.sq))
  }

  /** The definition spelled out: an answer is a newest row of the entity in the window, and there
      is none exactly when the entity has no row there. */
  lemma AsOfMeans(msgId: bool, rows: set<Row>, q: Query, lookback: int, a: Answer)
    ensures IsAsOf(msgId, rows, q, lookback, a) <==>
              match a
              case Found(x) => Newest(msgId, rows, q, lookback, x)
              case Null =>
                forall r :: r in rows && r.entity == q.entity ==> !(q.asOf - lookback <= r.eventTime <= q.asOf)
  {
    if a.Found? && IsAsOf(msgId, rows, q, lookback, a) {
      forall r | r in rows && r.entity == q.entity && q.asOf - lookback <= r.eventTime <= q.asOf
        ensures NotAfter(msgId, r, a.row)
      {
        assert Matches(r, q, lookback);
      }
    }
  }

  ghost predicate SameMsgId(a: Row, b: Row)
  {
    a.ms == b.ms && a.sq == b.sq
  }

  /** A message id is written with one payload only. */
  ghost predicate KeyDetermines(rows: set<Row>)
  {
    forall a, b :: a in rows && b in rows && SameMsgId(a, b) ==> a == b
  }

  /** Two different matching rows share the greatest sort key. */
  ghost predicate TopTie(msgId: bool, rows: set<Row>, q: Query, lookback: int)
  {
    exists r, s {:trigger TiedAt(msgId, rows, q, lookback, r, s)} :: TiedAt(msgId, rows, q, lookback, r, s)
  }

  ghost predicate TiedAt(msgId: bool, rows: set<Row>, q: Query, lookback: int, r: Row, s: Row)
  {
    && r in rows && s in rows && r != s && Matches(r, q, lookback) && Matches(s, q, lookback)
    && r.eventTime == s.eventTime && (msgId ==> SameMsgId(r, s))
    && forall t :: t in rows && Matches(t, q, lookback) ==> NotAfter(msgId, t, r)
  }

  /** The definition has at most one answer if and only if no rows tie for the greatest. */
  lemma AnswerUnique(msgId: bool, rows: set<Row>, q: Query, lookback: int)
    ensures (forall a, b :: IsAsOf(msgId, rows, q, lookback, a) && IsAsOf(msgId, rows, q, lookback, b) ==> a == b)
            <==> !TopTie(msgId, rows, q, lookback)
  {
    if r, s :| TiedAt(msgId, rows, q, lookback, r, s) {
      assert IsAsOf(msgId, rows, q, lookback, Found(r)) && IsAsOf(msgId, rows, q, lookback, Found(s));
    } else {
      forall a, b | IsAsOf(msgId, rows, q, lookback, a) && IsAsOf(msgId, rows, q, lookback, b)
        ensures a == b
      {
        SameAnswer(msgId, rows, q, lookback, a, b);
      }
    }
  }

  lemma SameAnswer(msgId: bool, rows: set<Row>, q: Query, lookback: int, a: Answer, b: Answer)
    requires !TopTie(msgId, rows, q, lookback)
    requires IsAsOf(msgId, rows, q, lookback, a) && IsAsOf(msgId, rows, q, lookback, b)
    ensures a == b
  {
    if a.Found? && b.Found? {
      assert NotAfter(msgId, a.row, b.row) && NotAfter(msgId, b.row, a.row);
      assert !TiedAt(msgId, rows, q, lookback, a.row, b.row);
    }
  }

  /** With payload-determining message ids nothing ties. */
  lemma MsgIdsUntied(rows: set<Row>, q: Query, lookback: int)
    requires KeyDetermines(rows)
    ensures !TopTie(true, rows, q, lookback)
  {
  }

  // ---------------------------------------------------------------------------
  // Ties: the last listed row
  // ---------------------------------------------------------------------------

  /** `x`, listed at `p`, is the last listed of the matching rows with the greatest event time. */
  ghost predicate LastAt(rows: seq<Row>, q: Query, lookback: int, x: Row, p: nat)
  {
    && p < |rows| && rows[p] == x && Matches(x, q, lookback)
    && forall j {:trigger rows[j]} :: 0 <= j < |rows| && Matches(rows[j], q, lookback) ==>
         rows[j].eventTime < x.eventTime || (rows[j].eventTime == x.eventTime && j <= p)
  }

  ghost predicate IsLastListed(rows: seq<Row>, q: Query, lookback: int, a: Answer)
  {
    match a
    case Null => forall r :: r in rows ==> !Matches(r, q, lookback)
    case Found(x) => exists p {:trigger LastAt(rows, q, lookback, x, p)} :: LastAt(rows, q, lookback, x, p)
  }

  lemma LastListedUnique(rows: seq<Row>, q: Query, lookback: int, a: Answer, b: Answer)
    requires IsLastListed(rows, q, lookback, a) && IsLastListed(rows, q, lookback, b)
    ensures a == b
  {
    if a.Found? && b.Found? {
      var i: nat :| LastAt(rows, q, lookback, a.row, i);
      var j: nat :| LastAt(rows, q, lookback, b.row, j);
      assert rows[i] == a.row && rows[j] == b.row;
    }
  }

  lemma LastListedIsAsOf(rows: seq<Row>, q: Query, lookback: int, a: Answer)
    requires IsLastListed(rows, q, lookback, a)
    ensures IsAsOf(false, Elems(rows), q, lookback, a)
  {
    if a.Found? {
      var p: nat :| LastAt(rows, q, lookback, a.row, p);
      assert rows[p] in rows;
      forall r | r in Elems(rows) && Matches(r, q, lookback)
        ensures NotAfter(false, r, a.row)
      {
        var j :| 0 <= j < |rows| && rows[j] == r;
      }
    }
  }

  /** `rows` with the row listed at `k` listed last. */
  function MovedLast(rows: seq<Row>, k: nat): (out: seq<Row>)
    requires k < |rows|
    ensures multiset(out) == multiset(rows)
  {
    assert rows == rows[..k] + [rows[k]] + rows[k + 1..];
    rows[..k] + rows[k + 1..] + [rows[k]]
  }

  lemma TiedLastWins(rows: seq<Row>, q: Query, lookback: int, r: Row, s: Row) returns (b: seq<Row>)
    requires TiedAt(false, Elems(rows), q, lookback, r, s)
    ensures multiset(b) == multiset(rows) && IsLastListed(b, q, lookback, Found(r))
  {
    var k :| 0 <= k < |rows| && rows[k] == r;
    b := MovedLast(rows, k);
    forall j | 0 <= j < |b| && Matches(b[j], q, lookback)
      ensures b[j].eventTime <= r.eventTime
    {
      assert b[j] in multiset(b);
      assert b[j] in rows;
    }
    assert LastAt(b, q, lookback, r, |b| - 1);
  }

  // ---------------------------------------------------------------------------
  // Dedup
  // ---------------------------------------------------------------------------

  ghost function Elems(rows: seq<Row>): set<Row>
  {
    set r | r in rows
  }

  predicate SameGroup(msgId: bool, a: Row, b: Row)
  {
    if msgId then a.ms == b.ms && a.sq == b.sq else a.entity == b.entity && a.eventTime == b.eventTime
  }

  /** `out` keeps one row per group of `rows[..k]`; `from` gives each kept row's place: the
      group's first with message ids, its last without. */
  ghost predicate Deduped(rows: seq<Row>, k: nat, msgId: bool, out: seq<Row>, from: seq<nat>)
    requires k <= |rows|
  {
    && |from| == |out|
    && (forall i {:trigger out[i]} :: 0 <= i < |out| ==> KeptRow(rows, k, msgId, out[i], from[i]))
    && (forall j {:trigger rows[j]} :: 0 <= j < k ==> Represented(msgId, rows[j], out))
    && (forall i, j {:trigger out[i], out[j]} :: 0 <= i < j < |out| ==> !SameGroup(msgId, out[i], out[j]))
  }

  ghost predicate KeptRow(rows: seq<Row>, k: nat, msgId: bool, x: Row, at: nat)
    requires k <= |rows|
  {
    at < k && x == rows[at]
    && forall j {:trigger rows[j]} :: 0 <= j < k && SameGroup(msgId, rows[j], x) ==> if msgId then at <= j else j <= at
  }

  ghost predicate Represented(msgId: bool, r: Row, out: seq<Row>)
  {
    exists i {:trigger out[i]} :: 0 <= i < |out| && SameGroup(msgId, r, out[i])
  }

  method FindGroup(out: seq<Row>, msgId: bool, x: Row) returns (at: nat)
    ensures at <= |out| && (at < |out| ==> SameGroup(msgId, x, out[at]))
    ensures forall i :: 0 <= i < at ==> !SameGroup(msgId, x, out[i])
  {
    at := 0;
    while at < |out| && !SameGroup(msgId, x, out[at])
      invariant at <= |out| && forall i :: 0 <= i < at ==> !SameGroup(msgId, x, out[i])
    {
      at := at + 1;
    }
  }

  lemma GroupUnique(msgId: bool, out: seq<Row>, x: Row, i: nat, j: nat)
    requires forall i, j {:trigger out[i], out[j]} :: 0 <= i < j < |out| ==> !SameGroup(msgId, out[i], out[j])
    requires i < |out| && j < |out| && SameGroup(msgId, x, out[i]) && SameGroup(msgId, x, out[j])
    ensures i == j
  {
  }

  lemma KeptStep(rows: seq<Row>, k: nat, msgId: bool, x: Row, at: nat)
    requires k < |rows| && KeptRow(rows, k, msgId, x, at)
    ensures (SameGroup(msgId, rows[k], x) ==> msgId) ==> KeptRow(rows, k + 1, msgId, x, at)
    ensures SameGroup(msgId, rows[k], x) && !msgId ==> KeptRow(rows, k + 1, msgId, rows[k], k)
  {
  }

  lemma NewGroup(rows: seq<Row>, k: nat, msgId: bool, out: seq<Row>)
    requires k < |rows| && forall j {:trigger rows[j]} :: 0 <= j < k ==> Represented(msgId, rows[j], out)
    requires forall i :: 0 <= i < |out| ==> !SameGroup(msgId, rows[k], out[i])
    ensures KeptRow(rows, k + 1, msgId, rows[k], k)
  {
    forall j | 0 <= j < k
      ensures !SameGroup(msgId, rows[j], rows[k])
    {
      assert Represented(msgId, rows[j], out);
    }
  }

  /** What dedup does with input row `k`, whose group is at `at` or new. */
  ghost predicate Absorbed(rows: seq<Row>, k: nat, msgId: bool, out: seq<Row>, from: seq<nat>, at: nat, now: seq<Row>,
                           nowFrom: seq<nat>)
    requires k < |rows| && at <= |out| == |from|
  {
    && (at < |out| ==> SameGroup(msgId, rows[k], out[at]))
    && (forall i {:trigger out[i]} :: 0 <= i < at ==> !SameGroup(msgId, rows[k], out[i]))
    && (if at == |out| then now == out + [rows[k]] && nowFrom == from + [k]
        else if msgId then now == out && nowFrom == from
        else now == out[at := rows[k]] && nowFrom == from[at := k])
  }

  lemma AbsorbedKept(rows: seq<Row>, k: nat, msgId: bool, out: seq<Row>, from: seq<nat>, at: nat, now: seq<Row>,
                     nowFrom: seq<nat>, i: nat)
    requires k < |rows| && Deduped(rows, k, msgId, out, from) && at <= |out|
    requires Absorbed(rows, k, msgId, out, from, at, now, nowFrom) && i < |now|
    ensures |now| == |nowFrom| && KeptRow(rows, k + 1, msgId, now[i], nowFrom[i])
  {
    hide KeptRow, Represented, SameGroup;
    if i < |out| {
      assert KeptRow(rows, k, msgId, out[i], from[i]);
      KeptStep(rows, k, msgId, out[i], from[i]);
      if SameGroup(msgId, rows[k], out[i]) && at < |out| {
        GroupUnique(msgId, out, rows[k], i, at);
      }
    } else {
      NewGroup(rows, k, msgId, out);
    }
  }

  lemma AbsorbedRepresented(rows: seq<Row>, k: nat, msgId: bool, out: seq<Row>, from: seq<nat>, at: nat, now: seq<Row>,
                            nowFrom: seq<nat>, j: nat)
    requires k < |rows| && Deduped(rows, k, msgId, out, from) && at <= |out|
    requires Absorbed(rows, k, msgId, out, from, at, now, nowFrom) && j <= k
    ensures Represented(msgId, rows[j], now)
  {
    hide KeptRow;
    if j < k {
      assert Represented(msgId, rows[j], out);
      var i :| 0 <= i < |out| && SameGroup(msgId, rows[j], out[i]);
      assert SameGroup(msgId, rows[j], now[i]);
    } else {
      assert SameGroup(msgId, rows[k], now[at]);
    }
  }

  lemma AbsorbedDistinct(rows: seq<Row>, k: nat, msgId: bool, out: seq<Row>, from: seq<nat>, at: nat, now: seq<Row>,
                         nowFrom: seq<nat>, i: nat, j: nat)
    requires k < |rows| && Deduped(rows, k, msgId, out, from) && at <= |out|
    requires Absorbed(rows, k, msgId, out, from, at, now, nowFrom) && i < j < |now|
    ensures !SameGroup(msgId, now[i], now[j])
  {
    hide KeptRow, Represented;
    assert j < |out| ==> !SameGroup(msgId, out[i], out[j]);
    assert i < at ==> !SameGroup(msgId, rows[k], out[i]);
  }

  /** One more input row: it opens a group, or meets its own. */
  lemma DedupStep(rows: seq<Row>, k: nat, msgId: bool, out: seq<Row>, from: seq<nat>, at: nat, now: seq<Row>,
                  nowFrom: seq<nat>)
    requires k < |rows| && Deduped(rows, k, msgId, out, from) && at <= |out|
    requires Absorbed(rows, k, msgId, out, from, at, now, nowFrom)
    ensures Deduped(rows, k + 1, msgId, now, nowFrom)
  {
    hide KeptRow, Represented, SameGroup;
    forall i | 0 <= i < |now|
      ensures KeptRow(rows, k + 1, msgId, now[i], nowFrom[i])
    {
      AbsorbedKept(rows, k, msgId, out, from, at, now, nowFrom, i);
    }
    forall j | 0 <= j < k + 1
      ensures Represented(msgId, rows[j], now)
    {
      AbsorbedRepresented(rows, k, msgId, out, from, at, now, nowFrom, j);
    }
    forall i, j | 0 <= i < j < |now|
      ensures !SameGroup(msgId, now[i], now[j])
    {
      AbsorbedDistinct(rows, k, msgId, out, from, at, now, nowFrom, i, j);
    }
  }

  /** `_dedup_features`. */
  method DedupFeatures(rows: seq<Row>, msgId: bool) returns (out: seq<Row>, ghost from: seq<nat>)
    ensures Deduped(rows, |rows|, msgId, out, from)
    ensures exists places: seq<nat> :: Deduped(rows, |rows|, msgId, out, places)
  {
    hide Deduped;
    out, from := [], [];
    NothingDeduped(rows, msgId);
    for k := 0 to |rows|
      invariant Deduped(rows, k, msgId, out, from)
    {
      var at := FindGroup(out, msgId, rows[k]);
      ghost var was, before := out, from;
      DedupShape(rows, k, msgId, out, from);
      if at == |out| {
        out, from := out + [rows[k]], from + [k];
      } else if !msgId {
        out, from := out[at := rows[k]], from[at := k];
      }
      DedupStep(rows, k, msgId, was, before, at, out, from);
    }
  }

  lemma NothingDeduped(rows: seq<Row>, msgId: bool)
    ensures Deduped(rows, 0, msgId, [], [])
  {
  }

  lemma DedupShape(rows: seq<Row>, k: nat, msgId: bool, out: seq<Row>, from: seq<nat>)
    requires k <= |rows| && Deduped(rows, k, msgId, out, from)
    ensures |from| == |out|
  {
  }

  /** Kept rows are input rows, and every input row is represented. */
  lemma DedupCovers(rows: seq<Row>, msgId: bool, out: seq<Row>, from: seq<nat>)
    requires Deduped(rows, |rows|, msgId, out, from)
    ensures forall r :: r in out ==> r in rows
    ensures forall r :: r in rows ==> Represented(msgId, r, out)
  {
    forall r | r in out
      ensures r in rows
    {
      var i :| 0 <= i < |out| && out[i] == r;
      assert KeptRow(rows, |rows|, msgId, out[i], from[i]);
    }
  }

  /** With payload-determining message ids, dedup drops nothing but repeats. */
  lemma DedupKeepsRows(rows: seq<Row>, out: seq<Row>)
    requires KeyDetermines(Elems(rows))
    requires forall r :: r in out ==> r in rows
    requires forall r :: r in rows ==> Represented(true, r, out)
    ensures Elems(out) == Elems(rows)
  {
    forall r | r in rows
      ensures r in out
    {
      assert Represented(true, r, out);
      var i :| 0 <= i < |out| && SameGroup(true, r, out[i]);
      assert out[i] in rows && SameMsgId(r, out[i]);
      assert r in Elems(rows) && out[i] in Elems(rows);
    }
  }

  /** Dedup changes no answer: crash-replay duplicates and, without message ids, same-time
      rows are interchangeable for the as-of order. */
  lemma DedupKeepsAnswers(msgId: bool, rows: seq<Row>, out: seq<Row>, q: Query, lookback: int, a: Answer)
    requires msgId ==> KeyDetermines(Elems(rows))
    requires forall r :: r in out ==> r in rows
    requires forall r :: r in rows ==> Represented(msgId, r, out)
    requires IsAsOf(msgId, Elems(out), q, lookback, a)
    ensures IsAsOf(msgId, Elems(rows), q, lookback, a)
  {
    if msgId {
      DedupKeepsRows(rows, out);
    } else {
      forall r | r in Elems(rows) && Matches(r, q, lookback)
        ensures a.Found? && NotAfter(msgId, r, a.row)
      {
        assert Represented(msgId, r, out);
        var i :| 0 <= i < |out| && SameGroup(msgId, r, out[i]);
        assert out[i] in Elems(out) && Matches(out[i], q, lookback);
      }
    }
  }

  // ---------------------------------------------------------------------------
  // Sorting and searching
  // ---------------------------------------------------------------------------

  predicate SortedBefore(msgId: bool, a: Row, b: Row)
  {
    a.entity < b.entity || (a.entity == b.entity && NotAfter(msgId, a, b))
  }

  ghost predicate InOrder(msgId: bool, rows: seq<Row>)
  {
    forall i, j {:trigger rows[i], rows[j]} :: 0 <= i < j < |rows| ==> SortedBefore(msgId, rows[i], rows[j])
  }

  /** `sort_by(entity_id, event_time_ns[, msg_id])`. The order of ties is unspecified. */
  method SortRows(rows: seq<Row>, msgId: bool) returns (out: seq<Row>)
    ensures InOrder(msgId, out) && Elems(out) == Elems(rows) && |out| == |rows|
  {
    out := [];
    for k := 0 to |rows|
      invariant InOrder(msgId, out) && |out| == k
      invariant forall r :: r in out <==> r in rows[..k]
    {
      var at := k;
      while at > 0 && !SortedBefore(msgId, out[at - 1], rows[k])
        invariant 0 <= at <= k
        invariant forall i :: at <= i < k ==> SortedBefore(msgId, rows[k], out[i])
      {
        at := at - 1;
      }
      ghost var was := out;
      out := out[..at] + [rows[k]] + out[at..];
      InsertedInOrder(msgId, was, at, rows[k]);
      assert was == was[..at] + was[at..];
      assert rows[..k + 1] == rows[..k] + [rows[k]];
    }
    assert rows[..|rows|] == rows;
  }

  lemma InsertedInOrder(msgId: bool, was: seq<Row>, at: nat, x: Row)
    requires at <= |was| && InOrder(msgId, was)
    requires at > 0 ==> SortedBefore(msgId, was[at - 1], x)
    requires forall i :: at <= i < |was| ==> SortedBefore(msgId, x, was[i])
    ensures InOrder(msgId, was[..at] + [x] + was[at..])
  {
    var out := was[..at] + [x] + was[at..];
    forall i, j | 0 <= i < j < |out|
      ensures SortedBefore(msgId, out[i], out[j])
    {
      if j == at && i < at - 1 {
        assert SortedBefore(msgId, was[i], was[at - 1]);
      }
    }
  }

  /** `numpy.searchsorted`: the insertion point on either side of equal elements. */
  method SearchSorted(a: seq<int>, x: int, right: bool) returns (pos: nat)
    requires forall i, j {:trigger a[i], a[j]} :: 0 <= i < j < |a| ==> a[i] <= a[j]
    ensures pos <= |a|
    ensures forall i :: 0 <= i < pos ==> if right then a[i] <= x else a[i] < x
    ensures forall i :: pos <= i < |a| ==> if right then a[i] > x else a[i] >= x
  {
    var lo, hi := 0, |a|;
    while lo < hi
      invariant 0 <= lo <= hi <= |a|
      invariant forall i :: 0 <= i < lo ==> if right then a[i] <= x else a[i] < x
      invariant forall i :: hi <= i < |a| ==> if right then a[i] > x else a[i] >= x
    {
      var mid := (lo + hi) / 2;
      if (if right then a[mid] <= x else a[mid] < x) {
        lo := mid + 1;
      } else {
        hi := mid;
      }
    }
    pos := lo;
  }

  // ---------------------------------------------------------------------------
  // The as-of join
  // ---------------------------------------------------------------------------

  /** One query against the sorted features: the entity's slice, then the last row at or
      before the as-of time, then that query's own lookback. */
  method AsOfOne(sorted: seq<Row>, eids: seq<int>, ets: seq<int>, msgId: bool, q: Query, lookback: int)
    returns (a: Answer)
    requires InOrder(msgId, sorted) && |eids| == |ets| == |sorted|
    requires forall i :: 0 <= i < |sorted| ==> eids[i] == sorted[i].entity && ets[i] == sorted[i].eventTime
    ensures IsAsOf(msgId, Elems(sorted), q, lookback, a)
  {
    SortedColumns(sorted, msgId, eids);
    var lo := SearchSorted(eids, q.entity, false);
    var hi := SearchSorted(eids, q.entity, true);
    SliceIsEntity(sorted, eids, q.entity, lo, hi);
    if lo == hi {
      return Null;
    }
    assert forall i, j {:trigger ets[lo..hi][i], ets[lo..hi][j]} :: 0 <= i < j < hi - lo ==>
      ets[lo..hi][i] <= ets[lo..hi][j] by {
      assert forall i, j :: lo <= i < j < hi ==> SortedBefore(msgId, sorted[i], sorted[j]);
    }
    var pos := SearchSorted(ets[lo..hi], q.asOf, true);
    assert forall i :: lo <= i < hi ==> ets[i] == ets[lo..hi][i - lo];
    if pos == 0 {
      return Null;
    }
    var candidate := lo + pos - 1;
    LastBeforeIsGreatest(sorted, msgId, q, lo, hi, candidate);
    if ets[candidate] < q.asOf - lookback {
      return Null;
    }
    return Found(sorted[candidate]);
  }

  lemma SortedColumns(sorted: seq<Row>, msgId: bool, eids: seq<int>)
    requires InOrder(msgId, sorted) && |eids| == |sorted|
    requires forall i :: 0 <= i < |sorted| ==> eids[i] == sorted[i].entity
    ensures forall i, j {:trigger eids[i], eids[j]} :: 0 <= i < j < |eids| ==> eids[i] <= eids[j]
  {
    forall i, j | 0 <= i < j < |eids|
      ensures eids[i] <= eids[j]
    {
      assert SortedBefore(msgId, sorted[i], sorted[j]);
    }
  }

  lemma SliceIsEntity(sorted: seq<Row>, eids: seq<int>, entity: int, lo: nat, hi: nat)
    requires |eids| == |sorted| && forall i :: 0 <= i < |sorted| ==> eids[i] == sorted[i].entity
    requires lo <= |eids| && hi <= |eids|
    requires forall i :: 0 <= i < lo ==> eids[i] < entity
    requires forall i :: lo <= i < |eids| ==> eids[i] >= entity
    requires forall i :: 0 <= i < hi ==> eids[i] <= entity
    requires forall i :: hi <= i < |eids| ==> eids[i] > entity
    ensures lo <= hi && forall i :: 0 <= i < |sorted| ==> (sorted[i].entity == entity <==> lo <= i < hi)
  {
    assert lo > 0 ==> eids[lo - 1] < entity;
    forall i | 0 <= i < |sorted|
      ensures sorted[i].entity == entity <==> lo <= i < hi
    {
      assert eids[i] == sorted[i].entity;
    }
  }

  /** Within an entity's slice, a row no later than the as-of time is no later than the candidate. */
  lemma LastBeforeIsGreatest(sorted: seq<Row>, msgId: bool, q: Query, lo: nat, hi: nat, candidate: nat)
    requires InOrder(msgId, sorted) && lo <= candidate < hi <= |sorted|
    requires forall i :: 0 <= i < |sorted| ==> (sorted[i].entity == q.entity <==> lo <= i < hi)
    requires forall i :: lo <= i <= candidate ==> sorted[i].eventTime <= q.asOf
    requires forall i :: candidate < i < hi ==> sorted[i].eventTime > q.asOf
    ensures forall r :: r in Elems(sorted) && r.entity == q.entity && r.eventTime <= q.asOf ==>
              NotAfter(msgId, r, sorted[candidate])
  {
    forall r | r in Elems(sorted) && r.entity == q.entity && r.eventTime <= q.asOf
      ensures NotAfter(msgId, r, sorted[candidate])
    {
      var i :| 0 <= i < |sorted| && sorted[i] == r;
      assert lo <= i <= candidate;
      if i < candidate {
        assert SortedBefore(msgId, sorted[i], sorted[candidate]);
      }
    }
  }

  /** `_asof_join`. */
  method AsOfJoin(queries: seq<Query>, features: seq<Row>, msgId: bool, lookback: int) returns (out: seq<Answer>)
    ensures |out| == |queries|
    ensures forall i :: 0 <= i < |out| ==> IsAsOf(msgId, Elems(features), queries[i], lookback, out[i])
  {
    hide IsAsOf;
    var sorted := SortRows(features, msgId);
    var eids := seq(|sorted|, i requires 0 <= i < |sorted| => sorted[i].entity);
    var ets := seq(|sorted|, i requires 0 <= i < |sorted| => sorted[i].eventTime);
    out := [];
    for i := 0 to |queries|
      invariant |out| == i
      invariant forall j :: 0 <= j < i ==> IsAsOf(msgId, Elems(features), queries[j], lookback, out[j])
    {
      var a := AsOfOne(sorted, eids, ets, msgId, queries[i], lookback);
      out := out + [a];
    }
  }

  // ---------------------------------------------------------------------------
  // read_point_in_time
  // ---------------------------------------------------------------------------

  function Filtered(rows: seq<Row>, lo: int, hi: int): (out: seq<Row>)
  {
    if rows == [] then []
    else Filtered(rows[..|rows| - 1], lo, hi) + (if InWindow(rows[|rows| - 1], lo, hi) then [rows[|rows| - 1]] else [])
  }

  lemma {:induction false} FilteredRows(rows: seq<Row>, lo: int, hi: int)
    ensures forall r :: r in Filtered(rows, lo, hi) <==> r in rows && InWindow(r, lo, hi)
  {
    if rows != [] {
      var init, last := rows[..|rows| - 1], rows[|rows| - 1];
      FilteredRows(init, lo, hi);
      assert rows == init + [last];
    }
  }

  /** A window at least as wide as the query's own changes no answer. */
  lemma FilterKeepsAnswers(msgId: bool, rows: seq<Row>, lo: int, hi: int, q: Query, lookback: int, a: Answer)
    requires lo <= q.asOf - lookback && q.asOf <= hi
    ensures IsAsOf(msgId, Elems(Filtered(rows, lo, hi)), q, lookback, a) <==> IsAsOf(msgId, Elems(rows), q, lookback, a)
  {
    FilteredRows(rows, lo, hi);
    var few, all := Elems(Filtered(rows, lo, hi)), Elems(rows);
    assert forall r :: r in few ==> r in all;
    assert forall r :: r in all && Matches(r, q, lookback) ==> r in few;
  }

  /** `places` are the places, in order, of `few` in `rows`, among them that of every row in the window. */
  ghost predicate ListedAt(rows: seq<Row>, lo: int, hi: int, few: seq<Row>, places: seq<nat>)
  {
    && |places| == |few|
    && (forall i {:trigger places[i]} :: 0 <= i < |places| ==> places[i] < |rows| && rows[places[i]] == few[i])
    && (forall i, j {:trigger places[i], places[j]} :: 0 <= i < j < |places| ==> places[i] < places[j])
    && (forall k {:trigger rows[k]} :: 0 <= k < |rows| && InWindow(rows[k], lo, hi) ==> k in places)
  }

  lemma ListedMore(init: seq<Row>, last: Row, lo: int, hi: int, few: seq<Row>, places: seq<nat>)
    requires ListedAt(init, lo, hi, few, places)
    ensures InWindow(last, lo, hi) ==> ListedAt(init + [last], lo, hi, few + [last], places + [|init|])
    ensures !InWindow(last, lo, hi) ==> ListedAt(init + [last], lo, hi, few, places)
  {
    hide InWindow;
    var rows := init + [last];
    forall k | 0 <= k < |rows| && InWindow(rows[k], lo, hi)
      ensures k in places || (k == |init| && InWindow(last, lo, hi))
    {
      if k < |init| {
        assert init[k] == rows[k];
      }
    }
    assert |init| in places + [|init|];
    forall k | k in places
      ensures k in places + [|init|]
    {
    }
  }

  /** Where the filtered rows were listed. */
  lemma {:induction false} FilteredPlaces(rows: seq<Row>, lo: int, hi: int) returns (places: seq<nat>)
    ensures ListedAt(rows, lo, hi, Filtered(rows, lo, hi), places)
  {
    hide ListedAt, InWindow;
    places := [];
    if rows == [] {
      assert ListedAt([], lo, hi, [], []) by { NothingListed(lo, hi); }
    } else {
      var init, last := rows[..|rows| - 1], rows[|rows| - 1];
      assert rows == init + [last];
      var before := FilteredPlaces(init, lo, hi);
      ListedMore(init, last, lo, hi, Filtered(init, lo, hi), before);
      places := if InWindow(last, lo, hi) then before + [|init|] else before;
      assert Filtered(init, lo, hi) + [] == Filtered(init, lo, hi);
    }
  }

  lemma NothingListed(lo: int, hi: int)
    ensures ListedAt([], lo, hi, [], [])
  {
  }

  /** A wide enough window also keeps which of the tied rows is listed last. */
  lemma FilterKeepsLast(rows: seq<Row>, lo: int, hi: int, q: Query, lookback: int, a: Answer)
    requires lo <= q.asOf - lookback && q.asOf <= hi
    requires IsLastListed(Filtered(rows, lo, hi), q, lookback, a)
    ensures IsLastListed(rows, q, lookback, a)
  {
    FilteredRows(rows, lo, hi);
    if a.Found? {
      var few := Filtered(rows, lo, hi);
      var places := FilteredPlaces(rows, lo, hi);
      var p: nat :| LastAt(few, q, lookback, a.row, p);
      forall k | 0 <= k < |rows| && Matches(rows[k], q, lookback)
        ensures rows[k].eventTime < a.row.eventTime || (rows[k].eventTime == a.row.eventTime && k <= places[p])
      {
        var j :| 0 <= j < |places| && places[j] == k;
        assert few[j] == rows[k];
      }
      assert LastAt(rows, q, lookback, a.row, places[p]);
    }
  }

  lemma KeptIsLast(rows: seq<Row>, out: seq<Row>, q: Query, lookback: int, x: Row, at: nat)
    requires KeptRow(rows, |rows|, false, x, at) && IsAsOf(false, Elems(out), q, lookback, Found(x))
    requires forall r :: r in rows ==> Represented(false, r, out)
    ensures LastAt(rows, q, lookback, x, at)
  {
    forall j | 0 <= j < |rows| && Matches(rows[j], q, lookback)
      ensures rows[j].eventTime < x.eventTime || (rows[j].eventTime == x.eventTime && j <= at)
    {
      assert Represented(false, rows[j], out);
      var m :| 0 <= m < |out| && SameGroup(false, rows[j], out[m]);
      assert out[m] in Elems(out) && Matches(out[m], q, lookback);
    }
  }

  /** Without message ids dedup leaves, of tied rows, the last listed. */
  lemma DedupKeepsLast(rows: seq<Row>, out: seq<Row>, from: seq<nat>, q: Query, lookback: int, a: Answer)
    requires Deduped(rows, |rows|, false, out, from) && IsAsOf(false, Elems(out), q, lookback, a)
    ensures IsLastListed(rows, q, lookback, a)
  {
    DedupCovers(rows, false, out, from);
    if a.Null? {
      forall r | r in rows
        ensures !Matches(r, q, lookback)
      {
        assert Represented(false, r, out);
        var i :| 0 <= i < |out| && SameGroup(false, r, out[i]);
        assert out[i] in Elems(out);
      }
    } else {
      var i :| 0 <= i < |out| && out[i] == a.row;
      assert KeptRow(rows, |rows|, false, out[i], from[i]);
      KeptIsLast(rows, out, q, lookback, a.row, from[i]);
    }
  }

  datatype ReadResult = Rows(answers: seq<Answer>) | BadLookback

  /** `read_point_in_time`: load one window wide enough for every query, dedup, join. Each
      answer is the definition's, on all stored rows; without message ids, where rows may
      tie, it is the last listed of them. */
  method ReadPointInTime(rows: seq<Row>, queries: seq<Query>, msgId: bool, lookback: int) returns (r: ReadResult)
    requires msgId ==> KeyDetermines(Elems(rows))
    ensures r.BadLookback? <==> lookback <= 0
    ensures r.Rows? ==> |r.answers| == |queries|
    ensures r.Rows? ==> forall i :: 0 <= i < |queries| ==>
              IsAsOf(msgId, Elems(rows), queries[i], lookback, r.answers[i])
    ensures r.Rows? ==> forall i :: 0 <= i < |queries| && r.answers[i].Found? ==>
              Newest(msgId, Elems(rows), queries[i], lookback, r.answers[i].row)
    ensures r.Rows? && !msgId ==> forall i :: 0 <= i < |queries| ==>
              IsLastListed(rows, queries[i], lookback, r.answers[i])
  {
    if lookback <= 0 {
      return BadLookback;
    }
    if queries == [] {
      return Rows([]);
    }
    var minAsOf, maxAsOf := queries[0].asOf, queries[0].asOf;
    for i := 1 to |queries|
      invariant forall j :: 0 <= j < i ==> minAsOf <= queries[j].asOf <= maxAsOf
    {
      minAsOf := if queries[i].asOf < minAsOf then queries[i].asOf else minAsOf;
      maxAsOf := if queries[i].asOf > maxAsOf then queries[i].asOf else maxAsOf;
    }
    var lo, hi := minAsOf - lookback, maxAsOf;
    var loaded := Filtered(rows, lo, hi);
    FilteredRows(rows, lo, hi);
    assert forall x :: x in Elems(loaded) ==> x in Elems(rows);
    var features, from := DedupFeatures(loaded, msgId);
    DedupCovers(loaded, msgId, features, from);
    var answers := AsOfJoin(queries, features, msgId, lookback);
    forall i | 0 <= i < |queries|
      ensures IsAsOf(msgId, Elems(rows), queries[i], lookback, answers[i])
    {
      DedupKeepsAnswers(msgId, loaded, features, queries[i], lookback, answers[i]);
      FilterKeepsAnswers(msgId, rows, lo, hi, queries[i], lookback, answers[i]);
    }
    forall i | 0 <= i < |queries| && answers[i].Found?
      ensures Newest(msgId, Elems(rows), queries[i], lookback, answers[i].row)
    {
      AsOfMeans(msgId, Elems(rows), queries[i], lookback, answers[i]);
    }
    if !msgId {
      forall i | 0 <= i < |queries|
        ensures IsLastListed(rows, queries[i], lookback, answers[i])
      {
        DedupKeepsLast(loaded, features, from, queries[i], lookback, answers[i]);
        FilterKeepsLast(rows, lo, hi, queries[i], lookback, answers[i]);
      }
    }
    return Rows(answers);
  }

  /** Files may be listed, and rows loaded, in any order and any number of times: two reads
      of the same rows agree on every query for which no rows tie. Without message ids each
      read answers a tie with the row its own listing has last. */
  method OrderIrrelevant(msgId: bool, a: seq<Row>, b: seq<Row>, queries: seq<Query>, lookback: int)
    returns (ra: ReadResult, rb: ReadResult)
    requires Elems(a) == Elems(b) && (msgId ==> KeyDetermines(Elems(a)))
    ensures ra.BadLookback? <==> lookback <= 0
    ensures rb.BadLookback? <==> lookback <= 0
    ensures lookback > 0 ==> |ra.answers| == |rb.answers| == |queries|
    ensures lookback > 0 ==> forall i :: 0 <= i < |queries| && !TopTie(msgId, Elems(a), queries[i], lookback) ==>
              ra.answers[i] == rb.answers[i]
    ensures lookback > 0 && msgId ==> ra == rb
    ensures lookback > 0 && !msgId ==> forall i :: 0 <= i < |queries| ==>
              IsLastListed(a, queries[i], lookback, ra.answers[i])
                && IsLastListed(b, queries[i], lookback, rb.answers[i])
  {
    ra := ReadPointInTime(a, queries, msgId, lookback);
    rb := ReadPointInTime(b, queries, msgId, lookback);
    if lookback > 0 {
      forall i | 0 <= i < |queries| && !TopTie(msgId, Elems(a), queries[i], lookback)
        ensures ra.answers[i] == rb.answers[i]
      {
        SameAnswer(msgId, Elems(a), queries[i], lookback, ra.answers[i], rb.answers[i]);
      }
      if msgId {
        forall i | 0 <= i < |queries|
          ensures ra.answers[i] == rb.answers[i]
        {
          MsgIdsUntied(Elems(a), queries[i], lookback);
        }
        assert ra.answers == rb.answers;
      }
    }
  }

  /** `x` is what a read answers that has the given rows in some order. */
  ghost predicate ReadInSomeOrder(rows: seq<Row>, q: Query, lookback: int, x: Answer)
  {
    exists a: seq<Row> {:trigger IsLastListed(a, q, lookback, x)} ::
      multiset(a) == multiset(rows) && IsLastListed(a, q, lookback, x)
  }

  /** Without message ids a query reads the same from every order of the same rows, if and
      only if no two different rows tie for its answer. */
  lemma OrderIrrelevantIff(rows: seq<Row>, q: Query, lookback: int)
    ensures (forall x, y :: ReadInSomeOrder(rows, q, lookback, x) && ReadInSomeOrder(rows, q, lookback, y) ==> x == y)
            <==> !TopTie(false, Elems(rows), q, lookback)
  {
    hide IsAsOf, IsLastListed, TiedAt;
    if r, s :| TiedAt(false, Elems(rows), q, lookback, r, s) {
      TiedEitherWay(rows, q, lookback, r, s);
      var a := TiedLastWins(rows, q, lookback, r, s);
      var b := TiedLastWins(rows, q, lookback, s, r);
      assert ReadInSomeOrder(rows, q, lookback, Found(r)) && ReadInSomeOrder(rows, q, lookback, Found(s));
    } else {
      forall x, y | ReadInSomeOrder(rows, q, lookback, x) && ReadInSomeOrder(rows, q, lookback, y)
        ensures x == y
      {
        var a :| multiset(a) == multiset(rows) && IsLastListed(a, q, lookback, x);
        var b :| multiset(b) == multiset(rows) && IsLastListed(b, q, lookback, y);
        SameElems(a, rows);
        SameElems(b, rows);
        LastListedIsAsOf(a, q, lookback, x);
        LastListedIsAsOf(b, q, lookback, y);
        SameAnswer(false, Elems(rows), q, lookback, x, y);
      }
    }
  }

  lemma SameElems(a: seq<Row>, b: seq<Row>)
    requires multiset(a) == multiset(b)
    ensures Elems(a) == Elems(b)
  {
    assert forall r :: r in a <==> r in multiset(a);
    assert forall r :: r in b <==> r in multiset(b);
  }

  lemma TiedEitherWay(rows: seq<Row>, q: Query, lookback: int, r: Row, s: Row)
    requires TiedAt(false, Elems(rows), q, lookback, r, s)
    ensures TiedAt(false, Elems(rows), q, lookback, s, r) && r != s
  {
  }

  // ---------------------------------------------------------------------------
  // latest_features
  // ---------------------------------------------------------------------------

  /** Position `e` ends its entity's run. */
  predicate EndsRun(sorted: seq<Row>, e: nat)
    requires e < |sorted|
  {
    e + 1 == |sorted| || sorted[e + 1].entity != sorted[e].entity
  }

  lemma {:induction false} RunHasEnd(sorted: seq<Row>, j: nat) returns (e: nat)
    requires j < |sorted|
    ensures j <= e < |sorted| && EndsRun(sorted, e) && sorted[e].entity == sorted[j].entity
    decreases |sorted| - j
  {
    if EndsRun(sorted, j) {
      e := j;
    } else {
      e := RunHasEnd(sorted, j + 1);
    }
  }

  lemma AfterRun(sorted: seq<Row>, msgId: bool, e: nat, j: nat)
    requires InOrder(msgId, sorted) && e < j < |sorted| && EndsRun(sorted, e)
    ensures sorted[j].entity > sorted[e].entity
  {
    assert SortedBefore(msgId, sorted[e], sorted[e + 1]);
    assert j > e + 1 ==> SortedBefore(msgId, sorted[e + 1], sorted[j]);
  }

  /** The end of a run is its entity's greatest row, and the entity never returns. */
  lemma RunEndIsGreatest(sorted: seq<Row>, msgId: bool, e: nat, j: nat)
    requires InOrder(msgId, sorted) && e < |sorted| && EndsRun(sorted, e) && j < |sorted|
    requires sorted[j].entity == sorted[e].entity
    ensures j <= e && NotAfter(msgId, sorted[j], sorted[e])
  {
    if j > e {
      AfterRun(sorted, msgId, e, j);
    } else if j < e {
      assert SortedBefore(msgId, sorted[j], sorted[e]);
    }
  }

  /** The group-by: one index per entity, the greatest. */
  method LastOfRuns(sorted: seq<Row>) returns (ends: seq<nat>)
    ensures forall i {:trigger ends[i]} :: 0 <= i < |ends| ==> ends[i] < |sorted| && EndsRun(sorted, ends[i])
    ensures forall i, j {:trigger ends[i], ends[j]} :: 0 <= i < j < |ends| ==> ends[i] < ends[j]
    ensures forall e {:trigger EndsRun(sorted, e)} :: 0 <= e < |sorted| && EndsRun(sorted, e) ==> e in ends
  {
    ends := [];
    for k := 0 to |sorted|
      invariant forall i {:trigger ends[i]} :: 0 <= i < |ends| ==> ends[i] < k && EndsRun(sorted, ends[i])
      invariant forall i, j {:trigger ends[i], ends[j]} :: 0 <= i < j < |ends| ==> ends[i] < ends[j]
      invariant forall e {:trigger EndsRun(sorted, e)} :: 0 <= e < k && EndsRun(sorted, e) ==> e in ends
    {
      if EndsRun(sorted, k) {
        ends := ends + [k];
      }
    }
  }

  datatype LatestResult = Latest(rows: seq<Row>) | BadWindow

  /** `latest_features`: within one window, the last row of each entity in sorted order. */
  method LatestFeatures(rows: seq<Row>, msgId: bool, snapshot: int, lookback: int) returns (r: LatestResult)
    ensures r.BadWindow? <==> lookback <= 0
    ensures r.Latest? ==> forall i, j {:trigger r.rows[i], r.rows[j]} :: 0 <= i < j < |r.rows| ==>
              r.rows[i].entity != r.rows[j].entity
    ensures r.Latest? ==> forall x :: x in rows && InWindow(x, snapshot - lookback, snapshot) ==>
              exists i {:trigger r.rows[i]} :: 0 <= i < |r.rows| && r.rows[i].entity == x.entity
    ensures r.Latest? ==> forall i {:trigger r.rows[i]} :: 0 <= i < |r.rows| ==>
              IsAsOf(msgId, Elems(rows), Query(r.rows[i].entity, snapshot), lookback, Found(r.rows[i]))
  {
    if lookback <= 0 {
      return BadWindow;
    }
    var loaded := Filtered(rows, snapshot - lookback, snapshot);
    FilteredRows(rows, snapshot - lookback, snapshot);
    var sorted := SortRows(loaded, msgId);
    var ends := LastOfRuns(sorted);
    var out := seq(|ends|, i requires 0 <= i < |ends| => sorted[ends[i]]);
    assert forall x :: x in rows && InWindow(x, snapshot - lookback, snapshot) ==> x in Elems(loaded);
    LatestIsAsOf(rows, sorted, msgId, snapshot, lookback, ends, out);
    return Latest(out);
  }

  lemma LatestIsAsOf(rows: seq<Row>, sorted: seq<Row>, msgId: bool, snapshot: int, lookback: int, ends: seq<nat>,
                     out: seq<Row>)
    requires InOrder(msgId, sorted) && |out| == |ends|
    requires forall r :: r in Elems(sorted) <==> r in rows && InWindow(r, snapshot - lookback, snapshot)
    requires forall i {:trigger ends[i]} :: 0 <= i < |ends| ==> ends[i] < |sorted| && EndsRun(sorted, ends[i])
    requires forall i, j {:trigger ends[i], ends[j]} :: 0 <= i < j < |ends| ==> ends[i] < ends[j]
    requires forall e {:trigger EndsRun(sorted, e)} :: 0 <= e < |sorted| && EndsRun(sorted, e) ==> e in ends
    requires forall i :: 0 <= i < |out| ==> out[i] == sorted[ends[i]]
    ensures forall i, j {:trigger out[i], out[j]} :: 0 <= i < j < |out| ==> out[i].entity != out[j].entity
    ensures forall r :: r in rows && InWindow(r, snapshot - lookback, snapshot) ==>
              exists i {:trigger out[i]} :: 0 <= i < |out| && out[i].entity == r.entity
    ensures forall i {:trigger out[i]} :: 0 <= i < |out| ==>
              IsAsOf(msgId, Elems(rows), Query(out[i].entity, snapshot), lookback, Found(out[i]))
  {
    hide InOrder, EndsRun;
    forall i, j | 0 <= i < j < |out|
      ensures out[i].entity != out[j].entity
    {
      if out[i].entity == out[j].entity {
        RunEndIsGreatest(sorted, msgId, ends[i], ends[j]);
      }
    }
    forall r | r in rows && InWindow(r, snapshot - lookback, snapshot)
      ensures exists i {:trigger out[i]} :: 0 <= i < |out| && out[i].entity == r.entity
    {
      assert r in Elems(sorted);
      var j :| 0 <= j < |sorted| && sorted[j] == r;
      var e := RunHasEnd(sorted, j);
      assert e in ends;
      var i :| 0 <= i < |ends| && ends[i] == e;
      assert out[i].entity == r.entity;
    }
    forall i | 0 <= i < |out|
      ensures IsAsOf(msgId, Elems(rows), Query(out[i].entity, snapshot), lookback, Found(out[i]))
    {
      var q := Query(out[i].entity, snapshot);
      assert out[i] in Elems(sorted) by { assert sorted[ends[i]] in sorted; }
      forall r | r in Elems(rows) && Matches(r, q, lookback)
        ensures NotAfter(msgId, r, out[i])
      {
        assert r in Elems(sorted);
        var j :| 0 <= j < |sorted| && sorted[j] == r;
        RunEndIsGreatest(sorted, msgId, ends[i], j);
      }
    }
  }

  /** Hydration's snapshot is the point read: for every entity with a row in the window,
      and no other, `latest_features` returns a row as recent as what the as-of join returns
      at the snapshot, and the same row unless rows tie for it. */
  method HydrationEqualsPointRead(rows: seq<Row>, msgId: bool, snapshot: int, lookback: int, queries: seq<Query>)
    returns (latest: seq<Row>, point: seq<Answer>)
    requires lookback > 0 && (msgId ==> KeyDetermines(Elems(rows)))
    requires forall i :: 0 <= i < |queries| ==> queries[i].asOf == snapshot
    ensures |point| == |queries|
    ensures forall i {:trigger queries[i]} :: 0 <= i < |queries| ==>
              (point[i].Found? <==>
                exists j {:trigger latest[j]} :: 0 <= j < |latest| && latest[j].entity == queries[i].entity)
    ensures forall i, j {:trigger queries[i], latest[j]} ::
              0 <= i < |queries| && 0 <= j < |latest| && latest[j].entity == queries[i].entity ==>
                && point[i].Found? && point[i].row.eventTime == latest[j].eventTime
                && (msgId || !TopTie(msgId, Elems(rows), queries[i], lookback) ==> point[i] == Found(latest[j]))
  {
    var l := LatestFeatures(rows, msgId, snapshot, lookback);
    latest := l.rows;
    var r := ReadPointInTime(rows, queries, msgId, lookback);
    point := r.answers;
    forall i, j | 0 <= i < |queries| && 0 <= j < |latest| && latest[j].entity == queries[i].entity
      ensures point[i].Found? && point[i].row.eventTime == latest[j].eventTime
      ensures msgId || !TopTie(msgId, Elems(rows), queries[i], lookback) ==> point[i] == Found(latest[j])
    {
      assert IsAsOf(msgId, Elems(rows), queries[i], lookback, Found(latest[j]));
      if msgId {
        MsgIdsUntied(Elems(rows), queries[i], lookback);
      }
      if !TopTie(msgId, Elems(rows), queries[i], lookback) {
        SameAnswer(msgId, Elems(rows), queries[i], lookback, point[i], Found(latest[j]));
      }
    }
    forall i | 0 <= i < |queries| && point[i].Found?
      ensures exists j {:trigger latest[j]} :: 0 <= j < |latest| && latest[j].entity == queries[i].entity
    {
      assert point[i].row in rows;
    }
  }
}
