/** The order in which the WAL consumer acknowledges. A pass over the deliveries, the flush
    task and the flush of the upgrade pause keep the acknowledged ids a prefix of the
    applicable deliveries, and never trim an unacknowledged id, under two guards: on the
    read a pause drops, and on a flush begun while another is in flight. */
module WalOrder {
  import opened Bytes
  import opened Wal

  predicate Good(w: Stream, i: nat)
  {
    i < |w| && w[i].outcome.Applied?
  }

  ghost predicate NoGood(w: Stream, lo: nat, hi: nat)
  {
    forall j: nat {:trigger Good(w, j)} :: lo <= j < hi ==> !Good(w, j)
  }

  // ---------------------------------------------------------------------------
  // Ordered runs
  // ---------------------------------------------------------------------------

  /** Every apply gets as far as its message allows. */
  predicate Faithful(w: Stream, s: State, ev: Event)
  {
    ev.Apply? && AtMessage(w, s) ==> ev.outcome == w[s.phase.ids[s.phase.k]].outcome
  }

  /** Where a read of new messages ends. */
  function ReadTo(w: Stream, s: State, count: nat): nat
  {
    Smaller(s.delivered + count, |w|)
  }

  /** A paused read drops its messages: none of them, or none after them, is applicable. */
  ghost predicate PauseGuard(w: Stream, s: State, count: nat)
  {
    NoGood(w, s.delivered, ReadTo(w, s, count)) || NoGood(w, ReadTo(w, s, count), |w|)
  }

  /** A flush beside another one: nothing applicable is left to be delivered. */
  ghost predicate FlushGuard(w: Stream, s: State, other: Flight, f: Flush)
  {
    f.ok && other.Flight? ==> NoGood(w, s.delivered, |w|)
  }

  ghost predicate Guard(w: Stream, s: State, ev: Event)
  {
    match ev
    case ReadNew(count, paused) => paused ==> PauseGuard(w, s, count)
    case TaskFlush(f) => FlushGuard(w, s, s.main, f)
    case MainFlush(f) => FlushGuard(w, s, s.task, f)
    case _ => true
  }

  ghost predicate Ordered(w: Stream, s: State, ev: Event)
  {
    Faithful(w, s, ev) && Guard(w, s, ev)
  }

  ghost predicate OrderedRun(w: Stream, s: State, evs: seq<Event>)
    decreases |evs|
  {
    evs == [] || (Enabled(w, s, evs[0]) && Ordered(w, s, evs[0]) && OrderedRun(w, Next(w, s, evs[0]), evs[1..]))
  }

  // ---------------------------------------------------------------------------
  // The invariant
  // ---------------------------------------------------------------------------

  /** A prefix of the applicable messages among the first `d`. */
  ghost predicate PrefixOfGood(w: Stream, d: nat, ids: set<nat>)
  {
    && (forall k {:trigger k in ids} :: k in ids ==> k < d && Good(w, k))
    && (forall i: nat, k {:trigger Good(w, i), k in ids} :: k in ids && i < k && Good(w, i) ==> i in ids)
  }

  /** Acknowledged ids, and acknowledged with pending ids, are prefixes. */
  ghost predicate AckOrder(w: Stream, d: nat, acked: set<nat>, pending: seq<nat>)
  {
    d <= |w| && PrefixOfGood(w, d, acked) && PrefixOfGood(w, d, acked + Elems(pending))
  }

  /** What a trim of `n` ids would remove is acknowledged or in `ids`. */
  ghost predicate TrimCovers(acked: set<nat>, pending: seq<nat>, n: nat, ids: set<nat>)
  {
    forall j {:trigger pending[j]} :: 0 <= j < |pending| && j < n ==> pending[j] in acked || pending[j] in ids
  }

  ghost predicate FlightOk(w: Stream, d: nat, acked: set<nat>, pending: seq<nat>, f: Flight)
  {
    f.Flight? ==>
      && f.snapshot != [] && Elems(f.snapshot) <= acked + Elems(pending)
      && PrefixOfGood(w, d, acked + Elems(f.snapshot))
      && (f.sent ==> Elems(f.snapshot) <= acked)
      && TrimCovers(acked, pending, |f.snapshot|, Elems(f.snapshot))
  }

  /** The flight has every pending id that is not yet acknowledged. */
  ghost predicate Whole(acked: set<nat>, pending: seq<nat>, f: Flight)
  {
    f.Flight? && |pending| <= |f.snapshot| && Elems(pending) <= acked + Elems(f.snapshot)
  }

  predicate Short(pending: seq<nat>, f: Flight)
  {
    f.Flight? ==> |f.snapshot| <= |pending|
  }

  /** While the pass may still mark messages there is one flight at most, and it is a prefix
      of the pending list; otherwise two may overlap, one of them having all of the list. */
  ghost predicate FlightsOk(w: Stream, d: nat, acked: set<nat>, pending: seq<nat>, task: Flight, main: Flight,
                            spent: bool)
  {
    && FlightOk(w, d, acked, pending, task) && FlightOk(w, d, acked, pending, main)
    && (!spent ==> (task.Flight? ==> main.NoFlight?) && Short(pending, task) && Short(pending, main))
    && (task.Flight? && main.Flight? ==> Whole(acked, pending, task) || Whole(acked, pending, main))
  }

  function AppliedIds(p: Phase): seq<nat>
  {
    if p.Applying? then p.applied else []
  }

  predicate InPass(p: Phase)
  {
    !p.Down? && !p.Stopping?
  }

  /** The main loop has nothing left to mark: no applicable message at or after its place. */
  ghost predicate Spent(w: Stream, d: nat, p: Phase)
  {
    InMainLoop(p) && AppliedIds(p) == [] && NoGood(w, Pos(p, d), |w|)
  }

  /** The ids of a batch increase, lie below `next`, and those left are unacknowledged. */
  ghost predicate IdsOk(acked: set<nat>, ids: seq<nat>, k: nat, next: nat)
  {
    && k <= |ids|
    && (forall j {:trigger ids[j]} :: 0 <= j < |ids| ==> ids[j] < next)
    && (forall j {:trigger ids[j]} :: k <= j < |ids| ==> ids[j] !in acked)
    && (forall j, l {:trigger ids[j], ids[l]} :: 0 <= j < l < |ids| ==> ids[j] < ids[l])
  }

  /** Nothing unacknowledged is skipped between the messages of a batch. */
  ghost predicate GapsAcked(acked: set<nat>, ids: seq<nat>, k: nat, pos: nat, next: nat)
    requires k <= |ids|
  {
    forall i {:trigger i in acked} :: pos <= i < next && i !in ids[k..] ==> i in acked
  }

  ghost predicate MarksOk(w: Stream, applied: seq<nat>, pos: nat)
  {
    forall i {:trigger i in applied} :: i in applied ==> i < pos && Good(w, i)
  }

  ghost predicate BatchOk(w: Stream, d: nat, acked: set<nat>, p: Phase)
    requires p.Applying?
  {
    && p.next <= d && (!p.drain ==> p.next == d)
    && IdsOk(acked, p.ids, p.k, p.next) && GapsAcked(acked, p.ids, p.k, Pos(p, d), p.next)
    && MarksOk(w, p.applied, Pos(p, d))
  }

  /** Every applicable message the pass is past is acknowledged, pending or in its batch. */
  ghost predicate Covered(w: Stream, d: nat, acked: set<nat>, pending: seq<nat>, p: Phase)
  {
    forall i: nat {:trigger Good(w, i)} :: i < Pos(p, d) && Good(w, i) ==>
      i in acked || i in pending || i in AppliedIds(p)
  }

  ghost predicate PassOk(w: Stream, d: nat, acked: set<nat>, pending: seq<nat>, p: Phase)
  {
    && (!p.Down? ==> Pos(p, d) <= d)
    && (InMainLoop(p) ==> forall i {:trigger i in pending} :: i in pending ==> i < Pos(p, d))
    && (p.Applying? ==> BatchOk(w, d, acked, p))
    && (InPass(p) && !Spent(w, d, p) ==> Covered(w, d, acked, pending, p))
  }

  ghost predicate OrderInv(w: Stream, s: State)
  {
    && AckOrder(w, s.delivered, s.acked, s.pending)
    && FlightsOk(w, s.delivered, s.acked, s.pending, s.task, s.main, Spent(w, s.delivered, s.phase))
    && (s.task.Flight? ==> InMainLoop(s.phase))
    && (s.main.Flight? ==> s.phase.Parked? || s.phase.Stopping?)
    && PassOk(w, s.delivered, s.acked, s.pending, s.phase)
  }

  // ---------------------------------------------------------------------------
  // Reading
  // ---------------------------------------------------------------------------

  lemma {:induction false} PelPageOk(acked: set<nat>, from: nat, delivered: nat, count: nat)
    ensures var ids := PelPage(acked, from, delivered, count);
            && (forall j, l {:trigger ids[j], ids[l]} :: 0 <= j < l < |ids| ==> ids[j] < ids[l])
            && (ids != [] ==> forall i {:trigger i in ids} :: from <= i < ids[|ids| - 1] && i !in ids ==> i in acked)
            && (count > 0 && ids == [] ==> forall i {:trigger i in acked} :: from <= i < delivered ==> i in acked)
    decreases delivered - from
  {
    if from < delivered && count > 0 {
      var ids := PelPage(acked, from, delivered, count);
      if from in acked {
        PelPageOk(acked, from + 1, delivered, count);
      } else {
        var rest := PelPage(acked, from + 1, delivered, count - 1);
        PelPageOk(acked, from + 1, delivered, count - 1);
        forall i | from <= i < ids[|ids| - 1] && i !in ids
          ensures i in acked
        {
          assert i !in rest && i > from;
        }
      }
    }
  }

  lemma OrderReadPel(w: Stream, s: State, count: nat)
    requires OrderInv(w, s) && Enabled(w, s, ReadPel(count))
    ensures OrderInv(w, Next(w, s, ReadPel(count)))
  {
    hide PelPage, FlightOk;
    var ids := PelPage(s.acked, s.phase.from, s.delivered, count);
    PelPageOk(s.acked, s.phase.from, s.delivered, count);
    var t := Next(w, s, ReadPel(count));
    assert forall i {:trigger i in s.pending} :: i in s.pending ==> i in s.acked + Elems(s.pending);
    hide PrefixOfGood;
    if ids != [] {
      assert t.phase.ids[0..] == ids;
      assert BatchOk(w, t.delivered, t.acked, t.phase);
      forall i: nat | s.phase.from <= i < ids[0]
        ensures i in s.acked
      {
        assert i !in ids;
      }
    }
  }

  lemma OrderReadNew(w: Stream, s: State, count: nat)
    requires OrderInv(w, s) && Enabled(w, s, ReadNew(count, false))
    ensures OrderInv(w, Next(w, s, ReadNew(count, false)))
  {
    var t := Next(w, s, ReadNew(count, false));
    if t.phase.Applying? {
      var ids := t.phase.ids;
      forall i | s.delivered <= i < t.delivered
        ensures i in ids[0..]
      {
        assert ids[0..][i - s.delivered] == i;
      }
      assert BatchOk(w, t.delivered, t.acked, t.phase);
      assert Pos(t.phase, t.delivered) == s.delivered;
    }
  }

  lemma OrderPause(w: Stream, s: State, count: nat)
    requires OrderInv(w, s) && Enabled(w, s, ReadNew(count, true)) && PauseGuard(w, s, count)
    ensures OrderInv(w, Next(w, s, ReadNew(count, true)))
  {
    var t := Next(w, s, ReadNew(count, true));
    assert t.delivered >= s.delivered && s.main.NoFlight?;
    assert Spent(w, s.delivered, s.phase) ==> Spent(w, t.delivered, t.phase);
  }

  // ---------------------------------------------------------------------------
  // A batch
  // ---------------------------------------------------------------------------

  lemma DropFirst(ids: seq<nat>, k: nat, i: nat)
    requires k < |ids|
    ensures i in ids[k..] <==> i == ids[k] || i in ids[k + 1..]
  {
    assert ids[k..] == [ids[k]] + ids[k + 1..];
  }

  lemma NotBelow(ids: seq<nat>, k: nat, i: nat)
    requires k < |ids| && i < ids[k]
    requires forall j, l {:trigger ids[j], ids[l]} :: 0 <= j < l < |ids| ==> ids[j] < ids[l]
    ensures i !in ids[k..]
  {
    var rest := ids[k..];
    assert forall j {:trigger rest[j]} :: 0 <= j < |rest| ==> rest[j] == ids[k + j];
  }

  /** Between two messages of a batch everything is acknowledged. */
  lemma SkippedAreAcked(w: Stream, d: nat, acked: set<nat>, p: Phase)
    requires p.Applying? && BatchOk(w, d, acked, p) && p.k < |p.ids|
    ensures var to := if p.k + 1 < |p.ids| then p.ids[p.k + 1] else p.next;
            && p.ids[p.k] < to <= p.next
            && (forall i {:trigger i in acked} :: p.ids[p.k] < i < to ==> i in acked)
  {
    hide MarksOk, GapsAcked;
    var to := if p.k + 1 < |p.ids| then p.ids[p.k + 1] else p.next;
    forall i | p.ids[p.k] < i < to
      ensures i in acked
    {
      SkippedAt(acked, p.ids, p.k, p.next, i);
    }
  }

  lemma SkippedAt(acked: set<nat>, ids: seq<nat>, k: nat, next: nat, i: nat)
    requires k < |ids| && IdsOk(acked, ids, k, next) && GapsAcked(acked, ids, k, ids[k], next)
    requires ids[k] < i < next && (k + 1 < |ids| ==> i < ids[k + 1])
    ensures i in acked
  {
    DropFirst(ids, k, i);
    if k + 1 < |ids| {
      NotBelow(ids, k + 1, i);
    }
  }

  function AfterApply(w: Stream, p: Phase): Phase
    requires p.Applying? && p.k < |p.ids|
  {
    var q := p.(k := p.k + 1);
    if Good(w, p.ids[p.k]) then q.(applied := p.applied + [p.ids[p.k]]) else q
  }

  lemma GapsOn(acked: set<nat>, ids: seq<nat>, k: nat, next: nat, to: nat)
    requires k < |ids| && GapsAcked(acked, ids, k, ids[k], next) && ids[k] < to
    ensures GapsAcked(acked, ids, k + 1, to, next)
  {
    forall i | to <= i < next && i !in ids[k + 1..]
      ensures i in acked
    {
      DropFirst(ids, k, i);
    }
  }

  lemma MarksOn(w: Stream, p: Phase, pos: nat)
    requires p.Applying? && p.k < |p.ids| && MarksOk(w, p.applied, p.ids[p.k]) && p.ids[p.k] < pos
    ensures MarksOk(w, AfterApply(w, p).applied, pos)
  {
    forall j | j in AfterApply(w, p).applied
      ensures j < pos && Good(w, j)
    {
      assert j in p.applied || (j == p.ids[p.k] && Good(w, j));
    }
  }

  lemma BatchApply(w: Stream, d: nat, acked: set<nat>, p: Phase)
    requires p.Applying? && p.k < |p.ids| && BatchOk(w, d, acked, p)
    ensures BatchOk(w, d, acked, AfterApply(w, p))
  {
    hide GapsAcked, MarksOk;
    var q := AfterApply(w, p);
    var pos := Pos(q, d);
    assert p.ids[p.k] < pos;
    assert IdsOk(acked, q.ids, q.k, q.next);
    GapsOn(acked, p.ids, p.k, p.next, pos);
    MarksOn(w, p, pos);
  }

  lemma SpentApply(w: Stream, d: nat, acked: set<nat>, p: Phase)
    requires p.Applying? && p.k < |p.ids| && BatchOk(w, d, acked, p) && Spent(w, d, p)
    ensures Spent(w, d, AfterApply(w, p))
  {
    SkippedAreAcked(w, d, acked, p);
  }

  lemma CoveredApply(w: Stream, d: nat, acked: set<nat>, pending: seq<nat>, p: Phase)
    requires p.Applying? && p.k < |p.ids| && BatchOk(w, d, acked, p) && Covered(w, d, acked, pending, p)
    ensures Covered(w, d, acked, pending, AfterApply(w, p))
  {
    SkippedAreAcked(w, d, acked, p);
    hide BatchOk;
    var i, q := p.ids[p.k], AfterApply(w, p);
    forall j: nat | j < Pos(q, d) && Good(w, j)
      ensures j in acked || j in pending || j in AppliedIds(q)
    {
      assert j < i || j == i || j in acked;
      if j < i {
        assert j in AppliedIds(p) ==> j in AppliedIds(q);
      }
    }
  }

  lemma PassApply(w: Stream, d: nat, acked: set<nat>, pending: seq<nat>, p: Phase)
    requires p.Applying? && p.k < |p.ids| && PassOk(w, d, acked, pending, p)
    ensures PassOk(w, d, acked, pending, AfterApply(w, p))
    ensures Spent(w, d, p) ==> Spent(w, d, AfterApply(w, p))
  {
    BatchApply(w, d, acked, p);
    SkippedAreAcked(w, d, acked, p);
    if Spent(w, d, p) {
      SpentApply(w, d, acked, p);
    } else {
      CoveredApply(w, d, acked, pending, p);
    }
    hide BatchOk, Spent, Covered, Good;
  }

  lemma OrderApply(w: Stream, s: State, outcome: Outcome)
    requires OrderInv(w, s) && Enabled(w, s, Apply(outcome)) && Faithful(w, s, Apply(outcome))
    ensures OrderInv(w, Next(w, s, Apply(outcome)))
  {
    hide AckOrder, PassOk, FlightOk, Whole, Spent;
    PassApply(w, s.delivered, s.acked, s.pending, s.phase);
  }

  lemma PrefixFinish(w: Stream, d: nat, acked: set<nat>, pending: seq<nat>, p: Phase)
    requires PassOk(w, d, acked, pending, p) && PrefixOfGood(w, d, acked + Elems(pending)) && p.Applying?
    ensures PrefixOfGood(w, d, acked + Elems(pending + p.applied))
  {
    var was, now := acked + Elems(pending), acked + Elems(pending + p.applied);
    assert forall i {:trigger i in now} :: i in now <==> i in was || i in p.applied;
    forall i: nat, k | k in now && i < k && Good(w, i)
      ensures i in now
    {
      if k !in was {
        assert k in p.applied && i < Pos(p, d);
        assert !Spent(w, d, p);
      }
    }
  }

  lemma FlightGrow(w: Stream, d: nat, acked: set<nat>, pending: seq<nat>, f: Flight, more: seq<nat>)
    requires FlightOk(w, d, acked, pending, f) && Short(pending, f)
    ensures FlightOk(w, d, acked, pending + more, f) && Short(pending + more, f)
  {
    hide PrefixOfGood;
    assert forall i {:trigger i in pending} :: i in pending ==> i in pending + more;
  }

  lemma FinishPass(w: Stream, s: State)
    requires OrderInv(w, s) && Enabled(w, s, FinishBatch)
    ensures var t := Next(w, s, FinishBatch); PassOk(w, t.delivered, t.acked, t.pending, t.phase)
    ensures var t := Next(w, s, FinishBatch);
            Spent(w, s.delivered, s.phase) ==> Spent(w, t.delivered, t.phase) && t.pending == s.pending
  {
    hide FlightsOk, AckOrder;
    var t := Next(w, s, FinishBatch);
    assert forall i {:trigger i in t.pending} :: i in t.pending <==> i in s.pending || i in s.phase.applied;
    assert Pos(t.phase, t.delivered) == Pos(s.phase, s.delivered);
  }

  lemma OrderFinish(w: Stream, s: State)
    requires OrderInv(w, s) && Enabled(w, s, FinishBatch)
    ensures OrderInv(w, Next(w, s, FinishBatch))
  {
    FinishPass(w, s);
    PrefixFinish(w, s.delivered, s.acked, s.pending, s.phase);
    var d, spent := s.delivered, Spent(w, s.delivered, s.phase);
    if !spent {
      FlightGrow(w, d, s.acked, s.pending, s.task, s.phase.applied);
      FlightGrow(w, d, s.acked, s.pending, s.main, s.phase.applied);
    }
    hide PassOk, FlightOk, Short, Whole, PrefixOfGood, Spent;
  }

  // ---------------------------------------------------------------------------
  // Flushes
  // ---------------------------------------------------------------------------

  lemma FlushTakesAll(w: Stream, d: nat, acked: set<nat>, pending: seq<nat>)
    requires AckOrder(w, d, acked, pending) && pending != []
    ensures var f := Flight(pending, false);
            FlightOk(w, d, acked, pending, f) && Whole(acked, pending, f) && Short(pending, f)
  {
    hide PrefixOfGood;
    assert forall j :: 0 <= j < |pending| ==> pending[j] in Elems(pending);
  }

  lemma OrderFlush(w: Stream, s: State, ev: Event)
    requires OrderInv(w, s) && Enabled(w, s, ev) && Guard(w, s, ev)
    requires ev.TaskFlush? || ev.MainFlush?
    ensures OrderInv(w, Next(w, s, ev))
  {
    FlushTakesAll(w, s.delivered, s.acked, s.pending);
    assert NoGood(w, s.delivered, |w|) && s.phase.Parked? ==> Spent(w, s.delivered, s.phase);
    hide AckOrder, PassOk, FlightOk, Whole, Short, NoGood, Spent;
  }

  lemma PrefixUnion(w: Stream, d: nat, a: set<nat>, b: set<nat>)
    requires PrefixOfGood(w, d, a) && PrefixOfGood(w, d, b)
    ensures PrefixOfGood(w, d, a + b)
  {
  }

  /** The acknowledgement of one flight leaves any other as it should be. */
  lemma FlightAck(w: Stream, d: nat, acked: set<nat>, pending: seq<nat>, f: Flight, ids: set<nat>)
    requires FlightOk(w, d, acked, pending, f) && PrefixOfGood(w, d, acked + ids)
    ensures FlightOk(w, d, acked + ids, pending, f)
    ensures Whole(acked, pending, f) ==> Whole(acked + ids, pending, f)
  {
    if f.Flight? {
      PrefixUnion(w, d, acked + Elems(f.snapshot), acked + ids);
      assert acked + Elems(f.snapshot) + (acked + ids) == acked + ids + Elems(f.snapshot);
    }
  }

  lemma FlightSent(w: Stream, d: nat, acked: set<nat>, pending: seq<nat>, f: Flight)
    requires f.Flight? && FlightOk(w, d, acked, pending, f)
    ensures FlightOk(w, d, acked + Elems(f.snapshot), pending, f.(sent := true))
    ensures Whole(acked, pending, f) ==> Whole(acked + Elems(f.snapshot), pending, f.(sent := true))
  {
    hide PrefixOfGood;
    assert acked + Elems(f.snapshot) + Elems(f.snapshot) == acked + Elems(f.snapshot);
  }

  /** Acknowledging ids the main loop is already past leaves the pass unaffected. */
  lemma PassAck(w: Stream, d: nat, acked: set<nat>, pending: seq<nat>, p: Phase, ids: set<nat>)
    requires PassOk(w, d, acked, pending, p) && (p.Applying? ==> !p.drain) && ids <= acked + Elems(pending)
    ensures PassOk(w, d, acked + ids, pending, p)
  {
  }

  lemma OrderXack(w: Stream, s: State, m: bool)
    requires OrderInv(w, s) && Enabled(w, s, Xack(m))
    ensures OrderInv(w, Next(w, s, Xack(m)))
  {
    var t := Next(w, s, Xack(m));
    var ids := Elems(FlightOf(s, m).snapshot);
    assert t.acked == s.acked + ids;
    FlightAck(w, s.delivered, s.acked, s.pending, FlightOf(s, !m), ids);
    FlightSent(w, s.delivered, s.acked, s.pending, FlightOf(s, m));
    PassAck(w, s.delivered, s.acked, s.pending, s.phase, ids);
    assert t.acked + Elems(t.pending) == s.acked + Elems(s.pending);
    hide PassOk, PrefixOfGood, TrimCovers, Whole, Spent;
  }

  /** Forgetting ids that are acknowledged leaves the pass unaffected. */
  lemma PassTrim(w: Stream, d: nat, acked: set<nat>, pending: seq<nat>, p: Phase, rest: seq<nat>)
    requires PassOk(w, d, acked, pending, p)
    requires forall i {:trigger i in rest} :: i in rest ==> i in pending
    requires forall i {:trigger i in pending} :: i in pending ==> i in acked || i in rest
    ensures PassOk(w, d, acked, rest, p)
  {
  }

  /** A trim of a sent flight removes acknowledged ids only. */
  lemma TrimKeeps(w: Stream, d: nat, acked: set<nat>, pending: seq<nat>, f: Flight)
    requires FlightOk(w, d, acked, pending, f) && f.Flight? && f.sent
    ensures var rest := TrimPending(pending, |f.snapshot|);
            && (forall i {:trigger i in rest} :: i in rest ==> i in pending)
            && (forall i {:trigger i in pending} :: i in pending ==> i in acked || i in rest)
            && acked + Elems(rest) == acked + Elems(pending)
  {
    hide PrefixOfGood;
    var n := |f.snapshot|;
    var rest := TrimPending(pending, n);
    forall i | i in pending
      ensures i in acked || i in rest
    {
      var j :| 0 <= j < |pending| && pending[j] == i;
      if j >= n {
        assert rest[j - n] == i;
      }
    }
  }

  lemma FlightTrim(w: Stream, d: nat, acked: set<nat>, pending: seq<nat>, f: Flight, rest: seq<nat>)
    requires FlightOk(w, d, acked, pending, f) && |rest| <= |pending|
    requires acked + Elems(rest) == acked + Elems(pending)
    requires rest == [] || (f.Flight? ==> Whole(acked, pending, f))
    ensures FlightOk(w, d, acked, rest, f)
    ensures Whole(acked, pending, f) ==> Whole(acked, rest, f)
  {
    hide PrefixOfGood;
    if rest != [] && f.Flight? {
      forall j | 0 <= j < |rest|
        ensures rest[j] in acked || rest[j] in Elems(f.snapshot)
      {
        assert rest[j] in Elems(rest) && rest[j] in acked + Elems(pending);
      }
    }
    if Whole(acked, pending, f) {
      assert forall i {:trigger i in Elems(rest)} :: i in Elems(rest) ==> i in acked + Elems(pending);
    }
  }

  lemma OrderTrim(w: Stream, s: State, m: bool)
    requires OrderInv(w, s) && Enabled(w, s, Trim(m))
    ensures OrderInv(w, Next(w, s, Trim(m)))
  {
    var t := Next(w, s, Trim(m));
    var d, other := s.delivered, FlightOf(s, !m);
    TrimKeeps(w, d, s.acked, s.pending, FlightOf(s, m));
    PassTrim(w, d, s.acked, s.pending, s.phase, t.pending);
    assert other.Flight? ==> t.pending == [] || Whole(s.acked, s.pending, other) by {
      hide FlightOk, PassOk, AckOrder;
      assert Whole(s.acked, s.pending, FlightOf(s, m)) ==> t.pending == [];
    }
    FlightTrim(w, d, s.acked, s.pending, other, t.pending);
    hide PassOk, PrefixOfGood, TrimCovers, Whole, Spent;
  }

  lemma NoFlightOk(w: Stream, d: nat, acked: set<nat>, pending: seq<nat>)
    ensures FlightOk(w, d, acked, [], NoFlight) && FlightOk(w, d, acked, pending, NoFlight)
  {
  }

  lemma OrderRest(w: Stream, s: State, ev: Event)
    requires OrderInv(w, s) && Enabled(w, s, ev)
    requires ev.Start? || ev.SetKeys? || ev.Drop? || ev.Unpark? || ev.Stop? || ev.Close? || ev.Exit? || ev.Crash?
    ensures OrderInv(w, Next(w, s, ev))
  {
    hide PrefixOfGood, FlightOk, Whole, BatchOk, NoGood;
    assert FlightOk(w, s.delivered, s.acked, [], NoFlight)
      && FlightOk(w, s.delivered, s.acked, s.pending, NoFlight) by {
      NoFlightOk(w, s.delivered, s.acked, s.pending);
    }
    assert s.acked + Elems([]) == s.acked;
  }

  // ---------------------------------------------------------------------------
  // Steps and runs
  // ---------------------------------------------------------------------------

  lemma OrderStep(w: Stream, s: State, ev: Event)
    requires OrderInv(w, s) && Enabled(w, s, ev) && Ordered(w, s, ev)
    ensures OrderInv(w, Next(w, s, ev))
  {
    hide OrderInv, Next, PauseGuard;
    match ev {
      case ReadPel(count) => OrderReadPel(w, s, count);
      case ReadNew(count, paused) =>
        if paused {
          OrderPause(w, s, count);
        } else {
          OrderReadNew(w, s, count);
        }
      case Apply(outcome) => OrderApply(w, s, outcome);
      case FinishBatch => OrderFinish(w, s);
      case TaskFlush(_) => OrderFlush(w, s, ev);
      case MainFlush(_) => OrderFlush(w, s, ev);
      case Xack(m) => OrderXack(w, s, m);
      case Trim(m) => OrderTrim(w, s, m);
      case _ => OrderRest(w, s, ev);
    }
  }

  lemma {:induction false} OrderRun(w: Stream, s: State, evs: seq<Event>)
    requires OrderInv(w, s) && OrderedRun(w, s, evs)
    ensures Legal(w, s, evs) && OrderInv(w, Exec(w, s, evs))
    decreases |evs|
  {
    hide OrderInv, Next, Enabled, Ordered;
    if evs != [] {
      OrderStep(w, s, evs[0]);
      OrderRun(w, Next(w, s, evs[0]), evs[1..]);
    }
  }

  lemma InitialOrder(w: Stream, m0: Online)
    ensures OrderInv(w, Initial(m0))
  {
    assert {} + Elems([]) == {};
  }

  // ---------------------------------------------------------------------------
  // What the order promises
  // ---------------------------------------------------------------------------

  /** A trim that is due leaves in the pending list every id not yet acknowledged. */
  ghost predicate TrimsSafely(s: State)
  {
    forall m: bool, i: nat {:trigger i in s.pending, FlightOf(s, m)} ::
      FlightOf(s, m).Flight? && FlightOf(s, m).sent && i in s.pending ==>
        i in s.acked || i in TrimPending(s.pending, |FlightOf(s, m).snapshot|)
  }

  /** The acknowledged ids are a prefix of the applicable deliveries, and none is forgotten. */
  ghost predicate InOrder(w: Stream, s: State)
  {
    PrefixOfGood(w, s.delivered, s.acked) && TrimsSafely(s)
  }

  lemma OrderedInOrder(w: Stream, s: State)
    requires OrderInv(w, s)
    ensures InOrder(w, s)
  {
    hide PassOk, PrefixOfGood, TrimCovers, TrimPending;
    forall m: bool, i: nat | FlightOf(s, m).Flight? && FlightOf(s, m).sent && i in s.pending
      ensures i in s.acked || i in TrimPending(s.pending, |FlightOf(s, m).snapshot|)
    {
      TrimKeeps(w, s.delivered, s.acked, s.pending, FlightOf(s, m));
    }
  }

  /** In every ordered run, retries with a retained pending list included, the acknowledged
      ids are a prefix, in delivery order, of the deliveries that can be applied. */
  lemma AckedIsPrefix(w: Stream, m0: Online, evs: seq<Event>, i: nat, k: nat)
    requires OrderedRun(w, Initial(m0), evs)
    ensures Legal(w, Initial(m0), evs)
    ensures var s := Exec(w, Initial(m0), evs);
            && (k in s.acked ==> k < s.delivered && Good(w, k))
            && (k in s.acked && i < k && Good(w, i) ==> i in s.acked)
  {
    InitialOrder(w, m0);
    OrderRun(w, Initial(m0), evs);
    OrderedInOrder(w, Exec(w, Initial(m0), evs));
  }

  // ---------------------------------------------------------------------------
  // Nothing is forgotten
  // ---------------------------------------------------------------------------

  /** No applicable message is dropped by a pause. */
  ghost predicate Lossless(w: Stream, s: State, ev: Event)
  {
    ev.ReadNew? && ev.paused ==> NoGood(w, s.delivered, ReadTo(w, s, ev.count))
  }

  ghost predicate LosslessRun(w: Stream, s: State, evs: seq<Event>)
    decreases |evs|
  {
    evs == []
    || (Enabled(w, s, evs[0]) && Ordered(w, s, evs[0]) && Lossless(w, s, evs[0])
        && LosslessRun(w, Next(w, s, evs[0]), evs[1..]))
  }

  ghost predicate CoverInv(w: Stream, s: State)
  {
    InPass(s.phase) ==> Covered(w, s.delivered, s.acked, s.pending, s.phase)
  }

  lemma CoverRead(w: Stream, s: State, ev: Event)
    requires OrderInv(w, s) && CoverInv(w, s) && Enabled(w, s, ev) && (ev.ReadPel? || ev.ReadNew?)
    requires Lossless(w, s, ev)
    ensures CoverInv(w, Next(w, s, ev))
  {
    hide PelPage, FlightsOk, AckOrder;
    if ev.ReadPel? {
      var ids := PelPage(s.acked, s.phase.from, s.delivered, ev.count);
      PelPageOk(s.acked, s.phase.from, s.delivered, ev.count);
      forall i: nat | s.phase.from <= i < Pos(Next(w, s, ev).phase, s.delivered)
        ensures i in s.acked
      {
        assert i !in ids;
      }
    }
  }

  lemma CoverApply(w: Stream, s: State, outcome: Outcome)
    requires OrderInv(w, s) && CoverInv(w, s) && Enabled(w, s, Apply(outcome)) && Faithful(w, s, Apply(outcome))
    ensures CoverInv(w, Next(w, s, Apply(outcome)))
  {
    hide FlightsOk, AckOrder, BatchOk, Covered;
    CoveredApply(w, s.delivered, s.acked, s.pending, s.phase);
  }

  lemma CoverRest(w: Stream, s: State, ev: Event)
    requires OrderInv(w, s) && CoverInv(w, s) && Enabled(w, s, ev)
    requires !ev.ReadPel? && !ev.ReadNew? && !ev.Apply?
    ensures CoverInv(w, Next(w, s, ev))
  {
    hide AckOrder, FlightOk;
    if ev.FinishBatch? {
      var t := Next(w, s, ev);
      assert forall i {:trigger i in t.pending} :: i in t.pending <==> i in s.pending || i in s.phase.applied;
    } else if ev.Trim? {
      assert FlightOk(w, s.delivered, s.acked, s.pending, FlightOf(s, ev.byMain));
      TrimKeeps(w, s.delivered, s.acked, s.pending, FlightOf(s, ev.byMain));
    }
  }

  lemma {:induction false} CoverRun(w: Stream, s: State, evs: seq<Event>)
    requires OrderInv(w, s) && CoverInv(w, s) && LosslessRun(w, s, evs)
    ensures Legal(w, s, evs) && OrderInv(w, Exec(w, s, evs)) && CoverInv(w, Exec(w, s, evs))
    decreases |evs|
  {
    hide OrderInv, CoverInv, Next, Enabled, Lossless, Guard;
    if evs != [] {
      OrderStep(w, s, evs[0]);
      if evs[0].ReadPel? || evs[0].ReadNew? {
        CoverRead(w, s, evs[0]);
      } else if evs[0].Apply? {
        CoverApply(w, s, evs[0].outcome);
      } else {
        CoverRest(w, s, evs[0]);
      }
      CoverRun(w, Next(w, s, evs[0]), evs[1..]);
    }
  }

  /** In every ordered run whose pauses drop nothing applicable, each applicable message the
      pass is past is acknowledged, in `_pending_ack`, or in the batch being applied. */
  lemma NothingForgotten(w: Stream, m0: Online, evs: seq<Event>, i: nat)
    requires LosslessRun(w, Initial(m0), evs)
    ensures Legal(w, Initial(m0), evs)
    ensures var s := Exec(w, Initial(m0), evs);
            InPass(s.phase) && Good(w, i) && i < Pos(s.phase, s.delivered) ==>
              i in s.acked || i in s.pending || i in AppliedIds(s.phase)
  {
    InitialOrder(w, m0);
    CoverRun(w, Initial(m0), evs);
  }

  /** The pause forgets a message exactly when it drops an applicable one. */
  lemma PauseForgetsIff(w: Stream, s: State, count: nat)
    requires OrderInv(w, s) && CoverInv(w, s) && Enabled(w, s, ReadNew(count, true))
    ensures CoverInv(w, Next(w, s, ReadNew(count, true))) <==> Lossless(w, s, ReadNew(count, true))
  {
    hide FlightsOk, PassOk;
    if Lossless(w, s, ReadNew(count, true)) {
      CoverRead(w, s, ReadNew(count, true));
    } else {
      var i: nat :| s.delivered <= i < ReadTo(w, s, count) && Good(w, i);
      assert i !in s.acked + Elems(s.pending);
    }
  }
}
