/** The streams on which the consumer keeps its promises whatever the pauses, flushes and
    retries, and the smallest runs on the others. */
module WalStreams {
  import opened Bytes
  import opened Wal
  import opened WalOrder
  import opened WalOnline
  import opened WalRuns
  import opened WalConvergence
  import opened WalGuards

  /** Which steps a run may take: any faithful one, or the orderly ones and any retry. */
  datatype Liberty = AnyStep | AnyRetry

  ghost predicate Allowed(w: Stream, s: State, ev: Event, l: Liberty)
  {
    match l
    case AnyStep => Faithful(w, s, ev)
    case AnyRetry => ev.Start? || Orderly(w, s, ev)
  }

  ghost predicate FreeRun(w: Stream, s: State, evs: seq<Event>, l: Liberty)
    decreases |evs|
  {
    evs == [] || (Enabled(w, s, evs[0]) && Allowed(w, s, evs[0], l) && FreeRun(w, Next(w, s, evs[0]), evs[1..], l))
  }

  ghost predicate FreeOnward(w: Stream, s: State, t: State, l: Liberty)
  {
    exists evs :: Leads(w, s, evs, t) && FreeRun(w, s, evs, l)
  }

  lemma {:induction false} OrderlyIsFree(w: Stream, s: State, evs: seq<Event>, l: Liberty)
    requires OrderlyRun(w, s, evs)
    ensures FreeRun(w, s, evs, l)
    decreases |evs|
  {
    hide Next, Enabled, Guard, OnlineGuard;
    if evs != [] {
      OrderlyIsFree(w, Next(w, s, evs[0]), evs[1..], l);
    }
  }

  lemma OnwardIsFree(w: Stream, s: State, t: State, l: Liberty)
    requires Onward(w, s, t)
    ensures FreeOnward(w, s, t, l)
  {
    hide Leads;
    var evs :| Leads(w, s, evs, t) && OrderlyRun(w, s, evs);
    OrderlyIsFree(w, s, evs, l);
  }

  lemma {:induction false} Join(w: Stream, s: State, a: seq<Event>, t: State, b: seq<Event>, u: State, l: Liberty)
    requires Leads(w, s, a, t) && FreeRun(w, s, a, l) && Leads(w, t, b, u) && FreeRun(w, t, b, l)
    ensures Leads(w, s, a + b, u) && FreeRun(w, s, a + b, l)
    decreases |a|
  {
    hide Next, Enabled, Allowed;
    if a == [] {
      assert a + b == b;
    } else {
      assert (a + b)[0] == a[0] && (a + b)[1..] == a[1..] + b;
      Join(w, Next(w, s, a[0]), a[1..], t, b, u, l);
    }
  }

  /** An orderly run, one step, and an orderly run again. */
  lemma FreeThrough(w: Stream, o: State, s: State, ev: Event, t: State, l: Liberty)
    requires Onward(w, o, s) && Enabled(w, s, ev) && Allowed(w, s, ev, l) && Onward(w, Next(w, s, ev), t)
    ensures FreeOnward(w, o, t, l)
  {
    hide Next, Enabled, Allowed;
    var a :| Leads(w, o, a, s) && OrderlyRun(w, o, a);
    var b :| Leads(w, Next(w, s, ev), b, t) && OrderlyRun(w, Next(w, s, ev), b);
    OrderlyIsFree(w, o, a, l);
    OrderlyIsFree(w, Next(w, s, ev), b, l);
    assert ([ev] + b)[0] == ev && ([ev] + b)[1..] == b;
    Join(w, o, a, s, [ev] + b, t, l);
  }

  // ---------------------------------------------------------------------------
  // Order
  // ---------------------------------------------------------------------------

  ghost predicate AtMostOneGood(w: Stream)
  {
    forall i: nat, k: nat {:trigger Good(w, i), Good(w, k)} :: i < k && Good(w, i) ==> !Good(w, k)
  }

  lemma AlwaysGuarded(w: Stream, s: State, ev: Event)
    requires OrderInv(w, s) && AtMostOneGood(w) && Enabled(w, s, ev)
    ensures Guard(w, s, ev)
  {
    hide PassOk, TrimCovers;
    if ev.ReadNew? {
      assert !NoGood(w, s.delivered, ReadTo(w, s, ev.count)) ==> NoGood(w, ReadTo(w, s, ev.count), |w|);
    } else if ev.TaskFlush? || ev.MainFlush? {
      var other := if ev.TaskFlush? then s.main else s.task;
      if other.Flight? {
        assert other.snapshot[0] in s.acked + Elems(other.snapshot);
        assert Good(w, other.snapshot[0]) && other.snapshot[0] < s.delivered;
      }
    }
  }

  lemma {:induction false} FreeIsOrdered(w: Stream, s: State, evs: seq<Event>)
    requires OrderInv(w, s) && AtMostOneGood(w) && FreeRun(w, s, evs, AnyStep)
    ensures OrderedRun(w, s, evs)
    decreases |evs|
  {
    hide OrderInv, AtMostOneGood, Next, Enabled, Guard, Faithful;
    if evs != [] {
      AlwaysGuarded(w, s, evs[0]);
      OrderStep(w, s, evs[0]);
      FreeIsOrdered(w, Next(w, s, evs[0]), evs[1..]);
    }
  }

  ghost predicate AlwaysInOrder(w: Stream, m0: Online)
  {
    forall t {:trigger FreeOnward(w, Initial(m0), t, AnyStep)} ::
      FreeOnward(w, Initial(m0), t, AnyStep) ==> InOrder(w, t)
  }

  /** Whatever pauses and flushes happen, acknowledgements stay in order and nothing is
      forgotten, exactly on the streams with at most one applicable message. */
  lemma AlwaysInOrderIff(w: Stream, m0: Online)
    ensures AlwaysInOrder(w, m0) <==> AtMostOneGood(w)
  {
    hide InOrder, OrderInv, Onward, FreeRun;
    if AtMostOneGood(w) {
      forall t | FreeOnward(w, Initial(m0), t, AnyStep)
        ensures InOrder(w, t)
      {
        var evs :| Leads(w, Initial(m0), evs, t) && FreeRun(w, Initial(m0), evs, AnyStep);
        InitialOrder(w, m0);
        FreeIsOrdered(w, Initial(m0), evs);
        OrderRun(w, Initial(m0), evs);
        OrderedInOrder(w, t);
      }
    } else {
      var i: nat, k: nat :| i < k && Good(w, i) && Good(w, k);
      var s := Boot(w, m0);
      ReachedOk(w, m0, s);
      var ev := ReadNew(i + 1, true);
      assert !PauseGuard(w, s, i + 1);
      var t := GuardBreaks(w, s, ev);
      FreeThrough(w, Initial(m0), s, ev, t, AnyStep);
    }
  }

  // ---------------------------------------------------------------------------
  // Retries
  // ---------------------------------------------------------------------------

  /** No row is overtaken by an applied one, unless a half-applied message repairs it. */
  ghost predicate NeverOvertaken(w: Stream)
  {
    forall i: nat, k: nat {:trigger Overtakes(w, i, k)} :: Overtakes(w, i, k) && !w[i].outcome.Rejected? ==>
      !w[k].outcome.Applied?
  }

  lemma AlwaysRetries(w: Stream, s: State)
    requires NeverOvertaken(w)
    ensures RetryGuard(w, s)
  {
    hide Overtakes, IsLast;
  }

  lemma {:induction false} RetryIsOrderly(w: Stream, s: State, evs: seq<Event>)
    requires NeverOvertaken(w) && FreeRun(w, s, evs, AnyRetry)
    ensures OrderlyRun(w, s, evs)
    decreases |evs|
  {
    hide NeverOvertaken, Next, Enabled, RetryGuard, PauseGuard, FlushGuard, QuietPause;
    if evs != [] {
      AlwaysRetries(w, s);
      RetryIsOrderly(w, Next(w, s, evs[0]), evs[1..]);
    }
  }

  ghost predicate ConvergesOnRetry(w: Stream, m0: Online)
  {
    forall t {:trigger FreeOnward(w, Initial(m0), t, AnyRetry)} ::
      FreeOnward(w, Initial(m0), t, AnyRetry) ==> UpToDate(w, m0, t)
  }

  lemma OvertakenIsStale(w: Stream)
    requires NeverOvertaken(w)
    ensures NeverStale(w)
  {
    hide Overtakes;
  }

  /** Applied and still pending when `run()` returns. */
  lemma Retained(w: Stream, m0: Online, i: nat, k: nat) returns (s: State)
    requires Good(w, i) && Good(w, k) && i < k
    ensures Reached(w, m0, s) && s.phase.Down? && s.delivered == k + 1 && s.acked == {}
    ensures i in s.pending && k in s.pending
  {
    hide Onward, BatchDone, ApplyRest;
    var o := Initial(m0);
    s := Boot(w, m0);
    var t, u := ReadOn(w, o, s, k + 1);
    ApplyRestMarks(w, t);
    BatchDoneFrame(w, t);
    assert t.phase.ids[i] == i && t.phase.ids[k] == k;
    Step(w, o, u, Stop);
    s := Next(w, u, Stop);
    Step(w, o, s, Exit);
    s := Next(w, s, Exit);
  }

  /** If `run()` may be called again with ids still in `_pending_ack`, the store converges
      exactly on the streams in which no row is overtaken. */
  lemma ConvergesOnRetryIff(w: Stream, m0: Online)
    ensures ConvergesOnRetry(w, m0) <==> NeverOvertaken(w)
  {
    hide UpToDate, Onward, FreeRun, Overtakes;
    if NeverOvertaken(w) {
      OvertakenIsStale(w);
      forall t | FreeOnward(w, Initial(m0), t, AnyRetry)
        ensures UpToDate(w, m0, t)
      {
        var evs :| Leads(w, Initial(m0), evs, t) && FreeRun(w, Initial(m0), evs, AnyRetry);
        RetryIsOrderly(w, Initial(m0), evs);
        assert Onward(w, Initial(m0), t) by {
          RunIsOnward(w, Initial(m0), evs, t);
        }
        ReachedUpToDate(w, m0, t);
      }
    } else {
      RetryDiverges(w, m0);
    }
  }

  lemma RunIsOnward(w: Stream, s: State, evs: seq<Event>, t: State)
    requires Leads(w, s, evs, t) && OrderlyRun(w, s, evs)
    ensures Onward(w, s, t)
  {
  }

  lemma RetryDiverges(w: Stream, m0: Online)
    requires !NeverOvertaken(w)
    ensures !ConvergesOnRetry(w, m0)
  {
    hide Onward, Fold, OrderInv;
    var o := Initial(m0);
    var t: State;
    if NeverStale(w) {
      var i: nat, k: nat :| Overtakes(w, i, k) && !w[i].outcome.Rejected? && w[k].outcome.Applied?;
      assert !Stale(w, i, k);
      var s := Retained(w, m0, i, k);
      ReachedOk(w, m0, s);
      assert IsLast(w, k + 1, k) && Rewrites(w, k + 1, i, k);
      assert !NoRewrite(w, s.delivered, s.acked, s.pending, 0);
      t := RetryBreaks(w, m0, s);
      FreeThrough(w, o, s, Start, t, AnyRetry);
    } else {
      var i, k :| Stale(w, i, k);
      t := StaleRun(w, m0, i, k);
      OnwardIsFree(w, o, t, AnyRetry);
    }
  }

  // ---------------------------------------------------------------------------
  // The smallest runs
  // ---------------------------------------------------------------------------

  /** Some run on a fresh store ends in `s`. */
  ghost predicate Possible(w: Stream, m0: Online, s: State)
  {
    exists evs :: Leads(w, Initial(m0), evs, s)
  }

  lemma Play(w: Stream, m0: Online, s: State, ev: Event) returns (t: State)
    requires Possible(w, m0, s) && Enabled(w, s, ev)
    ensures t == Next(w, s, ev) && Possible(w, m0, t)
  {
    hide Next, Enabled;
    var evs :| Leads(w, Initial(m0), evs, s);
    LeadsOn(w, Initial(m0), evs, s, ev);
    t := Next(w, s, ev);
  }

  lemma Started(w: Stream, m0: Online) returns (s: State)
    ensures Possible(w, m0, s) && s == Initial(m0).(phase := Reading)
  {
    hide Leads, OrderlyRun;
    s := Boot(w, m0);
  }

  /** A batch of one applicable message, up to its end. */
  lemma One(w: Stream, m0: Online, s: State, i: nat) returns (t: State)
    requires Possible(w, m0, s) && s.phase.Applying? && s.phase.ids == [i] && s.phase.k == 0 && s.phase.applied == []
    requires i < |w| && w[i].outcome.Applied?
    ensures Possible(w, m0, t)
    ensures t == s.(online := s.online[w[i].key := w[i].row], inserted := s.inserted + {i},
                    buffered := s.buffered + {i}, processed := s.processed + {i}, pending := s.pending + [i],
                    phase := if s.phase.drain then Draining(s.phase.next) else Reading)
  {
    hide Possible;
    var u := Play(w, m0, s, Apply(Applied));
    assert u.phase.applied == [i] && u.phase.applied[..1] == [i];
    u := Play(w, m0, u, SetKeys(1));
    t := Play(w, m0, u, FinishBatch);
  }

  /** Delivery and application of the next message. */
  lemma NextOne(w: Stream, m0: Online, s: State) returns (t: State)
    requires Possible(w, m0, s) && s.phase.Reading? && s.delivered < |w| && w[s.delivered].outcome.Applied?
    ensures Possible(w, m0, t)
    ensures var i := s.delivered;
            t == s.(delivered := i + 1, online := s.online[w[i].key := w[i].row], inserted := s.inserted + {i},
                    buffered := s.buffered + {i}, processed := s.processed + {i}, pending := s.pending + [i])
  {
    hide Possible;
    var u := Play(w, m0, s, ReadNew(1, false));
    assert u.phase.ids == [s.delivered];
    t := One(w, m0, u, s.delivered);
  }

  /** Flush, acknowledge and trim everything pending, from the flush task or from `run`. */
  lemma Settle(w: Stream, m0: Online, s: State, m: bool) returns (t: State)
    requires Possible(w, m0, s) && s.pending != []
    requires if m then s.phase.Parked? || s.phase.Stopping? else s.phase.Reading?
    requires FlightOf(s, m).NoFlight?
    ensures Possible(w, m0, t)
    ensures t == s.(disk := t.disk, buffered := {}, acked := s.acked + Elems(s.pending), pending := [])
  {
    hide Possible;
    var f := Flush(s.buffered, {}, true);
    var u := Play(w, m0, s, if m then MainFlush(f) else TaskFlush(f));
    u := Play(w, m0, u, Xack(m));
    t := Play(w, m0, u, Trim(m));
    assert s.pending[|s.pending|..] == [];
  }

  /** A second `run()` that finds only message 0 unacknowledged. */
  lemma DrainFirst(w: Stream, m0: Online, s: State) returns (t: State)
    requires Possible(w, m0, s) && s.phase.Down? && s.delivered == 2 && s.acked == {1}
    requires 0 < |w| && w[0].outcome.Applied?
    ensures Possible(w, m0, t) && t.phase.Reading?
    ensures t.online == s.online[w[0].key := w[0].row] && t.acked == {1} && t.delivered == 2
  {
    hide Possible;
    t := Play(w, m0, s, Start);
    t := Play(w, m0, t, ReadPel(1));
    assert PelPage({1}, 0, 2, 1) == [0];
    t := One(w, m0, t, 0);
    assert PelPage({1}, 1, 2, 1) == [];
    t := Play(w, m0, t, ReadPel(1));
  }

  /** The upgrade pause drops the batch it interrupts: a later message is acknowledged
      before it, and the next restart writes the older row over the newer one. */
  lemma PauseBreaksOrder(key: Key, m0: Online) returns (s: State)
    ensures var w := [Msg(key, [1], Applied), Msg(key, [2], Applied)];
            && Possible(w, m0, s) && s.phase.Reading? && s.delivered == 2
            && 1 in s.acked && 0 !in s.acked
            && s.online != Fold(w, m0, 2)
  {
    hide Possible;
    var w := [Msg(key, [1], Applied), Msg(key, [2], Applied)];
    s := Started(w, m0);
    s := Play(w, m0, s, ReadNew(1, true));
    s := Play(w, m0, s, Unpark(s.online));
    s := NextOne(w, m0, s);
    s := Settle(w, m0, s, false);
    assert s.acked == {1};
    s := Play(w, m0, s, Crash({}, Clean));
    s := DrainFirst(w, m0, s);
    FoldLast(w, m0, 2, 1);
  }

  /** `run()` called again on the same consumer keeps `_pending_ack`: stopped inside the
      drain, it acknowledges a message whose row the drain has just overwritten. */
  lemma RetryBreaksOrder(key: Key, m0: Online) returns (s: State)
    ensures var w := [Msg(key, [1], Applied), Msg(key, [2], Applied)];
            && Possible(w, m0, s) && s.phase.Down? && s.delivered == 2
            && 0 in s.acked && 1 in s.acked
            && s.online != Fold(w, m0, 2)
  {
    hide Possible;
    var w := [Msg(key, [1], Applied), Msg(key, [2], Applied)];
    s := Started(w, m0);
    s := NextOne(w, m0, s);
    s := NextOne(w, m0, s);
    s := Play(w, m0, s, Stop);
    s := Play(w, m0, s, Exit);
    s := StopInDrain(w, m0, s);
    FoldLast(w, m0, 2, 1);
  }

  lemma StopInDrain(w: Stream, m0: Online, s: State) returns (t: State)
    requires Possible(w, m0, s) && s.phase.Down? && s.delivered == 2 && s.acked == {} && s.pending == [0, 1]
    requires s.task.NoFlight? && s.main.NoFlight? && 0 < |w| && w[0].outcome.Applied?
    ensures Possible(w, m0, t) && t.phase.Down? && t.delivered == 2
    ensures t.online == s.online[w[0].key := w[0].row] && 0 in t.acked && 1 in t.acked
  {
    hide Possible;
    t := Play(w, m0, s, Start);
    t := Play(w, m0, t, ReadPel(1));
    assert PelPage({}, 0, 2, 1) == [0];
    t := One(w, m0, t, 0);
    t := Play(w, m0, t, Stop);
    assert t.pending == [0, 1, 0];
    assert t.pending[0] == 0 && t.pending[1] == 1;
    t := Settle(w, m0, t, true);
    t := Play(w, m0, t, Exit);
  }

  /** Two overlapping `_flush_and_ack` calls: the late trim of one removes from
      `_pending_ack` a message the other never acknowledged, so this process never will. */
  lemma OverlapForgetsId(a: Msg, b: Msg, m0: Online) returns (s: State)
    requires a.outcome.Applied? && b.outcome.Applied?
    ensures Possible([a, b], m0, s) && s.phase.Reading? && s.delivered == 2
    ensures 1 in s.inserted && 1 in s.processed && 1 !in s.acked
    ensures s.pending == [] && s.task.NoFlight? && s.main.NoFlight?
  {
    hide Possible;
    var w := [a, b];
    s := Started(w, m0);
    s := NextOne(w, m0, s);
    s := Play(w, m0, s, TaskFlush(Flush(s.buffered, {}, true)));
    s := Play(w, m0, s, Xack(false));
    s := Play(w, m0, s, ReadNew(0, true));
    s := Settle(w, m0, s, true);
    s := Play(w, m0, s, Unpark(s.online));
    s := NextOne(w, m0, s);
    assert s.acked == {0};
    assert s.pending == [1] && s.pending[1..] == [];
    s := Play(w, m0, s, Trim(false));
  }
}
