/** The guards are exact. At any state an ordered run reaches, a pause, a second flush or a
    retry is harmless if and only if its guard holds there: under the guard every run that
    goes on keeps the acknowledgement order and converges, and without it one does not. */
module WalGuards {
  import opened Bytes
  import opened Wal
  import opened WalOrder
  import opened WalOnline
  import opened WalRuns
  import opened WalConvergence

  /** Some ordered run from `s` ends in `t`. */
  ghost predicate OrderedOnward(w: Stream, s: State, t: State)
  {
    exists evs :: Leads(w, s, evs, t) && OrderedRun(w, s, evs)
  }

  lemma OnwardIsOrdered(w: Stream, s: State, t: State)
    requires Onward(w, s, t)
    ensures OrderedOnward(w, s, t)
  {
    hide Leads;
    var evs :| Leads(w, s, evs, t) && OrderlyRun(w, s, evs);
    OrderlyIsOrdered(w, s, evs);
  }

  lemma OrderedOk(w: Stream, s: State, t: State)
    requires OrderInv(w, s) && OrderedOnward(w, s, t)
    ensures OrderInv(w, t)
  {
    hide OrderInv;
    var evs :| Leads(w, s, evs, t) && OrderedRun(w, s, evs);
    OrderRun(w, s, evs);
  }

  // ---------------------------------------------------------------------------
  // Without the guard on a pause
  // ---------------------------------------------------------------------------

  lemma {:induction false} FirstGood(w: Stream, lo: nat, hi: nat) returns (k: nat)
    requires !NoGood(w, lo, hi)
    ensures lo <= k < hi && Good(w, k) && NoGood(w, lo, k)
    decreases hi - lo
  {
    k := lo;
    if !Good(w, lo) {
      k := FirstGood(w, lo + 1, hi);
    }
  }

  /** The next applicable message read and applied, alone of its batch. */
  lemma MarkNext(w: Stream, o: State, s: State, k: nat) returns (t: State)
    requires Onward(w, o, s) && s.phase.Reading? && s.delivered <= k < |w| && Good(w, k) && NoGood(w, s.delivered, k)
    ensures Onward(w, o, t)
    ensures t == s.(delivered := k + 1, pending := s.pending + [k],
                    online := t.online, inserted := t.inserted, buffered := t.buffered, processed := t.processed)
  {
    hide Onward, BatchDone, ApplyRest;
    var u: State;
    u, t := ReadOn(w, o, s, k + 1);
    assert u.phase.ids[|u.phase.ids| - 1] == k;
    ApplyRestOne(w, u);
    BatchDoneFrame(w, u);
  }

  lemma Resume(w: Stream, o: State, s: State) returns (t: State)
    requires Onward(w, o, s) && s.phase.Parked? && s.main.NoFlight?
    ensures Onward(w, o, t) && t == s.(phase := Reading)
  {
    hide Onward;
    Step(w, o, s, Unpark(s.online));
    t := Next(w, s, Unpark(s.online));
  }

  lemma DropTask(w: Stream, o: State, s: State) returns (t: State)
    requires Onward(w, o, s)
    ensures Onward(w, o, t) && t == s.(task := NoFlight)
  {
    hide Onward;
    t := s;
    if s.task.Flight? {
      Step(w, o, s, Drop(false));
      t := Next(w, s, Drop(false));
    }
  }

  /** A later message is acknowledged while the dropped one is not. */
  lemma PauseBreaks(w: Stream, s: State, count: nat) returns (t: State)
    requires OrderInv(w, s) && Enabled(w, s, ReadNew(count, true)) && !PauseGuard(w, s, count)
    ensures Onward(w, Next(w, s, ReadNew(count, true)), t) && !PrefixOfGood(w, t.delivered, t.acked)
  {
    var o := Next(w, s, ReadNew(count, true));
    var i := FirstGood(w, s.delivered, o.delivered);
    var k := FirstGood(w, o.delivered, |w|);
    assert i !in s.acked + Elems(s.pending);
    assert o == s.(delivered := o.delivered, phase := Parked) && o.main.NoFlight?;
    hide Onward, OrderInv, NoGood, PrefixOfGood;
    Here(w, o);
    t := Resume(w, o, o);
    t := DropTask(w, o, t);
    t := MarkNext(w, o, t, k);
    t := AckAll(w, o, t);
    assert t.pending[|s.pending|] == k;
    OutOfOrder(w, t.delivered, t.acked, i, k);
  }

  lemma OutOfOrder(w: Stream, d: nat, ids: set<nat>, i: nat, k: nat)
    requires Good(w, i) && i < k && k in ids && i !in ids
    ensures !PrefixOfGood(w, d, ids)
  {
  }

  // ---------------------------------------------------------------------------
  // Without the guard on a flush
  // ---------------------------------------------------------------------------

  lemma AckOne(w: Stream, o: State, s: State, m: bool) returns (t: State)
    requires Onward(w, o, s) && FlightOf(s, m).Flight?
    requires FlightOf(s, m).sent ==> Elems(FlightOf(s, m).snapshot) <= s.acked
    ensures Onward(w, o, t)
    ensures t == WithFlight(s.(acked := s.acked + Elems(FlightOf(s, m).snapshot)), m, FlightOf(s, m).(sent := true))
  {
    hide Onward;
    t := s;
    if !FlightOf(s, m).sent {
      Step(w, o, s, Xack(m));
      t := Next(w, s, Xack(m));
    } else {
      assert s.acked + Elems(FlightOf(s, m).snapshot) == s.acked;
    }
  }

  lemma TrimOne(w: Stream, o: State, s: State, m: bool) returns (t: State)
    requires Onward(w, o, s) && FlightOf(s, m).Flight? && FlightOf(s, m).sent
    ensures Onward(w, o, t)
    ensures t == WithFlight(s.(pending := TrimPending(s.pending, |FlightOf(s, m).snapshot|)), m, NoFlight)
  {
    hide Onward;
    Step(w, o, s, Trim(m));
    t := Next(w, s, Trim(m));
  }

  /** Two flights beside a parked pass, as a flush that breaks the guard leaves them. */
  ghost predicate TwoFlights(s: State)
  {
    && s.phase.Parked? && s.task.Flight? && s.main.Flight?
    && |TrimPending(s.pending, |s.main.snapshot|)| < |s.task.snapshot|
    && (s.main.sent ==> Elems(s.main.snapshot) <= s.acked)
    && (s.task.sent ==> Elems(s.task.snapshot) <= s.acked)
    && forall i {:trigger i in s.acked} :: i in s.acked + Elems(s.main.snapshot) + Elems(s.task.snapshot) ==>
         i < s.delivered
  }

  lemma FlushTwice(w: Stream, s: State, ev: Event)
    requires OrderInv(w, s) && Enabled(w, s, ev) && !Guard(w, s, ev) && (ev.TaskFlush? || ev.MainFlush?)
    ensures var t := Next(w, s, ev); TwoFlights(t) && t.delivered == s.delivered
  {
    assert forall i {:trigger i in s.acked} :: i in s.acked + Elems(s.pending) ==> i < s.delivered;
    hide NoGood, PassOk;
    hide PrefixOfGood;
  }

  /** The late trim removes from the pending list a message that was never acknowledged. */
  lemma TwoFlightsBreak(w: Stream, o: State) returns (t: State)
    requires TwoFlights(o) && !NoGood(w, o.delivered, |w|)
    ensures Onward(w, o, t) && !TrimsSafely(t)
  {
    var k := FirstGood(w, o.delivered, |w|);
    hide Onward, NoGood, TrimPending, TrimsSafely;
    Here(w, o);
    t := AckOne(w, o, o, true);
    t := TrimOne(w, o, t, true);
    t := Resume(w, o, t);
    t := MarkNext(w, o, t, k);
    t := AckOne(w, o, t, false);
    assert k !in t.acked by {
      assert o.delivered <= k;
    }
    LateTrim(t, k);
  }

  lemma LateTrim(t: State, k: nat)
    requires t.task.Flight? && t.task.sent && |t.pending| > 0 && t.pending[|t.pending| - 1] == k && k !in t.acked
    requires |t.pending| <= |t.task.snapshot|
    ensures !TrimsSafely(t)
  {
    assert k in t.pending && TrimPending(t.pending, |FlightOf(t, false).snapshot|) == [];
  }

  // ---------------------------------------------------------------------------
  // Without the guard on a retry
  // ---------------------------------------------------------------------------

  lemma {:induction false} LastHalf(w: Stream, key: Key, n: nat) returns (j: nat)
    requires n <= |w|
    ensures j <= n
    ensures j < n ==> w[j].key == key && w[j].outcome.HalfApplied?
    ensures forall l {:trigger w[l]} :: l < n && (j == n || j < l) && l >= 0 && w[l].key == key ==>
              !w[l].outcome.HalfApplied?
    decreases n
  {
    if n == 0 {
      j := 0;
    } else if w[n - 1].key == key && w[n - 1].outcome.HalfApplied? {
      j := n - 1;
    } else {
      j := LastHalf(w, key, n - 1);
      if j == n - 1 {
        j := n;
      }
    }
  }

  /** No half-applied message writes a key that would be rewritten. */
  lemma NoHalfBefore(w: Stream, d: nat, i: nat, k: nat)
    requires d <= |w| && NeverStale(w) && Rewrites(w, d, i, k)
    ensures forall l {:trigger w[l]} :: 0 <= l < k && w[l].key == w[k].key ==> !w[l].outcome.HalfApplied?
  {
    var j := LastHalf(w, w[k].key, i);
    if j < i {
      assert !Stale(w, j, i) && !Stale(w, j, k);
      assert forall l {:trigger w[l]} :: j < l < k && w[l].key == w[j].key ==> !w[l].outcome.HalfApplied?;
      assert false;
    }
  }

  /** Once the pending ids are acknowledged, nothing unacknowledged writes the key. */
  lemma AllTouchersAcked(w: Stream, d: nat, taken: set<nat>, i: nat, k: nat, j: nat)
    requires d <= |w| && NeverStale(w) && Rewrites(w, d, i, k) && k in taken && PrefixOfGood(w, d, taken)
    requires j < d && j !in taken
    ensures !Touches(w, j, w[i].key)
  {
    NoHalfBefore(w, d, i, k);
    if Touches(w, j, w[i].key) {
      assert j < k && Good(w, j);
      assert false;
    }
  }

  /** Stopped in the drain just after it has applied `i` again, with everything it holds
      then acknowledged by the final flush. */
  lemma StopAfter(w: Stream, s: State, i: nat) returns (t: State)
    requires OrderInv(w, s) && s.phase.Down? && i < s.delivered && i !in s.acked && !w[i].outcome.Rejected?
    requires s.pending != []
    ensures Onward(w, s.(phase := Draining(0)), t) && t.phase.Down? && t.pending == [] && t.delivered == s.delivered
    ensures s.acked + Elems(s.pending) <= t.acked && Holds(w, t.online, i)
  {
    var o := s.(phase := Draining(0));
    var count := PelPageTo(s.acked, 0, s.delivered, i);
    var ids := PelPage(s.acked, 0, s.delivered, count);
    assert InStream(w, ids);
    assert o.task.NoFlight? && o.main.NoFlight?;
    hide OrderInv, PelPage;
    hide Onward, ApplyRest, BatchDone;
    Here(w, o);
    Step(w, o, o, ReadPel(count));
    t := Next(w, o, ReadPel(count));
    assert t == DrainOf(s, ids);
    BatchDoneReached(w, o, t);
    ApplyRestRow(w, t, |ids| - 1);
    BatchDoneFrame(w, t);
    t := StopAndAck(w, o, BatchDone(w, t));
    assert forall j {:trigger j in s.pending} :: j in s.pending ==> j in t.acked;
  }

  lemma StopAndAck(w: Stream, o: State, s: State) returns (t: State)
    requires Onward(w, o, s) && s.phase.Draining? && s.pending != [] && s.task.NoFlight? && s.main.NoFlight?
    ensures Onward(w, o, t)
    ensures t == s.(phase := Down, pending := [], acked := s.acked + Elems(s.pending), disk := t.disk, buffered := {})
  {
    hide Onward;
    Step(w, o, s, Stop);
    t := Next(w, s, Stop);
    var f := Flush(t.buffered, {}, true);
    Step(w, o, t, MainFlush(f));
    t := Next(w, t, MainFlush(f));
    t := AckOne(w, o, t, true);
    t := TrimOne(w, o, t, true);
    assert s.pending[|s.pending|..] == [];
    Step(w, o, t, Exit);
    t := Next(w, t, Exit);
  }

  /** The drain after that finds nothing of the key to apply, and the old row stays. */
  lemma RetryBreaks(w: Stream, m0: Online, s: State) returns (t: State)
    requires OrderInv(w, s) && NeverStale(w) && s.phase.Down? && !RetryGuard(w, s)
    ensures Onward(w, s.(phase := Draining(0)), t) && !UpToDate(w, m0, t)
  {
    var o := s.(phase := Draining(0));
    var d := s.delivered;
    var i: nat, k: nat :| i in s.pending && i !in s.acked && k in s.pending && Rewrites(w, d, i, k);
    TakenInOrder(w, s);
    assert k in Taken(s);
    var u := StopAfter(w, s, i);
    OrderAfter(w, s, o, u);
    NothingRetained(w, u);
    hide Onward, ApplyRest, PelPage, NeverStale, PrefixOfGood, RetryGuard, Fold, OrderInv;
    t := DrainAll(w, o, u);
    UnackedOk(u);
    forall j: nat | j in Unacked(u)
      ensures !Touches(w, j, w[i].key)
    {
      AllTouchersAcked(w, d, u.acked, i, k, j);
    }
    if Unacked(u) != [] {
      hide Unacked, Touches, Rewrites;
      ApplyRestKeeps(w, DrainOf(u, Unacked(u)), i);
    }
    FoldLast(w, m0, d, k);
  }

  lemma OrderAfter(w: Stream, s: State, o: State, u: State)
    requires OrderInv(w, s) && s.phase.Down? && o == s.(phase := Draining(0)) && Onward(w, o, u)
    ensures OrderInv(w, u) && PrefixOfGood(w, u.delivered, u.acked)
  {
    OrderRest(w, s, Start);
    OnwardOk(w, map[], o, u);
  }

  // ---------------------------------------------------------------------------
  // Exactly
  // ---------------------------------------------------------------------------

  /** Order. At any state an ordered run reaches, an event keeps its guard if and only if
      every ordered run that goes on from it acknowledges in order and forgets nothing. */
  lemma OrderGuardIff(w: Stream, m0: Online, s: State, ev: Event)
    requires OrderedOnward(w, Initial(m0), s) && Enabled(w, s, ev) && Faithful(w, s, ev)
    ensures Guard(w, s, ev) <==> forall t :: OrderedOnward(w, Next(w, s, ev), t) ==> InOrder(w, t)
  {
    hide OrderInv, InOrder, OrderedOnward, Next, Faithful, PauseGuard, FlushGuard;
    InitialOrder(w, m0);
    OrderedOk(w, Initial(m0), s);
    var o := Next(w, s, ev);
    if Guard(w, s, ev) {
      OrderStep(w, s, ev);
      forall t | OrderedOnward(w, o, t)
        ensures InOrder(w, t)
      {
        OrderedOk(w, o, t);
        OrderedInOrder(w, t);
      }
    } else {
      var t := GuardBreaks(w, s, ev);
      OnwardIsOrdered(w, o, t);
    }
  }

  lemma GuardBreaks(w: Stream, s: State, ev: Event) returns (t: State)
    requires OrderInv(w, s) && Enabled(w, s, ev) && !Guard(w, s, ev)
    ensures Onward(w, Next(w, s, ev), t) && !InOrder(w, t)
  {
    hide OrderInv, Onward, Next, PauseGuard, PrefixOfGood, TrimsSafely, TwoFlights, NoGood;
    if ev.ReadNew? {
      t := PauseBreaks(w, s, ev.count);
    } else {
      FlushTwice(w, s, ev);
      t := TwoFlightsBreak(w, Next(w, s, ev));
    }
  }

  lemma OnlineGuardBreaks(w: Stream, m0: Online, s: State, ev: Event) returns (t: State)
    requires OrderInv(w, s) && OnlineInv(w, m0, s) && NeverStale(w) && Enabled(w, s, ev) && !OnlineGuard(w, s, ev)
    ensures Onward(w, Next(w, s, ev), t) && !UpToDate(w, m0, t)
  {
    hide Onward, RetryGuard, NeverStale, OnlineInv, Fold, Replay;
    if ev.Start? {
      t := RetryBreaks(w, m0, s);
    } else {
      var o := Next(w, s, ev);
      assert o.main.NoFlight? && s.delivered <= |w|;
      hide OrderInv;
      CaughtUpIsFold(w, m0, s);
      NotQuiet(w, s, ev.count);
      ReplayFold(w, m0, s.delivered, ReadTo(w, s, ev.count));
      Here(w, o);
      t := Resume(w, o, o);
    }
  }

  lemma NotQuiet(w: Stream, s: State, count: nat)
    requires s.delivered <= |w| && !QuietPause(w, s, count)
    ensures s.delivered < ReadTo(w, s, count) <= |w|
    ensures Replay(w, s.online, s.delivered, ReadTo(w, s, count)) != s.online
  {
  }

  /** Order and contents. On a stream without stale messages, at any state an orderly run
      reaches, an event keeps its guards if and only if every orderly run that goes on from
      it acknowledges in order, forgets nothing, and leaves a caught-up pass with the fold. */
  lemma OrderlyIff(w: Stream, m0: Online, s: State, ev: Event)
    requires NeverStale(w) && Reached(w, m0, s) && Enabled(w, s, ev) && Honest(w, s, ev)
    ensures Orderly(w, s, ev) <==>
            forall t :: Onward(w, Next(w, s, ev), t) ==> InOrder(w, t) && UpToDate(w, m0, t)
  {
    hide OrderInv, OnlineInv, InOrder, UpToDate, Onward, Next, Honest, NeverStale, Guard, OnlineGuard;
    ReachedOk(w, m0, s);
    var o := Next(w, s, ev);
    if Orderly(w, s, ev) {
      HonestIsFaithful(w, s, ev);
      OrderStep(w, s, ev);
      OnlineStep(w, m0, s, ev);
      forall t | Onward(w, o, t)
        ensures InOrder(w, t) && UpToDate(w, m0, t)
      {
        OnwardOk(w, m0, o, t);
        OrderedInOrder(w, t);
        InvUpToDate(w, m0, t);
      }
    } else if !Guard(w, s, ev) {
      var t := GuardBreaks(w, s, ev);
    } else {
      var t := OnlineGuardBreaks(w, m0, s, ev);
    }
  }

  lemma HonestIsFaithful(w: Stream, s: State, ev: Event)
    requires Honest(w, s, ev)
    ensures Faithful(w, s, ev)
  {
  }

  lemma InvUpToDate(w: Stream, m0: Online, s: State)
    requires OnlineInv(w, m0, s)
    ensures UpToDate(w, m0, s)
  {
    hide OnlineInv, Fold;
    if s.phase.Reading? {
      CaughtUpIsFold(w, m0, s);
    }
  }
}
