/** Completeness of the acknowledgement: after a successful flush every applicable delivery of
    a caught-up pass is acknowledged, if and only if no pause of that pass dropped one. */
module WalComplete {
  import opened Bytes
  import opened Wal
  import opened WalOrder
  import opened WalConsumer

  /** A message of this pass that nothing will acknowledge any more. */
  ghost predicate Forgotten(w: Stream, s: State, i: nat)
  {
    && InMainLoop(s.phase) && Good(w, i) && i < Pos(s.phase, s.delivered)
    && i !in s.acked && i !in s.pending && i !in AppliedIds(s.phase)
  }

  lemma ForgottenBatch(w: Stream, s: State, ev: Event, i: nat)
    requires OrderInv(w, s) && Enabled(w, s, ev) && Ordered(w, s, ev) && Forgotten(w, s, i)
    requires ev.ReadNew? || ev.Apply? || ev.FinishBatch?
    ensures Forgotten(w, Next(w, s, ev), i)
  {
    hide AckOrder, FlightsOk, Guard, GapsAcked, MarksOk;
    if ev.Apply? {
      assert BatchOk(w, s.delivered, s.acked, s.phase);
      assert s.phase.ids[s.phase.k] < s.phase.next;
    }
  }

  lemma ForgottenFlush(w: Stream, s: State, ev: Event, i: nat)
    requires OrderInv(w, s) && Enabled(w, s, ev) && Forgotten(w, s, i) && FlushEvent(ev)
    ensures Forgotten(w, Next(w, s, ev), i)
  {
    hide AckOrder, PassOk, PrefixOfGood, TrimCovers;
    if ev.Xack? {
      var f := FlightOf(s, ev.byMain);
      assert FlightOk(w, s.delivered, s.acked, s.pending, f);
      assert i !in s.acked + Elems(s.pending);
      assert i !in Elems(f.snapshot);
    }
  }

  /** It stays forgotten until the pass ends. */
  lemma ForgottenStep(w: Stream, s: State, ev: Event, i: nat)
    requires OrderInv(w, s) && Enabled(w, s, ev) && Ordered(w, s, ev) && Forgotten(w, s, i)
    ensures Forgotten(w, Next(w, s, ev), i) || !InPass(Next(w, s, ev).phase)
  {
    if FlushEvent(ev) {
      ForgottenFlush(w, s, ev, i);
    } else if ev.ReadNew? || ev.Apply? || ev.FinishBatch? {
      ForgottenBatch(w, s, ev, i);
    } else {
      hide OrderInv, Ordered;
    }
  }

  lemma OutStays(w: Stream, s: State, ev: Event)
    requires Enabled(w, s, ev) && !InPass(s.phase) && !ev.Start?
    ensures !InPass(Next(w, s, ev).phase)
  {
  }

  ghost predicate NoStart(evs: seq<Event>)
  {
    forall k {:trigger evs[k]} :: 0 <= k < |evs| ==> !evs[k].Start?
  }

  lemma {:induction false} OutRun(w: Stream, s: State, evs: seq<Event>)
    requires Legal(w, s, evs) && !InPass(s.phase) && NoStart(evs)
    ensures !InPass(Exec(w, s, evs).phase)
    decreases |evs|
  {
    hide InPass, Next, Enabled;
    if evs != [] {
      OutStays(w, s, evs[0]);
      OutRun(w, Next(w, s, evs[0]), evs[1..]);
    }
  }

  lemma {:induction false} ForgottenRun(w: Stream, s: State, evs: seq<Event>, i: nat)
    requires OrderInv(w, s) && OrderedRun(w, s, evs) && Legal(w, s, evs) && NoStart(evs) && Forgotten(w, s, i)
    ensures Forgotten(w, Exec(w, s, evs), i) || !InPass(Exec(w, s, evs).phase)
    decreases |evs|
  {
    hide OrderInv, Next, Enabled, Ordered, Forgotten, InPass;
    if evs != [] {
      var t := Next(w, s, evs[0]);
      OrderStep(w, s, evs[0]);
      ForgottenStep(w, s, evs[0], i);
      if Forgotten(w, t, i) {
        ForgottenRun(w, t, evs[1..], i);
      } else {
        OutRun(w, t, evs[1..]);
      }
    }
  }

  /** A pause that drops an applicable message forgets it. */
  lemma LossForgets(w: Stream, s: State, ev: Event) returns (i: nat)
    requires OrderInv(w, s) && Enabled(w, s, ev) && !Lossless(w, s, ev)
    ensures Forgotten(w, Next(w, s, ev), i)
  {
    hide FlightsOk, PassOk;
    i :| s.delivered <= i < ReadTo(w, s, ev.count) && Good(w, i);
    assert i !in s.acked + Elems(s.pending);
  }

  lemma {:induction false} LossyRun(w: Stream, s: State, evs: seq<Event>) returns (i: nat)
    requires OrderInv(w, s) && OrderedRun(w, s, evs) && Legal(w, s, evs) && !LosslessRun(w, s, evs)
    requires NoStart(evs)
    ensures Forgotten(w, Exec(w, s, evs), i) || !InPass(Exec(w, s, evs).phase)
    decreases |evs|
  {
    hide OrderInv, Next, Enabled, Ordered, Forgotten, InPass, Lossless;
    var t := Next(w, s, evs[0]);
    OrderStep(w, s, evs[0]);
    if Lossless(w, s, evs[0]) {
      i := LossyRun(w, t, evs[1..]);
    } else {
      i := LossForgets(w, s, evs[0]);
      ForgottenRun(w, t, evs[1..], i);
    }
  }

  /** Between batches, with every delivery behind the pass. */
  predicate CaughtUp(s: State)
  {
    s.phase.Reading? || s.phase.Parked?
  }

  lemma CoveredIsAll(w: Stream, s: State, i: nat)
    requires OrderInv(w, s) && CoverInv(w, s) && CaughtUp(s)
    ensures i in s.acked || i in s.pending <==> i < s.delivered && Good(w, i)
  {
    hide FlightsOk, PassOk;
    assert i in s.acked || i in s.pending <==> i in s.acked + Elems(s.pending);
  }

  /** Nothing that cannot be applied is acknowledged or waits to be. */
  lemma OnlyGood(w: Stream, s: State, i: nat)
    requires OrderInv(w, s) && (i in s.acked || i in s.pending)
    ensures i < s.delivered && Good(w, i)
  {
    hide FlightsOk, PassOk;
    assert i in s.acked + Elems(s.pending);
  }

  lemma FlushEffect(s: State, flush: Flush)
    requires flush.ok
    ensures FlushDone(s, flush).acked == s.acked + Elems(s.pending) && FlushDone(s, flush).pending == []
    ensures FlushDone(s, flush).delivered == s.delivered
  {
  }

  /** One `run()` from its start to a caught-up state, followed by a successful flush: the
      acknowledged ids are exactly the applicable deliveries, if and only if no pause of this
      pass dropped an applicable message. What came before is any ordered run. */
  lemma FlushAcknowledgesAll(w: Stream, m0: Online, before: seq<Event>, pass: seq<Event>, flush: Flush)
    requires OrderedRun(w, Initial(m0), before) && Legal(w, Initial(m0), before)
    requires var d := Exec(w, Initial(m0), before);
             && d.phase.Down? && OrderedRun(w, d, pass) && Legal(w, d, pass)
             && pass != [] && pass[0].Start? && NoStart(pass[1..]) && CaughtUp(Exec(w, d, pass))
             && LegalFlush(Exec(w, d, pass), flush) && flush.ok
    ensures var d := Exec(w, Initial(m0), before);
            var t := FlushDone(Exec(w, d, pass), flush);
            && (forall i: nat :: i in t.acked ==> i < t.delivered && Good(w, i))
            && ((forall i: nat :: i < t.delivered && Good(w, i) ==> i in t.acked) <==> LosslessRun(w, d, pass))
  {
    hide OrderInv, CoverInv, Next, Enabled, Ordered, Forgotten, Lossless, FlushDone, OrderedRun, LosslessRun;
    InitialOrder(w, m0);
    OrderRun(w, Initial(m0), before);
    var d := Exec(w, Initial(m0), before);
    OrderRun(w, d, pass);
    var s := Exec(w, d, pass);
    FlushEffect(s, flush);
    forall i: nat | i in s.acked + Elems(s.pending)
      ensures i < s.delivered && Good(w, i)
    {
      OnlyGood(w, s, i);
    }
    if LosslessRun(w, d, pass) {
      DownCovers(w, d);
      CoverRun(w, d, pass);
      forall i: nat | i < s.delivered && Good(w, i)
        ensures i in s.acked + Elems(s.pending)
      {
        CoveredIsAll(w, s, i);
      }
    } else {
      var i := PassForgets(w, d, pass);
      ForgottenHere(w, s, i);
    }
  }

  lemma DownCovers(w: Stream, d: State)
    requires d.phase.Down?
    ensures CoverInv(w, d)
  {
  }

  lemma ForgottenHere(w: Stream, s: State, i: nat)
    requires CaughtUp(s) && Forgotten(w, s, i)
    ensures i < s.delivered && Good(w, i) && i !in s.acked + Elems(s.pending)
  {
  }

  lemma PassForgets(w: Stream, d: State, pass: seq<Event>) returns (i: nat)
    requires OrderInv(w, d) && d.phase.Down? && OrderedRun(w, d, pass) && Legal(w, d, pass)
    requires pass != [] && pass[0].Start? && NoStart(pass[1..]) && CaughtUp(Exec(w, d, pass))
    requires !LosslessRun(w, d, pass)
    ensures Forgotten(w, Exec(w, d, pass), i)
  {
    hide OrderInv, Forgotten;
    OrderStep(w, d, pass[0]);
    assert Lossless(w, d, pass[0]);
    i := LossyRun(w, Next(w, d, pass[0]), pass[1..]);
  }
}
