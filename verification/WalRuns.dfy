/** Building runs of the WAL consumer: single steps, whole batches, whole drains. */
module WalRuns {
  import opened Bytes
  import opened Wal
  import opened WalOrder
  import opened WalOnline

  ghost predicate Leads(w: Stream, s: State, evs: seq<Event>, t: State)
  {
    Legal(w, s, evs) && Exec(w, s, evs) == t
  }

  /** Some orderly run from `s` ends in `t`. */
  ghost predicate Onward(w: Stream, s: State, t: State)
  {
    exists evs :: Leads(w, s, evs, t) && OrderlyRun(w, s, evs)
  }

  /** Some orderly run on a fresh store ends in `s`. */
  ghost predicate Reached(w: Stream, m0: Online, s: State)
  {
    Onward(w, Initial(m0), s)
  }

  lemma {:induction false} LeadsOn(w: Stream, s: State, evs: seq<Event>, t: State, ev: Event)
    requires Leads(w, s, evs, t) && Enabled(w, t, ev)
    ensures Leads(w, s, evs + [ev], Next(w, t, ev))
    ensures OrderlyRun(w, s, evs) && Orderly(w, t, ev) ==> OrderlyRun(w, s, evs + [ev])
    decreases |evs|
  {
    hide Next, Enabled, Orderly;
    if evs == [] {
      var one := [ev];
      assert evs + [ev] == one && one[1..] == [];
      assert Legal(w, Next(w, t, ev), []) && Exec(w, Next(w, t, ev), []) == Next(w, t, ev);
      assert OrderlyRun(w, Next(w, t, ev), []);
      assert Legal(w, s, one) && Exec(w, s, one) == Next(w, t, ev);
    } else {
      assert (evs + [ev])[0] == evs[0] && (evs + [ev])[1..] == evs[1..] + [ev];
      LeadsOn(w, Next(w, s, evs[0]), evs[1..], t, ev);
    }
  }

  lemma Step(w: Stream, o: State, s: State, ev: Event)
    requires Onward(w, o, s) && Enabled(w, s, ev) && Orderly(w, s, ev)
    ensures Onward(w, o, Next(w, s, ev))
  {
    hide Next, Enabled, Orderly;
    var evs :| Leads(w, o, evs, s) && OrderlyRun(w, o, evs);
    LeadsOn(w, o, evs, s, ev);
  }

  lemma Here(w: Stream, o: State)
    ensures Onward(w, o, o)
  {
    assert Leads(w, o, [], o);
  }

  lemma OnwardOk(w: Stream, m0: Online, s: State, t: State)
    requires OrderInv(w, s) && Onward(w, s, t)
    ensures OrderInv(w, t)
    ensures NeverStale(w) && OnlineInv(w, m0, s) ==> OnlineInv(w, m0, t)
  {
    hide OrderInv, OnlineInv, NeverStale;
    var evs :| Leads(w, s, evs, t) && OrderlyRun(w, s, evs);
    OrderlyIsOrdered(w, s, evs);
    OrderRun(w, s, evs);
    if NeverStale(w) && OnlineInv(w, m0, s) {
      OnlineRun(w, m0, s, evs);
    }
  }

  lemma ReachedOk(w: Stream, m0: Online, s: State)
    requires Reached(w, m0, s)
    ensures OrderInv(w, s)
    ensures NeverStale(w) ==> OnlineInv(w, m0, s)
  {
    InitialOrder(w, m0);
    InitialOnline(w, m0);
    OnwardOk(w, m0, Initial(m0), s);
  }

  // ---------------------------------------------------------------------------
  // A whole batch
  // ---------------------------------------------------------------------------

  predicate InStream(w: Stream, ids: seq<nat>)
  {
    forall j :: 0 <= j < |ids| ==> ids[j] < |w|
  }

  function ApplyRest(w: Stream, s: State): State
    requires s.phase.Applying? && s.phase.k <= |s.phase.ids| && InStream(w, s.phase.ids)
    decreases |s.phase.ids| - s.phase.k
  {
    if s.phase.k == |s.phase.ids| then s
    else ApplyRest(w, Applied1(w, s, w[s.phase.ids[s.phase.k]].outcome))
  }

  lemma {:induction false} ApplyRestReached(w: Stream, o: State, s: State)
    requires s.phase.Applying? && s.phase.k <= |s.phase.ids| && InStream(w, s.phase.ids)
    ensures Onward(w, o, s) ==> Onward(w, o, ApplyRest(w, s))
    ensures var t := ApplyRest(w, s);
            && t.phase.Applying?
            && t == s.(online := t.online, inserted := t.inserted, buffered := t.buffered,
                       phase := s.phase.(k := |s.phase.ids|, applied := t.phase.applied))
    decreases |s.phase.ids| - s.phase.k
  {
    hide Onward;
    if s.phase.k < |s.phase.ids| {
      var outcome := w[s.phase.ids[s.phase.k]].outcome;
      if Onward(w, o, s) {
        Step(w, o, s, Apply(outcome));
      }
      ApplyRestReached(w, o, Applied1(w, s, outcome));
    }
  }

  /** A batch leaves the row of its last message for a key. */
  lemma {:induction false} ApplyRestRow(w: Stream, s: State, at: nat)
    requires s.phase.Applying? && s.phase.k <= |s.phase.ids| && InStream(w, s.phase.ids)
    requires at < |s.phase.ids| && !w[s.phase.ids[at]].outcome.Rejected?
    requires at < s.phase.k ==> Holds(w, s.online, s.phase.ids[at])
    requires forall j :: at < j < |s.phase.ids| ==> !Touches(w, s.phase.ids[j], w[s.phase.ids[at]].key)
    ensures Holds(w, ApplyRest(w, s).online, s.phase.ids[at])
    decreases |s.phase.ids| - s.phase.k
  {
    if s.phase.k < |s.phase.ids| {
      var i := s.phase.ids[s.phase.k];
      assert s.phase.k > at ==> !Touches(w, i, w[s.phase.ids[at]].key);
      ApplyRestRow(w, Applied1(w, s, w[i].outcome), at);
    }
  }

  /** A batch leaves a key it does not write. */
  lemma {:induction false} ApplyRestKeeps(w: Stream, s: State, i: nat)
    requires s.phase.Applying? && s.phase.k <= |s.phase.ids| && InStream(w, s.phase.ids)
    requires i < |w| && Holds(w, s.online, i)
    requires forall j :: 0 <= j < |s.phase.ids| ==> !Touches(w, s.phase.ids[j], w[i].key)
    ensures Holds(w, ApplyRest(w, s).online, i)
    decreases |s.phase.ids| - s.phase.k
  {
    if s.phase.k < |s.phase.ids| {
      var j := s.phase.ids[s.phase.k];
      assert !Touches(w, j, w[i].key);
      ApplyRestKeeps(w, Applied1(w, s, w[j].outcome), i);
    }
  }

  /** A batch marks its applicable messages and no others. */
  lemma {:induction false} ApplyRestMarks(w: Stream, s: State)
    requires s.phase.Applying? && s.phase.k <= |s.phase.ids| && InStream(w, s.phase.ids)
    ensures ApplyRest(w, s).phase.Applying?
    ensures var applied := ApplyRest(w, s).phase.applied;
            && (forall i {:trigger i in applied} :: i in applied ==> i in s.phase.applied || i in s.phase.ids)
            && (forall i {:trigger i in s.phase.applied} :: i in s.phase.applied ==> i in applied)
            && (forall j {:trigger s.phase.ids[j]} :: s.phase.k <= j < |s.phase.ids| && Good(w, s.phase.ids[j]) ==>
                  s.phase.ids[j] in applied)
    decreases |s.phase.ids| - s.phase.k
  {
    if s.phase.k < |s.phase.ids| {
      var i := s.phase.ids[s.phase.k];
      var t := Applied1(w, s, w[i].outcome);
      ApplyRestMarks(w, t);
      assert t.phase.ids == s.phase.ids && t.phase.k == s.phase.k + 1;
      assert forall x {:trigger x in s.phase.applied} :: x in s.phase.applied ==> x in t.phase.applied;
      assert forall x {:trigger x in t.phase.applied} :: x in t.phase.applied ==> x in s.phase.applied || x == i;
      assert Good(w, i) ==> i in t.phase.applied;
    }
  }

  /** A batch whose last message alone is applicable marks that one. */
  lemma {:induction false} ApplyRestOne(w: Stream, s: State)
    requires s.phase.Applying? && s.phase.k < |s.phase.ids| && InStream(w, s.phase.ids)
    requires forall j :: s.phase.k <= j < |s.phase.ids| - 1 ==> !Good(w, s.phase.ids[j])
    requires Good(w, s.phase.ids[|s.phase.ids| - 1])
    ensures ApplyRest(w, s).phase.Applying?
    ensures ApplyRest(w, s).phase.applied == s.phase.applied + [s.phase.ids[|s.phase.ids| - 1]]
    decreases |s.phase.ids| - s.phase.k
  {
    var i := s.phase.ids[s.phase.k];
    var t := Applied1(w, s, w[i].outcome);
    if s.phase.k < |s.phase.ids| - 1 {
      assert !Good(w, i) && i < |w|;
      ApplyRestOne(w, t);
      assert t.phase.applied == s.phase.applied;
    } else {
      assert t.phase.k == |t.phase.ids| && t.phase.applied == s.phase.applied + [i];
      assert ApplyRest(w, t) == t;
    }
    assert ApplyRest(w, s) == ApplyRest(w, t);
  }

  /** A batch leaves alone the keys it does not write. */
  lemma {:induction false} ApplyRestOthers(w: Stream, s: State, key: Key)
    requires s.phase.Applying? && s.phase.k <= |s.phase.ids| && InStream(w, s.phase.ids)
    requires forall j :: 0 <= j < |s.phase.ids| ==> !Touches(w, s.phase.ids[j], key)
    ensures var t := ApplyRest(w, s);
            key in t.online <==> key in s.online
    ensures var t := ApplyRest(w, s);
            key in s.online ==> t.online[key] == s.online[key]
    decreases |s.phase.ids| - s.phase.k
  {
    if s.phase.k < |s.phase.ids| {
      var j := s.phase.ids[s.phase.k];
      assert !Touches(w, j, key);
      ApplyRestOthers(w, Applied1(w, s, w[j].outcome), key);
    }
  }

  /** Message `ids[at]` is the batch's last one for its key that is not rejected. */
  ghost predicate LastOfKey(w: Stream, ids: seq<nat>, at: nat)
    requires at < |ids| && InStream(w, ids)
  {
    !w[ids[at]].outcome.Rejected? && forall j :: at < j < |ids| ==> !Touches(w, ids[j], w[ids[at]].key)
  }

  ghost predicate NoneOfKey(w: Stream, ids: seq<nat>, key: Key)
    requires InStream(w, ids)
  {
    forall j :: 0 <= j < |ids| ==> !Touches(w, ids[j], key)
  }

  /** What a batch does, said about the messages: every applicable one is marked, appended to
      the pending list and buffered for the offline store, no other is, and each key holds the
      row of its last message that was not rejected, or what it held before. */
  lemma BatchEffect(w: Stream, s: State)
    requires s.phase.Applying? && s.phase.k == 0 && s.phase.applied == [] && InStream(w, s.phase.ids)
    ensures var t, ids := BatchDone(w, s), s.phase.ids;
            && |s.pending| <= |t.pending| && t.pending[..|s.pending|] == s.pending
            && (forall i {:trigger i in ids} :: i in t.pending[|s.pending|..] <==> i in ids && Good(w, i))
            && (forall i {:trigger i in ids} :: i in t.processed <==> i in s.processed || (i in ids && Good(w, i)))
            && t.acked == s.acked && t.disk == s.disk && t.delivered == s.delivered
    ensures var t, ids := BatchDone(w, s), s.phase.ids;
            && (forall i {:trigger i in ids} :: i in t.buffered <==> i in s.buffered || (i in ids && Good(w, i)))
            && (forall at {:trigger ids[at]} :: 0 <= at < |ids| && LastOfKey(w, ids, at) ==>
                  Holds(w, t.online, ids[at]))
            && (forall key: Key {:trigger NoneOfKey(w, ids, key)} :: NoneOfKey(w, ids, key) ==>
                  (key in t.online <==> key in s.online) && (key in s.online ==> t.online[key] == s.online[key]))
  {
    var t, ids := BatchDone(w, s), s.phase.ids;
    ApplyRestReached(w, s, s);
    ApplyRestMarks(w, s);
    ApplyRestGood(w, s);
    var applied := ApplyRest(w, s).phase.applied;
    assert t.pending[|s.pending|..] == applied;
    forall i
      ensures i in applied <==> i in ids && Good(w, i)
    {
      if i in ids && Good(w, i) {
        var j :| 0 <= j < |ids| && ids[j] == i;
      }
    }
    forall at | 0 <= at < |ids| && LastOfKey(w, ids, at)
      ensures Holds(w, t.online, ids[at])
    {
      ApplyRestRow(w, s, at);
    }
    forall key: Key | NoneOfKey(w, ids, key)
      ensures (key in t.online <==> key in s.online) && (key in s.online ==> t.online[key] == s.online[key])
    {
      ApplyRestOthers(w, s, key);
    }
  }

  lemma {:induction false} ApplyRestGood(w: Stream, s: State)
    requires s.phase.Applying? && s.phase.k <= |s.phase.ids| && InStream(w, s.phase.ids)
    requires forall i {:trigger i in s.phase.applied} :: i in s.phase.applied ==> Good(w, i) && i in s.buffered
    ensures ApplyRest(w, s).phase.Applying?
    ensures forall i {:trigger i in ApplyRest(w, s).buffered} ::
              i in ApplyRest(w, s).buffered <==> i in s.buffered || i in ApplyRest(w, s).phase.applied
    ensures forall i {:trigger i in ApplyRest(w, s).phase.applied} :: i in ApplyRest(w, s).phase.applied ==> Good(w, i)
    decreases |s.phase.ids| - s.phase.k
  {
    if s.phase.k < |s.phase.ids| {
      var i := s.phase.ids[s.phase.k];
      var u := Applied1(w, s, w[i].outcome);
      assert forall x {:trigger x in u.phase.applied} :: x in u.phase.applied ==> x in s.phase.applied || x == i;
      ApplyRestGood(w, u);
      ApplyRestMarks(w, u);
      assert i in u.phase.applied ==> i in ApplyRest(w, s).phase.applied;
    }
  }

  /** The whole batch applied, marked processed, and appended to the pending list. */
  function BatchDone(w: Stream, s: State): State
    requires s.phase.Applying? && s.phase.k == 0 && InStream(w, s.phase.ids)
  {
    var u := ApplyRest(w, s);
    var applied := AppliedIds(u.phase);
    u.(processed := u.processed + (set i | i in applied), pending := u.pending + applied,
       phase := if s.phase.drain then Draining(s.phase.next) else Reading)
  }

  lemma BatchDoneFrame(w: Stream, s: State)
    requires s.phase.Applying? && s.phase.k == 0 && InStream(w, s.phase.ids)
    ensures var t := BatchDone(w, s);
            && t == s.(online := t.online, inserted := t.inserted, buffered := t.buffered,
                       processed := t.processed, pending := t.pending,
                       phase := if s.phase.drain then Draining(s.phase.next) else Reading)
            && t.online == ApplyRest(w, s).online
            && t.pending == s.pending + AppliedIds(ApplyRest(w, s).phase)
  {
    ApplyRestReached(w, s, s);
  }

  /** What a batch does is what the state machine allows. */
  lemma BatchDoneReached(w: Stream, o: State, s: State)
    requires Onward(w, o, s)
    requires s.phase.Applying? && s.phase.k == 0 && InStream(w, s.phase.ids)
    ensures Onward(w, o, BatchDone(w, s))
  {
    hide Onward, ApplyRest;
    var u := ApplyRest(w, s);
    ApplyRestReached(w, o, s);
    Step(w, o, u, SetKeys(|u.phase.applied|));
    var v := Next(w, u, SetKeys(|u.phase.applied|));
    assert u.phase.applied[..|u.phase.applied|] == u.phase.applied;
    Step(w, o, v, FinishBatch);
    assert Next(w, v, FinishBatch) == BatchDone(w, s);
  }

  lemma {:induction false} PelPageAll(acked: set<nat>, from: nat, delivered: nat, count: nat)
    requires count >= delivered - from
    ensures forall i :: from <= i < delivered && i !in acked ==> i in PelPage(acked, from, delivered, count)
    decreases delivered - from
  {
    if from < delivered && count > 0 {
      PelPageAll(acked, from + 1, delivered, if from in acked then count else count - 1);
    }
  }

  /** A page can be made to end with any unacknowledged delivery. */
  lemma {:induction false} PelPageTo(acked: set<nat>, from: nat, delivered: nat, i: nat) returns (count: nat)
    requires from <= i < delivered && i !in acked
    ensures count > 0
    ensures var ids := PelPage(acked, from, delivered, count); ids != [] && ids[|ids| - 1] == i
    decreases delivered - from
  {
    if from == i {
      count := 1;
      assert PelPage(acked, from + 1, delivered, 0) == [];
    } else {
      count := PelPageTo(acked, from + 1, delivered, i);
      if from !in acked {
        count := count + 1;
      }
    }
  }

  /** A drain whose last page held everything unacknowledged. */
  lemma FinishDrain(w: Stream, o: State, s: State) returns (t: State)
    requires Onward(w, o, s) && s.phase.Draining? && forall j :: s.phase.from <= j < s.delivered ==> j in s.acked
    ensures Onward(w, o, t) && t == s.(phase := Reading)
  {
    hide Onward, PelPage;
    PelPageOk(s.acked, s.phase.from, s.delivered, 1);
    Step(w, o, s, ReadPel(1));
    t := Next(w, s, ReadPel(1));
  }

  /** Every unacknowledged delivery, in order. */
  function Unacked(s: State): seq<nat>
  {
    PelPage(s.acked, 0, s.delivered, s.delivered + 1)
  }

  lemma UnackedOk(s: State)
    ensures forall i: nat {:trigger i in Unacked(s)} :: i in Unacked(s) <==> i < s.delivered && i !in s.acked
    ensures var ids := Unacked(s); forall j, l {:trigger ids[j], ids[l]} :: 0 <= j < l < |ids| ==> ids[j] < ids[l]
  {
    hide PelPage;
    PelPageAll(s.acked, 0, s.delivered, s.delivered + 1);
    PelPageOk(s.acked, 0, s.delivered, s.delivered + 1);
  }

  lemma NothingRetained(w: Stream, s: State)
    requires s.pending == []
    ensures RetryGuard(w, s)
  {
  }

  /** The batch in which `ids` are drained. */
  function DrainOf(s: State, ids: seq<nat>): State
    requires ids != []
  {
    s.(phase := Applying(ids, 0, [], ids[|ids| - 1] + 1, true))
  }

  /** A `run()` whose drain reads everything unacknowledged as one page. */
  lemma DrainAll(w: Stream, o: State, s: State) returns (t: State)
    requires Onward(w, o, s) && s.phase.Down? && RetryGuard(w, s) && s.delivered <= |w|
    ensures Onward(w, o, t) && t.phase.Reading? && t.delivered == s.delivered && t.acked == s.acked
    ensures InStream(w, Unacked(s))
    ensures t.online == if Unacked(s) == [] then s.online else ApplyRest(w, DrainOf(s, Unacked(s))).online
  {
    hide Onward, PelPage, RetryGuard, BatchDone;
    UnackedOk(s);
    var ids := Unacked(s);
    forall j | 0 <= j < |ids|
      ensures ids[j] < |w|
    {
      assert ids[j] in ids;
    }
    Step(w, o, s, Start);
    var u := Next(w, s, Start);
    Step(w, o, u, ReadPel(s.delivered + 1));
    u := Next(w, u, ReadPel(s.delivered + 1));
    if ids == [] {
      t := u;
    } else {
      assert u == DrainOf(s, ids);
      BatchDoneReached(w, o, u);
      BatchDoneFrame(w, u);
      forall j | ids[|ids| - 1] < j < s.delivered
        ensures j in s.acked
      {
        assert j !in ids;
      }
      t := FinishDrain(w, o, BatchDone(w, u));
    }
  }

  /** A fresh consumer with nothing to drain. */
  lemma Boot(w: Stream, m0: Online) returns (s: State)
    ensures Reached(w, m0, s) && s == Initial(m0).(phase := Reading)
  {
    hide Onward, PelPage;
    var o := Initial(m0);
    Here(w, o);
    Step(w, o, o, Start);
    s := FinishDrain(w, o, Next(w, o, Start));
  }

  /** The deliveries up to `n` read and applied as one batch. */
  lemma ReadOn(w: Stream, o: State, s: State, n: nat) returns (t: State, u: State)
    requires Onward(w, o, s) && s.phase.Reading? && s.delivered < n <= |w|
    ensures t == s.(delivered := n, phase := Applying(Upto(s.delivered, n), 0, [], n, false))
    ensures InStream(w, t.phase.ids) && u == BatchDone(w, t) && Onward(w, o, u)
  {
    hide Onward, BatchDone;
    Step(w, o, s, ReadNew(n - s.delivered, false));
    t := Next(w, s, ReadNew(n - s.delivered, false));
    BatchDoneReached(w, o, t);
    u := BatchDone(w, t);
  }

  /** The flush task flushes and acknowledges everything pending. */
  lemma AckAll(w: Stream, o: State, s: State) returns (t: State)
    requires Onward(w, o, s) && s.phase.Reading? && s.pending != [] && s.task.NoFlight? && s.main.NoFlight?
    ensures Onward(w, o, t)
    ensures t == s.(disk := t.disk, buffered := {}, acked := s.acked + Elems(s.pending), task := t.task)
    ensures t.task == Flight(s.pending, true)
  {
    hide Onward;
    var flush := Flush(s.buffered, {}, true);
    Step(w, o, s, TaskFlush(flush));
    var u := Next(w, s, TaskFlush(flush));
    Step(w, o, u, Xack(false));
    t := Next(w, u, Xack(false));
  }
}
