/** The consumer object itself: `_apply`, `_process_batch`, `_drain_pel` and
    `_flush_and_ack` updating its fields in place, each proved to be a run of the state
    machine, and a restart that therefore converges. */
module WalConsumer {
  import opened Bytes
  import opened Wal
  import opened WalOrder
  import opened WalOnline
  import opened WalRuns
  import opened WalConvergence

  /** A drain that notices the stop event after `pages` pages. */
  function DrainDone(w: Stream, s: State, count: nat, pages: nat): State
    requires s.phase.Draining? && s.delivered <= |w| && count > 0
    decreases pages
  {
    if pages == 0 then s
    else
      var ids := PelPage(s.acked, s.phase.from, s.delivered, count);
      if ids == [] then s.(phase := Reading)
      else
        var t := BatchDone(w, s.(phase := Applying(ids, 0, [], ids[|ids| - 1] + 1, true)));
        assert t.delivered == s.delivered by {
          BatchDoneFrame(w, s.(phase := Applying(ids, 0, [], ids[|ids| - 1] + 1, true)));
        }
        DrainDone(w, t, count, pages - 1)
  }

  /** A flush that runs to its end with nothing else happening: everything pending is
      acknowledged and trimmed, or, when the flush failed, nothing is. */
  ghost function FlushDone(s: State, flush: Flush): State
  {
    if s.pending == [] then s
    else if flush.ok then Flushed(s, flush).(acked := s.acked + Elems(s.pending), pending := [])
    else Flushed(s, flush)
  }

  class Consumer {
    // Redis and the files
    var delivered: nat
    var acked: set<nat>
    var processed: set<nat>
    var disk: set<nat>
    // shared memory, the offline writer's buffer, and this object
    var segments: Online
    var inserted: set<nat>
    var buffered: set<nat>
    var pendingAck: seq<nat>
    ghost var phase: Phase

    ghost function View(): State
      reads this
    {
      State(delivered, acked, processed, segments, inserted, disk, buffered, pendingAck, phase, NoFlight, NoFlight)
    }

    constructor (w: Stream, m0: Online)
      ensures View() == Initial(m0) && Reached(w, m0, View())
    {
      delivered, acked, processed, disk := 0, {}, {}, {};
      segments, inserted, buffered, pendingAck := m0, {}, {}, [];
      phase := Down;
      new;
      Here(w, Initial(m0));
    }

    /** Decode, insert, append; `false` leaves the message in the pending-entries list. */
    method Apply(w: Stream, i: nat) returns (ok: bool)
      requires AtMessage(w, View()) && phase.ids[phase.k] == i
      modifies this
      ensures View() == Applied1(w, old(View()), w[i].outcome)
      ensures ok == w[i].outcome.Applied?
      ensures segments == if w[i].outcome.Rejected? then old(segments) else old(segments)[w[i].key := w[i].row]
      ensures inserted == if w[i].outcome.Rejected? then old(inserted) else old(inserted) + {i}
      ensures buffered == if ok then old(buffered) + {i} else old(buffered)
      ensures delivered == old(delivered) && acked == old(acked) && processed == old(processed)
      ensures disk == old(disk) && pendingAck == old(pendingAck)
    {
      var m := w[i];
      ok := false;
      phase := phase.(k := phase.k + 1);
      if m.outcome.Rejected? {
        return;
      }
      segments := segments[m.key := m.row];
      inserted := inserted + {i};
      if m.outcome.HalfApplied? {
        return;
      }
      buffered := buffered + {i};
      phase := phase.(applied := phase.applied + [i]);
      return true;
    }

    method ProcessBatch(w: Stream, msgs: seq<nat>)
      requires phase.Applying? && phase.ids == msgs && phase.k == 0 && phase.applied == [] && InStream(w, msgs)
      modifies this
      ensures View() == BatchDone(w, old(View()))
    {
      var applied: seq<nat> := [];
      for k := 0 to |msgs|
        invariant phase.Applying? && phase.k == k && phase.ids == msgs && phase.applied == applied
        invariant phase.drain == old(phase.drain) && phase.next == old(phase.next)
        invariant ApplyRest(w, View()) == ApplyRest(w, old(View()))
      {
        var ok := Apply(w, msgs[k]);
        if ok {
          applied := applied + [msgs[k]];
        }
      }
      if applied != [] {
        processed := processed + (set i | i in applied);
        pendingAck := pendingAck + applied;
      }
      phase := if phase.drain then Draining(phase.next) else Reading;
    }

    method DrainPel(w: Stream, batchCount: nat, stopAfter: nat)
      requires phase == Draining(0) && delivered <= |w| && batchCount > 0
      modifies this
      ensures View() == DrainDone(w, old(View()), batchCount, stopAfter)
    {
      hide BatchDone, ApplyRest;
      var lastId: nat := 0;
      var pages := 0;
      while pages < stopAfter
        invariant pages <= stopAfter && phase == Draining(lastId) && delivered <= |w|
        invariant DrainDone(w, View(), batchCount, stopAfter - pages) ==
                    DrainDone(w, old(View()), batchCount, stopAfter)
      {
        var msgs := PelPage(acked, lastId, delivered, batchCount);
        if msgs == [] {
          phase := Reading;
          return;
        }
        phase := Applying(msgs, 0, [], msgs[|msgs| - 1] + 1, true);
        BatchDoneFrame(w, View());
        ProcessBatch(w, msgs);
        lastId := msgs[|msgs| - 1] + 1;
        pages := pages + 1;
      }
    }

    /** Snapshot, flush, acknowledge the snapshot, trim it; on a failed flush keep everything. */
    method FlushAndAck(flush: Flush)
      requires LegalFlush(View(), flush)
      modifies this
      ensures View() == FlushDone(old(View()), flush)
      ensures flush.ok ==> acked == old(acked) + Elems(old(pendingAck)) && pendingAck == []
      ensures !flush.ok ==> acked == old(acked) && pendingAck == old(pendingAck)
      ensures old(pendingAck) == [] ==> disk == old(disk) && buffered == old(buffered)
      ensures old(pendingAck) != [] ==>
                disk == old(disk) + flush.wrote + flush.restored && buffered == old(buffered) - flush.wrote
      ensures delivered == old(delivered) && processed == old(processed) && segments == old(segments)
      ensures inserted == old(inserted) && phase == old(phase)
    {
      var snapshot := pendingAck;
      if snapshot == [] {
        return;
      }
      disk := disk + flush.wrote + flush.restored;
      buffered := buffered - flush.wrote;
      if !flush.ok {
        return;
      }
      acked := acked + (set i | i in snapshot);
      pendingAck := TrimPending(pendingAck, |snapshot|);
    }
  }

  // ---------------------------------------------------------------------------
  // What the object does is what the state machine allows
  // ---------------------------------------------------------------------------

  /** `FlushAndAck` is a flush, its XACK and its trim, called by the flush task from the main
      loop or by `run` itself from the pause or on the way out. */
  lemma FlushReached(w: Stream, o: State, s: State, flush: Flush, byMain: bool)
    requires Onward(w, o, s) && LegalFlush(s, flush) && s.task.NoFlight? && s.main.NoFlight?
    requires if byMain then s.phase.Parked? || s.phase.Stopping? else InMainLoop(s.phase)
    ensures Onward(w, o, FlushDone(s, flush))
  {
    hide Onward;
    if s.pending != [] {
      var ev := if byMain then MainFlush(flush) else TaskFlush(flush);
      Step(w, o, s, ev);
      var t := Next(w, s, ev);
      if flush.ok {
        Step(w, o, t, Xack(byMain));
        t := Next(w, t, Xack(byMain));
        Step(w, o, t, Trim(byMain));
        t := Next(w, t, Trim(byMain));
        assert s.pending[|s.pending|..] == [];
      }
      assert t == FlushDone(s, flush);
    }
  }

  lemma {:induction false} DrainReached(w: Stream, o: State, s: State, count: nat, pages: nat)
    requires Onward(w, o, s) && s.phase.Draining? && s.delivered <= |w| && count > 0
    ensures Onward(w, o, DrainDone(w, s, count, pages))
    decreases pages
  {
    hide Onward, BatchDone, PelPage;
    if pages > 0 {
      Step(w, o, s, ReadPel(count));
      var t := Next(w, s, ReadPel(count));
      if t.phase.Applying? {
        BatchDoneReached(w, o, t);
        assert BatchDone(w, t).phase.Draining? && BatchDone(w, t).delivered == s.delivered by {
          BatchDoneFrame(w, t);
        }
        DrainReached(w, o, BatchDone(w, t), count, pages - 1);
      }
    }
  }

  lemma {:induction false} DrainFinishes(w: Stream, s: State, count: nat, pages: nat)
    requires s.phase.Draining? && s.delivered <= |w| && count > 0 && pages + s.phase.from > s.delivered
    ensures DrainDone(w, s, count, pages).phase.Reading? || s.phase.from > s.delivered
    ensures DrainDone(w, s, count, pages).delivered == s.delivered
    decreases pages
  {
    hide BatchDone;
    if pages > 0 {
      var ids := PelPage(s.acked, s.phase.from, s.delivered, count);
      if ids != [] {
        var t := s.(phase := Applying(ids, 0, [], ids[|ids| - 1] + 1, true));
        BatchDoneFrame(w, t);
        DrainFinishes(w, BatchDone(w, t), count, pages - 1);
      }
    }
  }

  /** A restart on a stream without stale messages: whatever run came before, a drain that
      is not stopped early leaves the online map equal to the fold of every delivery. */
  lemma RestartConverges(w: Stream, m0: Online, s: State, count: nat, pages: nat)
    requires Reached(w, m0, s) && NeverStale(w) && s.phase.Down? && RetryGuard(w, s)
    requires count > 0 && pages > s.delivered
    ensures s.delivered <= |w|
    ensures var t := DrainDone(w, s.(phase := Draining(0)), count, pages);
            t.phase.Reading? && t.online == Fold(w, m0, s.delivered)
  {
    hide Onward, DrainDone, NeverStale, RetryGuard, Fold, OnlineInv;
    ReachedOk(w, m0, s);
    Step(w, Initial(m0), s, Start);
    var u := s.(phase := Draining(0));
    DrainReached(w, Initial(m0), u, count, pages);
    DrainFinishes(w, u, count, pages);
    var t := DrainDone(w, u, count, pages);
    ReachedUpToDate(w, m0, t);
  }
}
