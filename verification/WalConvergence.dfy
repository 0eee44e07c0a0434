/** When the online store converges: exactly on the streams in which no half-applied
    message is left behind a newer row for its key. */
module WalConvergence {
  import opened Bytes
  import opened Wal
  import opened WalOrder
  import opened WalOnline
  import opened WalRuns

  /** A pass that has caught up holds the last-writer-wins fold. */
  ghost predicate UpToDate(w: Stream, m0: Online, s: State)
  {
    s.phase.Reading? && s.delivered <= |w| ==> s.online == Fold(w, m0, s.delivered)
  }

  /** Every orderly run leaves a caught-up pass with the fold. */
  ghost predicate Converges(w: Stream, m0: Online)
  {
    forall s {:trigger Reached(w, m0, s)} :: Reached(w, m0, s) ==> UpToDate(w, m0, s)
  }

  // ---------------------------------------------------------------------------
  // The run that goes stale
  // ---------------------------------------------------------------------------

  /** The first `n` messages delivered, applied, flushed and acknowledged; then the process dies. */
  lemma AllAcknowledged(w: Stream, m0: Online, n: nat) returns (s: State)
    requires 0 < n <= |w| && Good(w, n - 1)
    ensures Reached(w, m0, s) && s.phase.Down? && s.pending == []
    ensures s.delivered == n && forall i: nat :: i in s.acked <==> i < n && Good(w, i)
  {
    hide Onward, BatchDone;
    var o := Initial(m0);
    s := Boot(w, m0);
    var t, u := ReadOn(w, o, s, n);
    assert u.pending == AppliedIds(ApplyRest(w, t).phase) && u == t.(online := u.online, inserted := u.inserted,
        buffered := u.buffered, processed := u.processed, pending := u.pending, phase := Reading) by {
      BatchDoneFrame(w, t);
    }
    ApplyRestMarks(w, t);
    assert forall i: nat :: i < n && Good(w, i) ==> t.phase.ids[i] in u.pending;
    hide ApplyRest;
    s := AckAll(w, o, u);
    Step(w, o, s, Crash({}, Clean));
    s := Next(w, s, Crash({}, Clean));
    assert forall i: nat :: i < n && Good(w, i) ==> i in u.pending;
    ReachedOk(w, m0, s);
  }

  lemma UnackedAfterStale(w: Stream, i: nat, k: nat, j: nat)
    requires Stale(w, i, k) && i < j <= k && !Good(w, j)
    ensures !Touches(w, j, w[i].key)
  {
  }

  /** The drain after that crash re-applies the half-applied message over the newer row. */
  lemma StaleRun(w: Stream, m0: Online, i: nat, k: nat) returns (t: State)
    requires Stale(w, i, k)
    ensures Reached(w, m0, t) && t.phase.Reading? && t.delivered == k + 1
    ensures t.online != Fold(w, m0, k + 1)
  {
    hide Onward, ApplyRest, PelPage, BatchDone, RetryGuard, Fold;
    var s := AllAcknowledged(w, m0, k + 1);
    NothingRetained(w, s);
    t := DrainAll(w, Initial(m0), s);
    StaleRow(w, s, i, k);
    FoldLast(w, m0, k + 1, k);
  }

  lemma StaleRow(w: Stream, s: State, i: nat, k: nat)
    requires Stale(w, i, k) && s.delivered == k + 1 && InStream(w, Unacked(s))
    requires forall j: nat :: j in s.acked <==> j < k + 1 && Good(w, j)
    ensures Unacked(s) != [] && Holds(w, ApplyRest(w, DrainOf(s, Unacked(s))).online, i)
  {
    var ids := Unacked(s);
    UnackedOk(s);
    hide Unacked, ApplyRest;
    assert i in ids;
    var at :| 0 <= at < |ids| && ids[at] == i;
    forall j | at < j < |ids|
      ensures !Touches(w, ids[j], w[i].key)
    {
      assert ids[j] in ids;
      UnackedAfterStale(w, i, k, ids[j]);
    }
    ApplyRestRow(w, DrainOf(s, ids), at);
  }

  lemma ReachedUpToDate(w: Stream, m0: Online, s: State)
    requires NeverStale(w) && Reached(w, m0, s)
    ensures UpToDate(w, m0, s)
  {
    hide OnlineInv, OrderInv, NeverStale, Reached, Fold;
    ReachedOk(w, m0, s);
    if s.phase.Reading? {
      CaughtUpIsFold(w, m0, s);
    }
  }

  /** Convergence holds on a stream if and only if no half-applied message is stale there. */
  lemma ConvergesIff(w: Stream, m0: Online)
    ensures Converges(w, m0) <==> NeverStale(w)
  {
    hide Onward, OnlineInv, OrderInv;
    if NeverStale(w) {
      forall s | Reached(w, m0, s)
        ensures UpToDate(w, m0, s)
      {
        ReachedUpToDate(w, m0, s);
      }
    } else {
      var i, k :| Stale(w, i, k);
      var t := StaleRun(w, m0, i, k);
      assert !UpToDate(w, m0, t);
    }
  }

  /** The smallest such stream: a row whose event time cannot be parsed, then a good row. */
  lemma StaleExample(key: Key, m0: Online)
    ensures !Converges([Msg(key, [1], HalfApplied), Msg(key, [2], Applied)], m0)
  {
    var w := [Msg(key, [1], HalfApplied), Msg(key, [2], Applied)];
    assert Stale(w, 0, 1);
    ConvergesIff(w, m0);
  }

}
