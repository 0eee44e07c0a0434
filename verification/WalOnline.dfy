/** The online map of the WAL consumer: what a run leaves in it, against the
    last-writer-wins fold of the deliveries. */
module WalOnline {
  import opened Bytes
  import opened Wal
  import opened WalOrder

  // ---------------------------------------------------------------------------
  // The last-writer-wins reference
  // ---------------------------------------------------------------------------

  predicate Touches(w: Stream, i: nat, key: Key)
    requires i < |w|
  {
    w[i].key == key && !w[i].outcome.Rejected?
  }

  /** The first `n` messages folded in order, the last writer winning. */
  function Fold(w: Stream, m0: Online, n: nat): Online
    requires n <= |w|
  {
    if n == 0 then m0
    else if w[n - 1].outcome.Rejected? then Fold(w, m0, n - 1)
    else Fold(w, m0, n - 1)[w[n - 1].key := w[n - 1].row]
  }

  /** No later message below `d` writes the key of message `i`. */
  ghost predicate IsLast(w: Stream, d: nat, i: nat)
    requires d <= |w|
  {
    i < d && !w[i].outcome.Rejected? && NoneWithin(w, w[i].key, i + 1, d)
  }

  ghost predicate NoneWithin(w: Stream, key: Key, lo: nat, hi: nat)
    requires hi <= |w|
  {
    forall j {:trigger Touches(w, j, key)} :: lo <= j < hi ==> !Touches(w, j, key)
  }

  lemma {:induction false} FoldLast(w: Stream, m0: Online, n: nat, i: nat)
    requires n <= |w| && IsLast(w, n, i)
    ensures w[i].key in Fold(w, m0, n) && Fold(w, m0, n)[w[i].key] == w[i].row
    decreases n
  {
    if i < n - 1 {
      assert !Touches(w, n - 1, w[i].key);
      FoldLast(w, m0, n - 1, i);
    }
  }

  lemma {:induction false} FoldUntouched(w: Stream, m0: Online, n: nat, key: Key)
    requires n <= |w| && NoneWithin(w, key, 0, n)
    ensures key in Fold(w, m0, n) <==> key in m0
    ensures key in m0 ==> Fold(w, m0, n)[key] == m0[key]
    decreases n
  {
    if n > 0 {
      assert !Touches(w, n - 1, key);
      FoldUntouched(w, m0, n - 1, key);
    }
  }

  /** Every key is untouched or has a last writer. */
  lemma {:induction false} LastWriter(w: Stream, n: nat, key: Key) returns (i: nat)
    requires n <= |w|
    ensures i <= n
    ensures i == n ==> NoneWithin(w, key, 0, n)
    ensures i < n ==> IsLast(w, n, i) && w[i].key == key
    decreases n
  {
    if n == 0 {
      i := 0;
    } else if Touches(w, n - 1, key) {
      i := n - 1;
    } else {
      i := LastWriter(w, n - 1, key);
      if i == n - 1 {
        i := n;
      }
    }
  }

  /** The messages from `lo` to `hi` folded over a map. */
  function Replay(w: Stream, m: Online, lo: nat, hi: nat): Online
    requires lo <= hi <= |w|
    decreases hi
  {
    if lo == hi then m
    else if w[hi - 1].outcome.Rejected? then Replay(w, m, lo, hi - 1)
    else Replay(w, m, lo, hi - 1)[w[hi - 1].key := w[hi - 1].row]
  }

  lemma {:induction false} ReplayFold(w: Stream, m0: Online, lo: nat, hi: nat)
    requires lo <= hi <= |w|
    ensures Replay(w, Fold(w, m0, lo), lo, hi) == Fold(w, m0, hi)
    decreases hi
  {
    if lo < hi {
      ReplayFold(w, m0, lo, hi - 1);
    }
  }

  // ---------------------------------------------------------------------------
  // Orderly runs
  // ---------------------------------------------------------------------------

  /** Messages for one key with different rows, and no half-applied one for it in between. */
  ghost predicate Overtakes(w: Stream, i: nat, k: nat)
  {
    && i < k < |w| && w[i].key == w[k].key && w[i].row != w[k].row
    && forall j {:trigger w[j]} :: i < j < k && w[j].key == w[i].key ==> !w[j].outcome.HalfApplied?
  }

  /** Applying `i` again would leave its row over the newer one of `k`, the key's last writer. */
  ghost predicate Rewrites(w: Stream, d: nat, i: nat, k: nat)
    requires d <= |w|
  {
    Overtakes(w, i, k) && Good(w, i) && Good(w, k) && IsLast(w, d, k)
  }

  /** From `pos` on, no unacknowledged id of the pending list is applied again under the
      newer row of another. */
  ghost predicate NoRewrite(w: Stream, d: nat, acked: set<nat>, pending: seq<nat>, pos: nat)
    requires d <= |w|
  {
    forall i: nat, k: nat {:trigger Rewrites(w, d, i, k)} ::
      pos <= i && i in pending && i !in acked && k in pending ==> !Rewrites(w, d, i, k)
  }

  /** The upgrade left the rows as they were, and a torn write is of a row that is stored. */
  predicate Honest(w: Stream, s: State, ev: Event)
  {
    match ev
    case Unpark(reopened) => reopened == s.online
    case Crash(_, torn) => torn.Torn? && AtMessage(w, s) ==> !w[s.phase.ids[s.phase.k]].outcome.Rejected?
    case _ => Faithful(w, s, ev)
  }

  /** A `run()` begun with ids still in `_pending_ack`: the drain must not overtake them. */
  ghost predicate RetryGuard(w: Stream, s: State)
  {
    s.delivered <= |w| ==> NoRewrite(w, s.delivered, s.acked, s.pending, 0)
  }

  /** The messages a pause drops would change nothing. */
  ghost predicate QuietPause(w: Stream, s: State, count: nat)
  {
    s.delivered <= ReadTo(w, s, count) ==> Replay(w, s.online, s.delivered, ReadTo(w, s, count)) == s.online
  }

  ghost predicate OnlineGuard(w: Stream, s: State, ev: Event)
  {
    match ev
    case Start => RetryGuard(w, s)
    case ReadNew(count, paused) => paused ==> QuietPause(w, s, count)
    case _ => true
  }

  ghost predicate Orderly(w: Stream, s: State, ev: Event)
  {
    Honest(w, s, ev) && Guard(w, s, ev) && OnlineGuard(w, s, ev)
  }

  ghost predicate OrderlyRun(w: Stream, s: State, evs: seq<Event>)
    decreases |evs|
  {
    evs == [] || (Enabled(w, s, evs[0]) && Orderly(w, s, evs[0]) && OrderlyRun(w, Next(w, s, evs[0]), evs[1..]))
  }

  lemma {:induction false} OrderlyIsOrdered(w: Stream, s: State, evs: seq<Event>)
    requires OrderlyRun(w, s, evs)
    ensures OrderedRun(w, s, evs)
    decreases |evs|
  {
    hide Next, Enabled, Guard, OnlineGuard;
    if evs != [] {
      OrderlyIsOrdered(w, Next(w, s, evs[0]), evs[1..]);
    }
  }

  // ---------------------------------------------------------------------------
  // The online map
  // ---------------------------------------------------------------------------

  /** No delivery at or after `pos`, other than those `taken`, will write `key` in this pass. */
  ghost predicate NoneWaiting(w: Stream, d: nat, taken: set<nat>, pos: nat, key: Key)
    requires d <= |w|
  {
    forall i: nat {:trigger Touches(w, i, key)} :: pos <= i < d && Touches(w, i, key) ==> i in taken
  }

  ghost predicate Holds(w: Stream, online: Online, i: nat)
    requires i < |w|
  {
    w[i].key in online && online[w[i].key] == w[i].row
  }

  /** Every key whose last writer has been handled, with nothing left to write it, has its
      last writer's row. `taken` are the acknowledged and the pending ids. */
  ghost predicate Settled(w: Stream, d: nat, taken: set<nat>, online: Online, pos: nat)
    requires d <= |w|
  {
    forall i: nat {:trigger IsLast(w, d, i)} ::
      IsLast(w, d, i) && (i in taken || i < pos) && NoneWaiting(w, d, taken, pos, w[i].key) ==> Holds(w, online, i)
  }

  ghost predicate Untouched(w: Stream, m0: Online, d: nat, online: Online)
    requires d <= |w|
  {
    forall key {:trigger NoneWithin(w, key, 0, d)} ::
      NoneWithin(w, key, 0, d) ==> (key in online <==> key in m0) && (key in m0 ==> online[key] == m0[key])
  }

  ghost function Taken(s: State): set<nat>
  {
    s.acked + Elems(s.pending)
  }

  ghost predicate OnlineInv(w: Stream, m0: Online, s: State)
  {
    && s.delivered <= |w|
    && Settled(w, s.delivered, Taken(s), s.online, Pos(s.phase, s.delivered))
    && Untouched(w, m0, s.delivered, s.online)
    && (InPass(s.phase) ==> NoRewrite(w, s.delivered, s.acked, s.pending, Pos(s.phase, s.delivered)))
  }

  /** A half-applied message is followed by an applied one with another row for the same
      key, and no half-applied message for that key comes between them. */
  ghost predicate Stale(w: Stream, i: nat, k: nat)
  {
    Overtakes(w, i, k) && w[i].outcome.HalfApplied? && w[k].outcome.Applied?
  }

  ghost predicate NeverStale(w: Stream)
  {
    forall i, k :: !Stale(w, i, k)
  }

  // ---------------------------------------------------------------------------
  // Settled keys
  // ---------------------------------------------------------------------------

  lemma SettleMove(w: Stream, d: nat, taken: set<nat>, online: Online, pos: nat, to: nat)
    requires d <= |w| && Settled(w, d, taken, online, pos)
    requires to <= pos || forall i {:trigger i in taken} :: pos <= i < to ==> i in taken
    ensures Settled(w, d, taken, online, to)
  {
    forall i: nat | IsLast(w, d, i) && (i in taken || i < to) && NoneWaiting(w, d, taken, to, w[i].key)
      ensures Holds(w, online, i)
    {
      assert NoneWaiting(w, d, taken, pos, w[i].key);
    }
  }

  lemma SettleLess(w: Stream, d: nat, taken: set<nat>, online: Online, pos: nat, less: set<nat>)
    requires d <= |w| && Settled(w, d, taken, online, pos) && less <= taken
    ensures Settled(w, d, less, online, pos)
  {
    forall i: nat | IsLast(w, d, i) && (i in less || i < pos) && NoneWaiting(w, d, less, pos, w[i].key)
      ensures Holds(w, online, i)
    {
      assert NoneWaiting(w, d, taken, pos, w[i].key);
    }
  }

  lemma SettleMore(w: Stream, d: nat, taken: set<nat>, online: Online, pos: nat, more: set<nat>)
    requires d <= |w| && Settled(w, d, taken, online, pos)
    requires forall i {:trigger i in more} :: i in more ==> i in taken || i < pos
    ensures Settled(w, d, more + taken, online, pos)
  {
    forall i: nat | IsLast(w, d, i) && (i in more + taken || i < pos) && NoneWaiting(w, d, more + taken, pos, w[i].key)
      ensures Holds(w, online, i)
    {
      assert NoneWaiting(w, d, taken, pos, w[i].key);
    }
  }

  lemma SettleGrow(w: Stream, d: nat, more: nat, taken: set<nat>, online: Online)
    requires d <= more <= |w| && Settled(w, d, taken, online, d)
    requires forall i {:trigger i in taken} :: i in taken ==> i < d
    ensures Settled(w, more, taken, online, d)
  {
    forall i: nat | IsLast(w, more, i) && (i in taken || i < d) && NoneWaiting(w, more, taken, d, w[i].key)
      ensures Holds(w, online, i)
    {
      assert IsLast(w, d, i);
      assert NoneWaiting(w, d, taken, d, w[i].key);
    }
  }

  /** The last writer of a key, taken before `i` is applied again, has the row of `i`. */
  lemma SameRow(w: Stream, d: nat, acked: set<nat>, pending: seq<nat>, i: nat, to: nat, l: nat)
    requires d <= |w| && i < to <= d && AckOrder(w, d, acked, pending) && NeverStale(w)
    requires NoRewrite(w, d, acked, pending, i)
    requires i !in acked && !w[i].outcome.Rejected?
    requires forall j {:trigger j in acked} :: i < j < to ==> j in acked
    requires IsLast(w, d, l) && w[l].key == w[i].key && i < l && l in acked + Elems(pending)
    requires NoneWaiting(w, d, acked + Elems(pending), to, w[l].key)
    ensures w[i].row == w[l].row
  {
    assert Good(w, l);
    forall j | i < j < l && w[j].key == w[i].key
      ensures !w[j].outcome.HalfApplied?
    {
      assert Touches(w, j, w[l].key) ==> j in acked + Elems(pending);
    }
    if w[i].outcome.HalfApplied? {
      assert !Stale(w, i, l);
    } else {
      assert Good(w, i);
      assert i in pending && i !in acked;
      assert l in pending by {
        assert l in acked ==> i in acked;
      }
      assert !Rewrites(w, d, i, l);
    }
  }

  lemma SettleApply(w: Stream, d: nat, acked: set<nat>, pending: seq<nat>, online: Online, i: nat, to: nat)
    requires d <= |w| && i < to <= d && AckOrder(w, d, acked, pending) && NeverStale(w)
    requires NoRewrite(w, d, acked, pending, i)
    requires Settled(w, d, acked + Elems(pending), online, i) && i !in acked
    requires forall j {:trigger j in acked} :: i < j < to ==> j in acked
    ensures var now := if w[i].outcome.Rejected? then online else online[w[i].key := w[i].row];
            Settled(w, d, acked + Elems(pending), now, to)
  {
    var taken := acked + Elems(pending);
    var now := if w[i].outcome.Rejected? then online else online[w[i].key := w[i].row];
    forall l: nat | IsLast(w, d, l) && (l in taken || l < to) && NoneWaiting(w, d, taken, to, w[l].key)
      ensures Holds(w, now, l)
    {
      if w[l].key == w[i].key && !w[i].outcome.Rejected? {
        assert Touches(w, i, w[l].key);
        if l != i {
          assert i < l && l in taken;
          SameRow(w, d, acked, pending, i, to, l);
        }
      } else {
        assert l != i;
        assert NoneWaiting(w, d, taken, i, w[l].key) by {
          assert !Touches(w, i, w[l].key);
        }
      }
    }
  }

  lemma UntouchedWrite(w: Stream, m0: Online, d: nat, online: Online, i: nat, row: Buffer)
    requires d <= |w| && i < d && !w[i].outcome.Rejected? && Untouched(w, m0, d, online)
    ensures Untouched(w, m0, d, online[w[i].key := row])
  {
    assert Touches(w, i, w[i].key);
  }

  lemma UntouchedGrow(w: Stream, m0: Online, d: nat, more: nat, online: Online)
    requires d <= more <= |w| && Untouched(w, m0, d, online)
    ensures Untouched(w, m0, more, online)
  {
    forall key | NoneWithin(w, key, 0, more)
      ensures (key in online <==> key in m0) && (key in m0 ==> online[key] == m0[key])
    {
      assert NoneWithin(w, key, 0, d);
    }
  }

  lemma SettleTorn(w: Stream, d: nat, acked: set<nat>, online: Online, pos: nat, i: nat, row: Buffer)
    requires d <= |w| && i < d && i !in acked && !w[i].outcome.Rejected? && Settled(w, d, acked, online, pos)
    ensures Settled(w, d, acked, online[w[i].key := row], 0)
  {
    SettleMove(w, d, acked, online, pos, 0);
    forall l: nat | IsLast(w, d, l) && l in acked && NoneWaiting(w, d, acked, 0, w[l].key)
      ensures Holds(w, online[w[i].key := row], l)
    {
      if w[l].key == w[i].key {
        assert Touches(w, i, w[l].key);
        assert false;
      }
    }
  }

  /** A map that is the fold is settled and leaves the untouched keys alone. */
  lemma FoldSettled(w: Stream, m0: Online, d: nat, taken: set<nat>)
    requires d <= |w|
    ensures Settled(w, d, taken, Fold(w, m0, d), d) && Untouched(w, m0, d, Fold(w, m0, d))
  {
    hide Fold;
    forall i: nat | IsLast(w, d, i)
      ensures Holds(w, Fold(w, m0, d), i)
    {
      FoldLast(w, m0, d, i);
    }
    forall key | NoneWithin(w, key, 0, d)
      ensures (key in Fold(w, m0, d) <==> key in m0) && (key in m0 ==> Fold(w, m0, d)[key] == m0[key])
    {
      FoldUntouched(w, m0, d, key);
    }
    hide NoneWithin, IsLast, Holds;
  }

  // ---------------------------------------------------------------------------
  // A pass that has caught up
  // ---------------------------------------------------------------------------

  /** A pass that has caught up: online is the last-writer-wins fold of every delivery. */
  lemma CaughtUpIsFold(w: Stream, m0: Online, s: State)
    requires OnlineInv(w, m0, s) && s.phase.Reading?
    ensures s.delivered <= |w| && s.online == Fold(w, m0, s.delivered)
  {
    hide Settled, Untouched, IsLast, Fold, NoRewrite;
    forall key
      ensures key in s.online <==> key in Fold(w, m0, s.delivered)
      ensures key in s.online ==> s.online[key] == Fold(w, m0, s.delivered)[key]
    {
      CaughtUpAt(w, m0, s, key);
    }
  }

  lemma CaughtUpAt(w: Stream, m0: Online, s: State, key: Key)
    requires OnlineInv(w, m0, s) && s.phase.Reading?
    ensures key in s.online <==> key in Fold(w, m0, s.delivered)
    ensures key in s.online ==> s.online[key] == Fold(w, m0, s.delivered)[key]
  {
    hide Fold, NoRewrite;
    var i := LastWriter(w, s.delivered, key);
    if i == s.delivered {
      FoldUntouched(w, m0, s.delivered, key);
    } else {
      FoldLast(w, m0, s.delivered, i);
      assert NoneWaiting(w, s.delivered, Taken(s), s.delivered, w[i].key);
      assert Holds(w, s.online, i);
    }
  }

  // ---------------------------------------------------------------------------
  // Steps and runs
  // ---------------------------------------------------------------------------

  lemma TakenInOrder(w: Stream, s: State)
    requires OrderInv(w, s)
    ensures AckOrder(w, s.delivered, s.acked, s.pending)
    ensures forall i {:trigger i in Taken(s)} :: i in Taken(s) ==> i < s.delivered
    ensures forall i {:trigger i in s.pending} :: i in s.pending ==> i < s.delivered
  {
    assert forall i {:trigger i in s.pending} :: i in s.pending ==> i in Taken(s);
  }

  /** Nothing pending is at or after the place of the pass, so nothing can be rewritten. */
  lemma NoneRewritten(w: Stream, d: nat, acked: set<nat>, pending: seq<nat>, pos: nat)
    requires d <= |w| && forall i {:trigger i in pending} :: i in pending ==> i < pos
    ensures NoRewrite(w, d, acked, pending, pos)
  {
  }

  lemma NoRewriteOn(w: Stream, d: nat, acked: set<nat>, pending: seq<nat>, pos: nat, more: seq<nat>)
    requires d <= |w| && NoRewrite(w, d, acked, pending, pos)
    requires forall i {:trigger i in more} :: i in more && pos <= i ==> i in pending
    ensures NoRewrite(w, d, acked, more, pos)
  {
    hide IsLast;
    forall i: nat, k: nat | pos <= i && i in more && i !in acked && k in more
      ensures !Rewrites(w, d, i, k)
    {
      if i < k {
        assert !Rewrites(w, d, i, k);
      }
    }
  }

  lemma OnlineApply(w: Stream, m0: Online, s: State, outcome: Outcome)
    requires OrderInv(w, s) && OnlineInv(w, m0, s) && NeverStale(w)
    requires Enabled(w, s, Apply(outcome)) && Faithful(w, s, Apply(outcome))
    ensures OnlineInv(w, m0, Next(w, s, Apply(outcome)))
  {
    hide Settled, Untouched, AckOrder, NeverStale, FlightsOk, Spent, Rewrites;
    var i := s.phase.ids[s.phase.k];
    var t := Next(w, s, Apply(outcome));
    SkippedAreAcked(w, s.delivered, s.acked, s.phase);
    SettleApply(w, s.delivered, s.acked, s.pending, s.online, i, Pos(t.phase, t.delivered));
    if !w[i].outcome.Rejected? {
      UntouchedWrite(w, m0, s.delivered, s.online, i, w[i].row);
    }
  }

  lemma OnlineReadPel(w: Stream, m0: Online, s: State, count: nat)
    requires OrderInv(w, s) && OnlineInv(w, m0, s) && Enabled(w, s, ReadPel(count))
    ensures OnlineInv(w, m0, Next(w, s, ReadPel(count)))
  {
    assert s.phase.from <= s.delivered;
    hide Settled, Untouched, AckOrder, PelPage, FlightsOk, PassOk, Rewrites;
    var t := Next(w, s, ReadPel(count));
    var ids := PelPage(s.acked, s.phase.from, s.delivered, count);
    PelPageOk(s.acked, s.phase.from, s.delivered, count);
    forall i | s.phase.from <= i < Pos(t.phase, t.delivered)
      ensures i in Taken(s)
    {
      if ids != [] {
        assert i !in ids;
      }
    }
    SettleMove(w, s.delivered, Taken(s), s.online, s.phase.from, Pos(t.phase, t.delivered));
  }

  lemma OnlineReadNew(w: Stream, m0: Online, s: State, count: nat)
    requires OrderInv(w, s) && OnlineInv(w, m0, s) && Enabled(w, s, ReadNew(count, false))
    ensures OnlineInv(w, m0, Next(w, s, ReadNew(count, false)))
  {
    hide Settled, Untouched, AckOrder, FlightsOk, PassOk, NoRewrite;
    var t := Next(w, s, ReadNew(count, false));
    TakenInOrder(w, s);
    SettleGrow(w, s.delivered, t.delivered, Taken(s), s.online);
    UntouchedGrow(w, m0, s.delivered, t.delivered, s.online);
    NoneRewritten(w, t.delivered, s.acked, s.pending, s.delivered);
  }

  lemma OnlinePause(w: Stream, m0: Online, s: State, count: nat)
    requires OrderInv(w, s) && OnlineInv(w, m0, s) && Enabled(w, s, ReadNew(count, true)) && QuietPause(w, s, count)
    ensures OnlineInv(w, m0, Next(w, s, ReadNew(count, true)))
  {
    hide Settled, Untouched, AckOrder, FlightsOk, PassOk, NoRewrite, Fold, Replay;
    var t := Next(w, s, ReadNew(count, true));
    TakenInOrder(w, s);
    CaughtUpIsFold(w, m0, s);
    if s.delivered <= ReadTo(w, s, count) {
      ReplayFold(w, m0, s.delivered, ReadTo(w, s, count));
    }
    FoldSettled(w, m0, t.delivered, Taken(s));
    NoneRewritten(w, t.delivered, s.acked, s.pending, t.delivered);
  }

  lemma OnlineFinish(w: Stream, m0: Online, s: State)
    requires OrderInv(w, s) && OnlineInv(w, m0, s) && Enabled(w, s, FinishBatch)
    ensures OnlineInv(w, m0, Next(w, s, FinishBatch))
  {
    hide Settled, Untouched, AckOrder, FlightsOk, Covered, Rewrites;
    var t := Next(w, s, FinishBatch);
    var pos := Pos(s.phase, s.delivered);
    assert pos == Pos(t.phase, t.delivered);
    SettleMore(w, s.delivered, Taken(s), s.online, pos, Elems(s.phase.applied));
    assert Taken(t) == Elems(s.phase.applied) + Taken(s);
    assert forall i {:trigger i in t.pending} :: i in t.pending && pos <= i ==> i in s.pending;
    NoRewriteOn(w, s.delivered, s.acked, s.pending, pos, t.pending);
  }

  lemma OnlineXack(w: Stream, m0: Online, s: State, m: bool)
    requires OrderInv(w, s) && OnlineInv(w, m0, s) && Enabled(w, s, Xack(m))
    ensures OnlineInv(w, m0, Next(w, s, Xack(m)))
  {
    hide Settled, Untouched, PrefixOfGood, PassOk, TrimCovers, Whole, Spent;
    assert Taken(Next(w, s, Xack(m))) == Taken(s);
  }

  lemma OnlineTrim(w: Stream, m0: Online, s: State, m: bool)
    requires OrderInv(w, s) && OnlineInv(w, m0, s) && Enabled(w, s, Trim(m))
    ensures OnlineInv(w, m0, Next(w, s, Trim(m)))
  {
    hide Settled, Untouched, PrefixOfGood, PassOk, TrimCovers, Whole, Spent, TrimPending;
    TrimKeeps(w, s.delivered, s.acked, s.pending, FlightOf(s, m));
  }

  lemma OnlineCrash(w: Stream, m0: Online, s: State, ev: Event)
    requires OrderInv(w, s) && OnlineInv(w, m0, s)
    requires ev.Crash? && Enabled(w, s, ev) && Honest(w, s, ev)
    ensures OnlineInv(w, m0, Next(w, s, ev))
  {
    hide Settled, Untouched, AckOrder, FlightsOk, NoRewrite, Spent;
    var pos := Pos(s.phase, s.delivered);
    SettleLess(w, s.delivered, Taken(s), s.online, pos, s.acked);
    SettleMove(w, s.delivered, s.acked, s.online, pos, 0);
    assert s.acked + Elems([]) == s.acked;
    if ev.torn.Torn? {
      var i := s.phase.ids[s.phase.k];
      SettleTorn(w, s.delivered, s.acked, s.online, pos, i, ev.torn.value);
      UntouchedWrite(w, m0, s.delivered, s.online, i, ev.torn.value);
    }
  }

  lemma OnlineRest(w: Stream, m0: Online, s: State, ev: Event)
    requires OnlineInv(w, m0, s) && Enabled(w, s, ev) && Honest(w, s, ev) && OnlineGuard(w, s, ev)
    requires ev.Start? || ev.SetKeys? || ev.TaskFlush? || ev.MainFlush? || ev.Drop? || ev.Unpark? || ev.Stop?
               || ev.Close? || ev.Exit?
    ensures OnlineInv(w, m0, Next(w, s, ev))
  {
    hide Settled, Untouched, NoRewrite;
    if ev.Exit? {
      SettleMove(w, s.delivered, Taken(s), s.online, Pos(s.phase, s.delivered), 0);
    }
  }

  lemma OnlineStep(w: Stream, m0: Online, s: State, ev: Event)
    requires OrderInv(w, s) && OnlineInv(w, m0, s) && NeverStale(w)
    requires Enabled(w, s, ev) && Orderly(w, s, ev)
    ensures OnlineInv(w, m0, Next(w, s, ev))
  {
    hide OrderInv, OnlineInv, Next, NeverStale, QuietPause;
    match ev {
      case Apply(outcome) => OnlineApply(w, m0, s, outcome);
      case ReadPel(count) => OnlineReadPel(w, m0, s, count);
      case ReadNew(count, paused) =>
        if paused {
          OnlinePause(w, m0, s, count);
        } else {
          OnlineReadNew(w, m0, s, count);
        }
      case FinishBatch => OnlineFinish(w, m0, s);
      case Xack(m) => OnlineXack(w, m0, s, m);
      case Trim(m) => OnlineTrim(w, m0, s, m);
      case Crash(_, _) => OnlineCrash(w, m0, s, ev);
      case _ => OnlineRest(w, m0, s, ev);
    }
  }

  lemma {:induction false} OnlineRun(w: Stream, m0: Online, s: State, evs: seq<Event>)
    requires OrderInv(w, s) && OnlineInv(w, m0, s) && NeverStale(w) && OrderlyRun(w, s, evs)
    ensures Legal(w, s, evs) && OrderInv(w, Exec(w, s, evs)) && OnlineInv(w, m0, Exec(w, s, evs))
    decreases |evs|
  {
    hide OrderInv, OnlineInv, NeverStale, Next, Enabled, Guard, OnlineGuard;
    if evs != [] {
      OrderStep(w, s, evs[0]);
      OnlineStep(w, m0, s, evs[0]);
      OnlineRun(w, m0, Next(w, s, evs[0]), evs[1..]);
    }
  }

  lemma InitialOnline(w: Stream, m0: Online)
    ensures OnlineInv(w, m0, Initial(m0))
  {
  }
}
