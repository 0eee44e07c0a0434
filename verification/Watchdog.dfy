/** The watchdog's tick: counting unchanged heartbeats, cross-checking against the process
    table, cleaning up, draining, forgetting. A cleanup it issues is always one the
    lifecycle allows. */
module Watchdog {
  import opened Lifecycle
  import opened LifecycleScripts

  /** One well-formed reading of a process's heartbeat. */
  datatype Reading = Reading(createTime: Birth, wall: int)

  /** One field of the heartbeat hash as HGETALL returns it. */
  datatype RawBeat = Parsed(pid: Pid, reading: Reading) | Malformed

  datatype PidEntry = PidEntry(lastWall: int, createTime: Birth, missCount: nat)

  /** What the process table says about a pid. */
  datatype Probe = Running(createTime: Birth) | Gone | Zombie | Denied

  datatype Verdict = Dead | Alive | Unverifiable

  function CrossCheck(p: Probe, expected: Birth): Verdict
  {
    match p
    case Zombie => Unverifiable
    case Gone => Dead
    case Denied => Unverifiable
    case Running(t) => if t != expected then Dead else Alive
  }

  // ---------------------------------------------------------------------------
  // Readings over time
  // ---------------------------------------------------------------------------

  /** How many of the latest readings repeat the wall time of the one before them. */
  function Unchanged(h: seq<Reading>): (n: nat)
    ensures h != [] ==> n < |h|
  {
    if |h| >= 2 && h[|h| - 1].wall == h[|h| - 2].wall then Unchanged(h[..|h| - 1]) + 1 else 0
  }

  /** A count of `n` means the last `n + 1` readings agree, and the one before them, if any,
      differs. */
  lemma {:induction false} UnchangedMeans(h: seq<Reading>)
    requires h != []
    ensures var n := Unchanged(h);
            && (forall i :: |h| - 1 - n <= i < |h| ==> h[i].wall == h[|h| - 1].wall)
            && (n + 1 < |h| ==> h[|h| - 2 - n].wall != h[|h| - 1].wall)
  {
    if |h| >= 2 && h[|h| - 1].wall == h[|h| - 2].wall {
      var init := h[..|h| - 1];
      UnchangedMeans(init);
      forall i | |h| - 1 - Unchanged(h) <= i < |h|
        ensures h[i].wall == h[|h| - 1].wall
      {
        if i < |h| - 1 {
          assert init[i].wall == init[|init| - 1].wall;
        }
      }
    }
  }

  type Histories = map<Pid, seq<Reading>>

  function Observed(h: Histories, raw: seq<RawBeat>, self: Pid): Histories
  {
    if raw == [] then h
    else
      var was := Observed(h, raw[..|raw| - 1], self);
      match raw[|raw| - 1]
      case Malformed => was
      case Parsed(pid, reading) =>
        if pid == self then was else was[pid := (if pid in was then was[pid] else []) + [reading]]
  }

  function SeenPids(raw: seq<RawBeat>): set<Pid>
  {
    set i | 0 <= i < |raw| && raw[i].Parsed? :: raw[i].pid
  }

  function Restricted(h: Histories, keep: set<Pid>): Histories
  {
    map pid | pid in h && pid in keep :: h[pid]
  }

  predicate EntryFor(e: PidEntry, h: seq<Reading>)
  {
    && h != [] && e.lastWall == h[|h| - 1].wall && e.missCount == Unchanged(h)
    && e.createTime == h[|h| - 1 - Unchanged(h)].createTime
  }

  predicate Tracks(tracked: map<Pid, PidEntry>, h: Histories)
  {
    tracked.Keys == h.Keys && forall pid {:trigger tracked[pid]} :: pid in tracked ==> EntryFor(tracked[pid], h[pid])
  }

  lemma NextReading(e: PidEntry, h: seq<Reading>, r: Reading)
    requires EntryFor(e, h)
    ensures r.wall == e.lastWall ==> EntryFor(e.(missCount := e.missCount + 1), h + [r])
    ensures r.wall != e.lastWall ==> EntryFor(PidEntry(r.wall, r.createTime, 0), h + [r])
  {
    assert (h + [r])[..|h|] == h;
  }

  // ---------------------------------------------------------------------------
  // Cleanups
  // ---------------------------------------------------------------------------

  /** One call of the dead-process script. */
  datatype Call = Call(pid: Pid, expected: Birth, names: seq<Name>)

  function CleanedAll(k: Keys, calls: seq<Call>): Keys
  {
    if calls == [] then k
    else
      var c := calls[|calls| - 1];
      CleanedUp(CleanedAll(k, calls[..|calls| - 1]), c.pid, c.names, c.expected)
  }

  ghost predicate ListsSet(names: seq<Name>, s: set<Name>)
  {
    (forall n {:trigger n in names} {:trigger n in s} :: n in names <==> n in s)
    && forall i, j {:trigger names[i], names[j]} :: 0 <= i < j < |names| ==> names[i] != names[j]
  }

  /** Each call lists what its process held when the call was made. */
  ghost predicate ListedCalls(k: Keys, calls: seq<Call>)
  {
    forall i {:trigger calls[i]} :: 0 <= i < |calls| ==>
      ListsSet(calls[i].names, Held(CleanedAll(k, calls[..i]), calls[i].pid))
  }

  /** The process table never reports a live process as gone or as another process. */
  ghost predicate Truthful(probe: Pid -> Probe, w: World)
  {
    forall pid {:trigger pid in w.alive} :: pid in w.alive ==> probe(pid) in {Running(w.alive[pid]), Zombie, Denied}
  }

  /** A process is called dead only when no live process has that pid and create time. */
  lemma DeadIsNotAlive(probe: Pid -> Probe, w: World, pid: Pid, expected: Birth)
    requires Truthful(probe, w) && CrossCheck(probe(pid), expected).Dead?
    ensures !(pid in w.alive && w.alive[pid] == expected)
  {
  }

  /** The calls of a tick are steps of the lifecycle, so they keep its invariant. */
  lemma {:induction false} CallsAreSteps(w: World, probe: Pid -> Probe, calls: seq<Call>) returns (t: World)
    requires Inv(w) && Truthful(probe, w) && ListedCalls(w.k, calls)
    requires forall i {:trigger calls[i]} :: 0 <= i < |calls| ==>
               CrossCheck(probe(calls[i].pid), calls[i].expected).Dead?
    ensures Inv(t) && t.k == CleanedAll(w.k, calls) && t.alive == w.alive
    ensures forall h {:trigger h in t.handles} :: h in w.handles && Live(w, h) ==> h in t.handles
  {
    hide Inv, CleanedUp, Held;
    if calls == [] {
      t := w;
    } else {
      var init, c := calls[..|calls| - 1], calls[|calls| - 1];
      forall i | 0 <= i < |init|
        ensures CrossCheck(probe(init[i].pid), init[i].expected).Dead?
        ensures ListsSet(init[i].names, Held(CleanedAll(w.k, init[..i]), init[i].pid))
      {
        assert init[i] == calls[i] && init[..i] == calls[..i];
      }
      var was := CallsAreSteps(w, probe, init);
      DeadIsNotAlive(probe, was, c.pid, c.expected);
      assert ListsSet(c.names, Held(was.k, c.pid)) by {
        assert calls[|calls| - 1] == c && calls[..|calls| - 1] == init;
      }
      t := OneCall(was, c);
      forall h | h in w.handles && Live(w, h)
        ensures h in t.handles
      {
        assert h in was.handles && Live(was, h);
      }
    }
  }

  lemma OneCall(w: World, c: Call) returns (t: World)
    requires Inv(w) && ListsSet(c.names, Held(w.k, c.pid)) && !(c.pid in w.alive && w.alive[c.pid] == c.expected)
    ensures Inv(t) && t.k == CleanedUp(w.k, c.pid, c.names, c.expected) && t.alive == w.alive
    ensures forall h {:trigger h in t.handles} :: h in w.handles && Live(w, h) ==> h in t.handles
  {
    var ev := Cleanup(c.pid, c.names, c.expected);
    StepKeepsInv(w, ev);
    t := Next(w, ev);
    hide HandleCount, CleanedUp, Accounts, Pointers;
    forall h | h in w.handles && Live(w, h)
      ensures h in t.handles
    {
      assert HandleOk(w, h);
      if h.pid != c.pid && !Reused(w.k, c.pid, c.expected) {
        KeptHandle(w, c, h);
      }
    }
  }

  lemma {:induction false} GiveBackAllKeepsOthers(hs: seq<Handle>, pid: Pid, names: seq<Name>, h: Handle)
    requires h in hs && h.pid != pid
    ensures h in GiveBackAll(hs, pid, names)
  {
    if names != [] {
      GiveBackAllKeepsOthers(hs, pid, names[..|names| - 1], h);
      GiveBackKeepsOthers(GiveBackAll(hs, pid, names[..|names| - 1]), pid, names[|names| - 1], h);
    }
  }

  lemma {:induction false} GiveBackKeepsOthers(hs: seq<Handle>, pid: Pid, n: Name, h: Handle)
    requires h in hs && h.pid != pid
    ensures h in GiveBack(hs, pid, n)
  {
    var init, last := hs[..|hs| - 1], hs[|hs| - 1];
    if h != last {
      var i :| 0 <= i < |hs| && hs[i] == h;
      assert init[i] == h;
      if !(last.pid == pid && last.name == n) {
        GiveBackKeepsOthers(init, pid, n, h);
      }
    }
  }

  lemma KeptHandle(w: World, c: Call, h: Handle)
    requires h in w.handles && h.pid != c.pid
    ensures h in GiveBackAll(w.handles, c.pid, c.names)
  {
    GiveBackAllKeepsOthers(w.handles, c.pid, c.names, h);
  }

  method Members(s: set<Name>) returns (names: seq<Name>)
    ensures ListsSet(names, s)
  {
    names := [];
    var todo := s;
    while todo != {}
      invariant todo <= s && ListsSet(names, s - todo)
      decreases todo
    {
      var n :| n in todo;
      names := names + [n];
      todo := todo - {n};
    }
    assert s - todo == s;
  }

  // ---------------------------------------------------------------------------
  // The tick
  // ---------------------------------------------------------------------------

  function CalledPids(calls: seq<Call>): set<Pid>
  {
    set i | 0 <= i < |calls| :: calls[i].pid
  }

  /** At the threshold, and dead by the cross-check. */
  predicate MustClean(tracked: map<Pid, PidEntry>, threshold: nat, probe: Pid -> Probe, pid: Pid)
  {
    pid in tracked && tracked[pid].missCount >= threshold && CrossCheck(probe(pid), tracked[pid].createTime).Dead?
  }

  /** The script was called for these pids of `tracked`, once each, under their own fingerprint. */
  ghost predicate CallsFor(calls: seq<Call>, tracked: map<Pid, PidEntry>, threshold: nat, probe: Pid -> Probe)
  {
    && (forall i {:trigger calls[i]} :: 0 <= i < |calls| ==>
          MustClean(tracked, threshold, probe, calls[i].pid) && calls[i].expected == tracked[calls[i].pid].createTime)
    && (forall i, j {:trigger calls[i], calls[j]} :: 0 <= i < j < |calls| ==> calls[i].pid != calls[j].pid)
  }

  lemma AppendCall(k: Keys, calls: seq<Call>, c: Call)
    requires ListedCalls(k, calls) && ListsSet(c.names, Held(CleanedAll(k, calls), c.pid))
    ensures ListedCalls(k, calls + [c])
    ensures CleanedAll(k, calls + [c]) == CleanedUp(CleanedAll(k, calls), c.pid, c.names, c.expected)
    ensures CalledPids(calls + [c]) == CalledPids(calls) + {c.pid}
  {
    hide CleanedUp, Held;
    var more := calls + [c];
    assert more[..|calls|] == calls;
    forall i | 0 <= i < |more|
      ensures ListsSet(more[i].names, Held(CleanedAll(k, more[..i]), more[i].pid))
    {
      if i < |calls| {
        assert more[i] == calls[i] && more[..i] == calls[..i];
      }
    }
    forall pid
      ensures pid in CalledPids(more) <==> pid in CalledPids(calls) + {c.pid}
    {
      if pid in CalledPids(calls) {
        var i :| 0 <= i < |calls| && calls[i].pid == pid;
        assert more[i].pid == pid;
      }
      assert more[|calls|].pid == c.pid;
      if pid in CalledPids(more) {
        var i :| 0 <= i < |more| && more[i].pid == pid;
        assert i < |calls| ==> calls[i].pid == pid;
      }
    }
  }

  lemma ForgetEntry(tracked: map<Pid, PidEntry>, h: Histories, pid: Pid)
    requires Tracks(tracked, h)
    ensures Tracks(tracked - {pid}, h - {pid})
  {
  }

  /** The decision in terms of the readings: the last `threshold + 1` of them agree, and the
      process that wrote the first of those is dead by the cross-check. */
  predicate StaleAndDead(h: Histories, threshold: nat, probe: Pid -> Probe, pid: Pid)
  {
    && pid in h && h[pid] != [] && Unchanged(h[pid]) >= threshold
    && CrossCheck(probe(pid), h[pid][|h[pid]| - 1 - Unchanged(h[pid])].createTime).Dead?
  }

  lemma CallsMeanStale(tracked: map<Pid, PidEntry>, h: Histories, threshold: nat, probe: Pid -> Probe, calls: seq<Call>)
    requires Tracks(tracked, h) && CallsFor(calls, tracked, threshold, probe)
    requires forall pid :: MustClean(tracked, threshold, probe, pid) ==> pid in CalledPids(calls)
    ensures forall pid :: pid in CalledPids(calls) <==> StaleAndDead(h, threshold, probe, pid)
    ensures forall i {:trigger calls[i]} :: 0 <= i < |calls| ==>
              CrossCheck(probe(calls[i].pid), calls[i].expected).Dead?
  {
    hide CrossCheck, Unchanged;
    forall pid
      ensures MustClean(tracked, threshold, probe, pid) <==> StaleAndDead(h, threshold, probe, pid)
    {
      if pid in tracked {
        assert EntryFor(tracked[pid], h[pid]);
      }
    }
  }

  // ---------------------------------------------------------------------------
  // Who is cleaned up, said about the readings, the process table and the keys
  // ---------------------------------------------------------------------------

  /** From place `from` to the end the wall time has not moved, for more than `threshold`
      readings, and it is there that it last moved. */
  ghost predicate StuckSince(h: seq<Reading>, threshold: nat, from: nat)
  {
    && from + threshold < |h| && (forall i :: from <= i < |h| ==> h[i].wall == h[|h| - 1].wall)
    && (from > 0 ==> h[from - 1].wall != h[|h| - 1].wall)
  }

  /** The heartbeat has been stuck since a reading with fingerprint `c`. */
  ghost predicate NotHeardFrom(h: seq<Reading>, threshold: nat, c: Birth)
  {
    exists from {:trigger StuckSince(h, threshold, from)} ::
      0 <= from && StuckSince(h, threshold, from) && h[from].createTime == c
  }

  /** The table has no process of this pid and create time: none at all, or another one. */
  predicate NoSuchProcess(p: Probe, c: Birth)
  {
    p == Gone || (p.Running? && p.createTime != c)
  }

  ghost predicate CalledWith(calls: seq<Call>, pid: Pid, c: Birth)
  {
    exists i {:trigger calls[i]} :: 0 <= i < |calls| && calls[i].pid == pid && calls[i].expected == c
  }

  lemma StuckUnique(h: seq<Reading>, threshold: nat, from: nat)
    requires StuckSince(h, threshold, from)
    ensures from == |h| - 1 - Unchanged(h)
  {
    UnchangedMeans(h);
    hide Unchanged;
  }

  lemma StuckIff(h: seq<Reading>, threshold: nat, c: Birth)
    requires h != []
    ensures NotHeardFrom(h, threshold, c) <==>
              Unchanged(h) >= threshold && h[|h| - 1 - Unchanged(h)].createTime == c
  {
    UnchangedMeans(h);
    if from :| 0 <= from && StuckSince(h, threshold, from) && h[from].createTime == c {
      StuckUnique(h, threshold, from);
    }
    if Unchanged(h) >= threshold && h[|h| - 1 - Unchanged(h)].createTime == c {
      assert StuckSince(h, threshold, |h| - 1 - Unchanged(h));
    }
  }

  /** The script is called for exactly the pids whose heartbeat is stuck and whose process the
      table no longer has, under the fingerprint of the reading it stuck at. */
  lemma CalledIff(tracked: map<Pid, PidEntry>, h: Histories, threshold: nat, probe: Pid -> Probe, calls: seq<Call>,
                  pid: Pid, c: Birth)
    requires Tracks(tracked, h) && CallsFor(calls, tracked, threshold, probe)
    requires forall pid :: MustClean(tracked, threshold, probe, pid) ==> pid in CalledPids(calls)
    ensures CalledWith(calls, pid, c) <==>
              pid in h && NotHeardFrom(h[pid], threshold, c) && NoSuchProcess(probe(pid), c)
  {
    hide Unchanged, NotHeardFrom;
    if pid in h {
      assert EntryFor(tracked[pid], h[pid]);
      StuckIff(h[pid], threshold, c);
      assert CrossCheck(probe(pid), c).Dead? <==> NoSuchProcess(probe(pid), c);
      if MustClean(tracked, threshold, probe, pid) {
        var i :| 0 <= i < |calls| && calls[i].pid == pid;
        assert calls[i].expected == tracked[pid].createTime;
      }
    }
    if CalledWith(calls, pid, c) {
      var i :| 0 <= i < |calls| && calls[i].pid == pid && calls[i].expected == c;
      assert MustClean(tracked, threshold, probe, calls[i].pid);
    }
  }

  lemma {:induction false} ReleaseAllOwners(k: Keys, names: seq<Name>)
    ensures ReleaseAll(k, names).pidSegments == k.pidSegments && ReleaseAll(k, names).heartbeats == k.heartbeats
  {
    if names != [] {
      ReleaseAllOwners(k, names[..|names| - 1]);
    }
  }

  lemma CleanedUpOwners(k: Keys, pid: Pid, names: seq<Name>, expected: Birth)
    ensures var t := CleanedUp(k, pid, names, expected);
            if pid in k.heartbeats && k.heartbeats[pid] != expected then t == k
            else t.pidSegments == k.pidSegments - {pid} && t.heartbeats == k.heartbeats - {pid}
  {
    hide ReleaseAll;
    ReleaseAllOwners(k, names);
  }

  /** The keys have nothing of `pid` any more. */
  predicate Erased(k: Keys, pid: Pid)
  {
    pid !in k.pidSegments && pid !in k.heartbeats
  }

  predicate SameOwner(k: Keys, t: Keys, pid: Pid)
  {
    && Held(t, pid) == Held(k, pid) && (pid in t.heartbeats <==> pid in k.heartbeats)
    && (pid in k.heartbeats ==> t.heartbeats[pid] == k.heartbeats[pid])
  }

  /** What the calls leave of each pid: a called one is erased unless its heartbeat shows another
      process, and every other one is as before. */
  lemma {:induction false} CleanedAllOwners(k: Keys, calls: seq<Call>, pid: Pid)
    requires forall i, j {:trigger calls[i], calls[j]} :: 0 <= i < j < |calls| ==> calls[i].pid != calls[j].pid
    ensures var t := CleanedAll(k, calls);
            && (pid !in CalledPids(calls) ==> SameOwner(k, t, pid))
            && forall i {:trigger calls[i]} :: 0 <= i < |calls| && calls[i].pid == pid ==>
                 if pid in k.heartbeats && k.heartbeats[pid] != calls[i].expected then SameOwner(k, t, pid)
                 else Erased(t, pid)
  {
    hide CleanedUp;
    if calls != [] {
      var init, c := calls[..|calls| - 1], calls[|calls| - 1];
      CleanedAllOwners(k, init, pid);
      var was := CleanedAll(k, init);
      CleanedUpOwners(was, c.pid, c.names, c.expected);
      assert forall i {:trigger calls[i]} :: 0 <= i < |init| ==> init[i] == calls[i];
      if pid in CalledPids(init) {
        var i :| 0 <= i < |init| && init[i].pid == pid;
        assert calls[i].pid == pid && c.pid != pid;
      }
      assert c.pid in CalledPids(calls);
      assert pid !in CalledPids(calls) ==> pid !in CalledPids(init) by {
        if pid in CalledPids(init) {
          var i :| 0 <= i < |init| && init[i].pid == pid;
          assert calls[i].pid == pid;
        }
      }
    }
  }

  /** A drain followed by the unlinks of what it returned. */
  lemma DrainedAndUnlinked(w: World, names: seq<Name>) returns (t: World)
    requires Inv(w) && forall n :: n in names ==> n in w.k.queue
    requires forall i, j {:trigger names[i], names[j]} :: 0 <= i < j < |names| ==> names[i] != names[j]
    ensures Inv(t) && t.k == w.k.(queue := w.k.queue - (set n | n in names)) && t.alive == w.alive
    ensures t.handles == w.handles
    ensures forall n :: n in names ==> n in t.unlinked
  {
    var taken := set n | n in names;
    StepKeepsInv(w, Drain(taken));
    t := Next(w, Drain(taken));
    hide Inv;
    for i := 0 to |names|
      invariant Inv(t) && t.k == w.k.(queue := w.k.queue - taken) && t.alive == w.alive && t.handles == w.handles
      invariant forall j :: 0 <= j < i ==> names[j] in t.unlinked
      invariant forall j :: i <= j < |names| ==> names[j] in t.popped
    {
      StepKeepsInv(t, Unlink(names[i]));
      t := Next(t, Unlink(names[i]));
    }
  }

  lemma TickMeans(k: Keys, tracked: map<Pid, PidEntry>, h: Histories, threshold: nat, probe: Pid -> Probe,
                  calls: seq<Call>)
    requires Tracks(tracked, h) && CallsFor(calls, tracked, threshold, probe)
    requires forall pid :: MustClean(tracked, threshold, probe, pid) ==> pid in CalledPids(calls)
    ensures forall pid, c {:trigger CalledWith(calls, pid, c)} ::
              CalledWith(calls, pid, c) <==>
                pid in h && NotHeardFrom(h[pid], threshold, c) && NoSuchProcess(probe(pid), c)
    ensures forall pid, c {:trigger CalledWith(calls, pid, c)} :: CalledWith(calls, pid, c) ==>
              if pid in k.heartbeats && k.heartbeats[pid] != c then SameOwner(k, CleanedAll(k, calls), pid)
              else Erased(CleanedAll(k, calls), pid)
  {
    hide CleanedAll, Tracks, NotHeardFrom, NoSuchProcess, MustClean, SameOwner, Erased;
    forall pid, c {:trigger CalledWith(calls, pid, c)}
      ensures CalledWith(calls, pid, c) <==>
                pid in h && NotHeardFrom(h[pid], threshold, c) && NoSuchProcess(probe(pid), c)
      ensures CalledWith(calls, pid, c) ==>
                if pid in k.heartbeats && k.heartbeats[pid] != c then SameOwner(k, CleanedAll(k, calls), pid)
                else Erased(CleanedAll(k, calls), pid)
    {
      CalledIff(tracked, h, threshold, probe, calls, pid, c);
      CleanedAllOwners(k, calls, pid);
    }
  }

  lemma DrainOwners(k: Keys, t: Keys, gone: set<Name>)
    requires t == k.(queue := k.queue - gone)
    ensures forall w: Keys, pid {:trigger SameOwner(w, t, pid)} :: SameOwner(w, t, pid) <==> SameOwner(w, k, pid)
    ensures forall pid {:trigger Erased(t, pid)} :: Erased(t, pid) <==> Erased(k, pid)
  {
  }

  datatype TickResult = TickResult(calls: seq<Call>, unlinked: seq<Name>)

  class WatchdogState {
    const missThreshold: nat
    const batchDrainSize: nat
    const selfPid: Pid
    var tracked: map<Pid, PidEntry>
    ghost var histories: Histories

    ghost predicate Valid()
      reads this
    {
      Tracks(tracked, histories)
    }

    constructor (missThreshold: nat, batchDrainSize: nat, selfPid: Pid)
      ensures Valid() && histories == map[]
      ensures this.missThreshold == missThreshold && this.batchDrainSize == batchDrainSize && this.selfPid == selfPid
    {
      this.missThreshold, this.batchDrainSize, this.selfPid := missThreshold, batchDrainSize, selfPid;
      tracked, histories := map[], map[];
    }

    method Record(pid: Pid, reading: Reading)
      requires Valid()
      modifies this
      ensures Valid()
      ensures histories ==
                old(histories)[pid := (if pid in old(histories) then old(histories)[pid] else []) + [reading]]
    {
      hide EntryFor, Unchanged;
      if pid !in tracked {
        FirstReading(reading);
        tracked := tracked[pid := PidEntry(reading.wall, reading.createTime, 0)];
        histories := histories[pid := [] + [reading]];
      } else {
        var entry := tracked[pid];
        NextReading(entry, histories[pid], reading);
        histories := histories[pid := histories[pid] + [reading]];
        if entry.lastWall == reading.wall {
          tracked := tracked[pid := entry.(missCount := entry.missCount + 1)];
        } else {
          tracked := tracked[pid := PidEntry(reading.wall, reading.createTime, 0)];
        }
      }
    }

    /** Step 2: read every heartbeat into the tracking state. */
    method Observe(raw: seq<RawBeat>) returns (seen: set<Pid>)
      requires Valid()
      modifies this
      ensures Valid() && histories == Observed(old(histories), raw, selfPid) && seen == SeenPids(raw)
    {
      hide Tracks, SeenPids;
      seen := {};
      NoneSeen(raw);
      ghost var start := histories;
      for i := 0 to |raw|
        invariant Valid() && histories == Observed(start, raw[..i], selfPid) && seen == SeenPids(raw[..i])
      {
        assert raw[..i + 1][..i] == raw[..i];
        SeenMore(raw, i);
        match raw[i] {
          case Malformed =>
          case Parsed(pid, reading) =>
            seen := seen + {pid};
            if pid != selfPid {
              Record(pid, reading);
            }
        }
      }
      assert raw[..|raw|] == raw;
    }

    /** One candidate: cross-check, and on a dead verdict run the script and forget the pid. */
    method CheckOne(r: Redis, probe: Pid -> Probe, pid: Pid, calls: seq<Call>, ghost was: Point, ghost done: set<Pid>)
      returns (more: seq<Call>)
      requires Cleaning(was, missThreshold, probe, done, calls, Before(r.View(), tracked, histories))
      requires pid in was.tracked && pid !in done && was.tracked[pid].missCount >= missThreshold
      modifies this, r
      ensures Cleaning(was, missThreshold, probe, done + {pid}, more, Before(r.View(), tracked, histories))
    {
      hide Cleaning, Tracks, Held, CleanedUp, CrossCheck;
      more := calls;
      EntryKept(was, missThreshold, probe, done, calls, Before(r.View(), tracked, histories), pid);
      var entry := tracked[pid];
      var verdict := CrossCheck(probe(pid), entry.createTime);
      if verdict.Dead? {
        var names := Members(if pid in r.pidSegments then r.pidSegments[pid] else {});
        HeldIs(r, pid);
        ghost var mid := Before(r.View(), tracked, histories);
        var returned := r.CleanupDeadPid(pid, entry.createTime, names);
        CleaningCalls(was, missThreshold, probe, done, calls, mid, Call(pid, entry.createTime, names));
        more := calls + [Call(pid, entry.createTime, names)];
        tracked := tracked - {pid};
        histories := histories - {pid};
      } else {
        CleaningSkips(was, missThreshold, probe, done, calls, Before(r.View(), tracked, histories), pid);
      }
    }

    /** Step 3: cross-check every tracked pid at the threshold and clean up the dead ones.
        Exactly those pids are handed to the script, and forgotten. */
    method CleanDead(r: Redis, probe: Pid -> Probe) returns (calls: seq<Call>)
      requires Valid()
      modifies this, r
      ensures Valid() && histories == old(histories) - CalledPids(calls)
      ensures CallsFor(calls, old(tracked), missThreshold, probe)
      ensures forall pid :: MustClean(old(tracked), missThreshold, probe, pid) ==> pid in CalledPids(calls)
      ensures ListedCalls(old(r.View()), calls) && r.View() == CleanedAll(old(r.View()), calls)
    {
      hide Cleaning, Tracks, CleanedAll, ListedCalls, CallsFor, CrossCheck;
      calls := [];
      ghost var was := Before(r.View(), tracked, histories);
      ghost var done: set<Pid> := {};
      var ready := set pid | pid in tracked && tracked[pid].missCount >= missThreshold;
      CleaningStarts(was, missThreshold, probe);
      var todo := ready;
      while todo != {}
        invariant todo <= ready && done == ready - todo
        invariant Cleaning(was, missThreshold, probe, done, calls, Before(r.View(), tracked, histories))
        decreases todo
      {
        var pid :| pid in todo;
        todo := todo - {pid};
        calls := CheckOne(r, probe, pid, calls, was, done);
        done := done + {pid};
      }
      assert done == ready;
      CleaningEnds(was, missThreshold, probe, done, calls, Before(r.View(), tracked, histories));
    }

    /** Step 5: forget pids that no longer have a heartbeat. */
    method Prune(seen: set<Pid>)
      requires Valid()
      modifies this
      ensures Valid() && histories == Restricted(old(histories), seen)
    {
      hide EntryFor;
      ghost var was := histories;
      tracked := map pid | pid in tracked && pid in seen :: tracked[pid];
      histories := Restricted(was, seen);
    }

    /** One tick. It hands to the script exactly the pids whose heartbeat has been stuck for more
        than `missThreshold` readings and whose process the table no longer has, each under the
        fingerprint of the reading it stuck at; afterwards nothing of such a pid is left in the
        keys, unless its heartbeat shows another process. If the table is truthful, every key
        change is a run of lifecycle steps that takes no handle from a live process. */
    method RunOneTick(r: Redis, raw: seq<RawBeat>, probe: Pid -> Probe, ghost w: World)
      returns (result: TickResult, ghost t: World)
      requires Valid() && Inv(w) && w.k == r.View() && Truthful(probe, w)
      modifies this, r
      ensures Valid()
      ensures var h := Observed(old(histories), raw, selfPid);
              && (forall pid :: pid in CalledPids(result.calls) <==> StaleAndDead(h, missThreshold, probe, pid))
              && histories == Restricted(h - CalledPids(result.calls), SeenPids(raw))
      ensures forall pid, c {:trigger CalledWith(result.calls, pid, c)} ::
                var h := Observed(old(histories), raw, selfPid);
                CalledWith(result.calls, pid, c) <==>
                  pid in h && NotHeardFrom(h[pid], missThreshold, c) && NoSuchProcess(probe(pid), c)
      ensures forall pid, c {:trigger CalledWith(result.calls, pid, c)} :: CalledWith(result.calls, pid, c) ==>
                var k := old(r.View());
                if pid in k.heartbeats && k.heartbeats[pid] != c then SameOwner(k, r.View(), pid)
                else Erased(r.View(), pid)
      ensures ListedCalls(old(r.View()), result.calls)
      ensures var k := CleanedAll(old(r.View()), result.calls);
              var gone := set n | n in result.unlinked;
              && gone <= k.queue && r.View() == k.(queue := k.queue - gone)
              && |result.unlinked| <= batchDrainSize
              && (|result.unlinked| < batchDrainSize ==> gone == k.queue)
      ensures Inv(t) && t.k == r.View() && t.alive == w.alive
      ensures forall h {:trigger h in t.handles} :: h in w.handles && Live(w, h) ==> h in t.handles
    {
      hide Tracks, CallsFor, ListedCalls, CleanedAll, Inv, Truthful, CalledPids, StaleAndDead, Live, Observed, SeenPids;
      hide Restricted, CalledWith, NotHeardFrom, NoSuchProcess, SameOwner, Erased;
      var seen := Observe(raw);
      ghost var k, tracked1, histories1 := r.View(), tracked, histories;
      var calls := CleanDead(r, probe);
      CallsMeanStale(tracked1, histories1, missThreshold, probe, calls);
      TickMeans(k, tracked1, histories1, missThreshold, probe, calls);
      t := CallsAreSteps(w, probe, calls);
      ghost var mid := r.View();
      var unlinked := r.DrainQueue(batchDrainSize);
      assert r.View() == mid.(queue := mid.queue - (set n | n in unlinked));
      ghost var gone := set n | n in unlinked;
      if |unlinked| < batchDrainSize {
        NothingLeft(mid.queue, gone);
      }
      t := DrainedAndUnlinked(t, unlinked);
      DrainOwners(mid, r.View(), set n | n in unlinked);
      Prune(seen);
      result := TickResult(calls, unlinked);
    }
  }

  /** A point of a tick: the keys, the tracking state and its history. */
  datatype Point = Before(k: Keys, tracked: map<Pid, PidEntry>, histories: Histories)

  /** Where the cleaning loop stands once it has dealt with the pids in `done`. */
  ghost predicate Cleaning(was: Point, threshold: nat, probe: Pid -> Probe, done: set<Pid>, calls: seq<Call>,
                           now: Point)
  {
    && Tracks(was.tracked, was.histories) && Tracks(now.tracked, now.histories)
    && now.tracked == was.tracked - CalledPids(calls) && now.histories == was.histories - CalledPids(calls)
    && CallsFor(calls, was.tracked, threshold, probe) && CalledPids(calls) <= done
    && (forall pid {:trigger pid in done} :: pid in done && MustClean(was.tracked, threshold, probe, pid) ==>
          pid in CalledPids(calls))
    && ListedCalls(was.k, calls) && now.k == CleanedAll(was.k, calls)
  }

  lemma CleaningStarts(was: Point, threshold: nat, probe: Pid -> Probe)
    requires Tracks(was.tracked, was.histories)
    ensures Cleaning(was, threshold, probe, {}, [], was)
  {
    assert CalledPids([]) == {};
  }

  lemma CleaningEnds(was: Point, threshold: nat, probe: Pid -> Probe, done: set<Pid>, calls: seq<Call>, now: Point)
    requires Cleaning(was, threshold, probe, done, calls, now)
    requires forall pid {:trigger pid in done} :: pid in done <==>
               pid in was.tracked && was.tracked[pid].missCount >= threshold
    ensures Tracks(now.tracked, now.histories) && now.histories == was.histories - CalledPids(calls)
    ensures CallsFor(calls, was.tracked, threshold, probe)
    ensures forall pid :: MustClean(was.tracked, threshold, probe, pid) ==> pid in CalledPids(calls)
    ensures ListedCalls(was.k, calls) && now.k == CleanedAll(was.k, calls)
  {
    hide CleanedAll, ListedCalls, CallsFor, Tracks;
    forall pid | MustClean(was.tracked, threshold, probe, pid)
      ensures pid in CalledPids(calls)
    {
      assert pid in done;
    }
  }

  lemma EntryKept(was: Point, threshold: nat, probe: Pid -> Probe, done: set<Pid>, calls: seq<Call>, now: Point,
                  pid: Pid)
    requires Cleaning(was, threshold, probe, done, calls, now) && pid in was.tracked && pid !in done
    ensures pid in now.tracked && now.tracked[pid] == was.tracked[pid]
  {
  }

  lemma NothingLeft(queue: set<Name>, taken: set<Name>)
    requires taken <= queue && queue - taken == {}
    ensures taken == queue
  {
    assert forall n :: n in queue && n !in taken ==> n in queue - taken;
  }

  lemma HeldIs(r: Redis, pid: Pid)
    ensures Held(r.View(), pid) == if pid in r.pidSegments then r.pidSegments[pid] else {}
  {
  }

  lemma CleaningSkips(was: Point, threshold: nat, probe: Pid -> Probe, done: set<Pid>, calls: seq<Call>, now: Point,
                      pid: Pid)
    requires Cleaning(was, threshold, probe, done, calls, now) && !MustClean(was.tracked, threshold, probe, pid)
    ensures Cleaning(was, threshold, probe, done + {pid}, calls, now)
  {
    hide Tracks, MustClean, CallsFor, ListedCalls;
  }

  lemma CleaningCalls(was: Point, threshold: nat, probe: Pid -> Probe, done: set<Pid>, calls: seq<Call>, now: Point,
                      c: Call)
    requires Cleaning(was, threshold, probe, done, calls, now) && c.pid !in done
    requires MustClean(was.tracked, threshold, probe, c.pid) && c.expected == was.tracked[c.pid].createTime
    requires ListsSet(c.names, Held(now.k, c.pid))
    ensures Cleaning(was, threshold, probe, done + {c.pid}, calls + [c],
                     Before(CleanedUp(now.k, c.pid, c.names, c.expected), now.tracked - {c.pid},
                       now.histories - {c.pid}))
  {
    hide CleanedUp, Held, ListsSet, ListedCalls, MustClean, Tracks;
    AppendCall(was.k, calls, c);
    ForgetEntry(now.tracked, now.histories, c.pid);
    assert CallsFor(calls + [c], was.tracked, threshold, probe) by {
      MoreCalls(was, threshold, probe, calls, c);
    }
  }

  lemma MoreCalls(was: Point, threshold: nat, probe: Pid -> Probe, calls: seq<Call>, c: Call)
    requires CallsFor(calls, was.tracked, threshold, probe) && c.pid !in CalledPids(calls)
    requires MustClean(was.tracked, threshold, probe, c.pid) && c.expected == was.tracked[c.pid].createTime
    ensures CallsFor(calls + [c], was.tracked, threshold, probe)
  {
    hide CrossCheck;
    var more := calls + [c];
    forall i | 0 <= i < |more|
      ensures MustClean(was.tracked, threshold, probe, more[i].pid)
      ensures more[i].expected == was.tracked[more[i].pid].createTime
    {
      assert i < |calls| ==> more[i] == calls[i];
    }
    forall i, j | 0 <= i < j < |more|
      ensures more[i].pid != more[j].pid
    {
      assert more[i] == calls[i];
      assert calls[i].pid in CalledPids(calls);
    }
  }

  lemma NoneSeen(raw: seq<RawBeat>)
    ensures SeenPids(raw[..0]) == {}
  {
  }

  lemma FirstReading(r: Reading)
    ensures EntryFor(PidEntry(r.wall, r.createTime, 0), [] + [r])
  {
  }

  lemma SeenMore(raw: seq<RawBeat>, i: nat)
    requires i < |raw|
    ensures SeenPids(raw[..i + 1]) == SeenPids(raw[..i]) + (if raw[i].Parsed? then {raw[i].pid} else {})
  {
    var a, b := raw[..i], raw[..i + 1];
    assert forall j :: 0 <= j < i ==> a[j] == b[j];
    assert b[i] == raw[i];
  }
}
