/** `open_current` as the separate steps it takes: read the current key, map the file, count
    the handle. In between anyone may close, clean up, drain and unlink; when a retired
    segment can come back to be held, and when it cannot. */
module LifecycleOpen {
  import opened Lifecycle

  // ---------------------------------------------------------------------------
  // Opening step by step
  // ---------------------------------------------------------------------------

  /** `looked` and `mapped` are the opens under way, by the handle they are after. */
  datatype State = State(w: World, looked: multiset<Handle>, mapped: multiset<Handle>)

  datatype Step =
    | Do(ev: Event)
    | Look(pid: Pid, s: SchemaName)
    | Attach(h: Handle)
    | Take(h: Handle)
    | GiveUp(h: Handle)

  ghost predicate CanStep(st: State, step: Step)
  {
    match step
    case Do(ev) => !ev.OpenCurrent? && Enabled(st.w, ev)
    case Look(pid, s) => pid in st.w.alive && s in st.w.k.current
    case Attach(h) => h in st.looked && Live(st.w, h) && h.name !in st.w.unlinked
    case Take(h) => h in st.mapped && Live(st.w, h)
    case GiveUp(h) => h in st.looked || h in st.mapped
  }

  function Taken(w: World, h: Handle): World
  {
    w.(k := Opened(w.k, h.pid, h.name), handles := w.handles + [h])
  }

  ghost function After(st: State, step: Step): State
    requires CanStep(st, step)
  {
    match step
    case Do(ev) => st.(w := Next(st.w, ev))
    case Look(pid, s) =>
      st.(w := st.w.(k := Beaten(st.w.k, pid, st.w.alive[pid])),
          looked := st.looked + multiset{Handle(pid, st.w.alive[pid], st.w.k.current[s])})
    case Attach(h) => st.(looked := st.looked - multiset{h}, mapped := st.mapped + multiset{h})
    case Take(h) => st.(w := Taken(st.w, h), mapped := st.mapped - multiset{h})
    case GiveUp(h) => st.(looked := st.looked - multiset{h}, mapped := st.mapped - multiset{h})
  }

  ghost predicate Runs(st: State, steps: seq<Step>)
    decreases |steps|
  {
    steps == [] || (CanStep(st, steps[0]) && Runs(After(st, steps[0]), steps[1..]))
  }

  ghost function Ran(st: State, steps: seq<Step>): State
    requires Runs(st, steps)
    decreases |steps|
  {
    if steps == [] then st else Ran(After(st, steps[0]), steps[1..])
  }

  function Begin(): State
  {
    State(Start(), multiset{}, multiset{})
  }

  // ---------------------------------------------------------------------------
  // The guard
  // ---------------------------------------------------------------------------

  /** The handle is counted only while the segment still is. */
  predicate StillCounted(st: State, step: Step)
  {
    step.Take? ==> step.h.name in st.w.k.refcount
  }

  ghost predicate CountedRun(st: State, steps: seq<Step>)
    requires Runs(st, steps)
    decreases |steps|
  {
    steps == [] || (StillCounted(st, steps[0]) && CountedRun(After(st, steps[0]), steps[1..]))
  }

  /** No handle is out on a queued, popped or unlinked segment. */
  ghost predicate RetiredUnheld(w: World)
  {
    forall i {:trigger w.handles[i]} :: 0 <= i < |w.handles| ==>
      w.handles[i].name !in w.k.queue && w.handles[i].name !in w.popped && w.handles[i].name !in w.unlinked
  }

  ghost predicate AlwaysUnheld(st: State, steps: seq<Step>)
    requires Runs(st, steps)
    decreases |steps|
  {
    RetiredUnheld(st.w) && (steps == [] || AlwaysUnheld(After(st, steps[0]), steps[1..]))
  }

  // ---------------------------------------------------------------------------
  // The invariant
  // ---------------------------------------------------------------------------

  /** Every segment ever created is counted or retired. */
  ghost predicate Somewhere(w: World)
  {
    forall n {:trigger n in w.created} :: n in w.created ==>
      n in w.k.refcount || n in w.k.queue || n in w.popped || n in w.unlinked
  }

  ghost predicate PendingOk(w: World, pending: multiset<Handle>)
  {
    forall h {:trigger HandleOk(w, h)} :: h in pending ==> HandleOk(w, h)
  }

  ghost predicate OpenInv(st: State)
  {
    Inv(st.w) && Somewhere(st.w) && PendingOk(st.w, st.looked) && PendingOk(st.w, st.mapped)
  }

  lemma InvUnheld(w: World)
    requires Inv(w)
    ensures RetiredUnheld(w)
  {
    hide HandleCount;
    forall i | 0 <= i < |w.handles|
      ensures w.handles[i].name in w.k.refcount
    {
      CountPositive(w.handles, i);
      assert Count(w.k, w.handles[i].name) == HandleCount(w.handles, w.handles[i].name);
    }
  }

  /** A step by anyone keeps what an open under way relies on. */
  lemma HandleStays(w: World, ev: Event, h: Handle)
    requires Enabled(w, ev) && HandleOk(w, h)
    ensures HandleOk(Next(w, ev), h)
  {
    match ev {
      case Close(at) => ReleaseBeats(w.k, w.handles[at].name);
      case Cleanup(pid, names, expected) => ReleaseAllBeats(w.k, names);
      case _ =>
    }
  }

  lemma ReleaseBeats(k: Keys, n: Name)
    ensures Release(k, n).heartbeats == k.heartbeats
  {
  }

  lemma {:induction false} ReleaseAllBeats(k: Keys, names: seq<Name>)
    ensures ReleaseAll(k, names).heartbeats == k.heartbeats
  {
    if names != [] {
      ReleaseAllBeats(k, names[..|names| - 1]);
      ReleaseBeats(ReleaseAll(k, names[..|names| - 1]), names[|names| - 1]);
    }
  }

  lemma {:induction false} ReleaseAllSomewhere(k: Keys, names: seq<Name>, n: Name)
    requires n in k.refcount || n in k.queue
    ensures n in ReleaseAll(k, names).refcount || n in ReleaseAll(k, names).queue
  {
    hide Release;
    if names != [] {
      var init := names[..|names| - 1];
      ReleaseAllSomewhere(k, init, n);
      ReleaseSomewhere(ReleaseAll(k, init), names[|names| - 1], n);
    }
  }

  lemma {:induction false} ReleaseAllQueue(k: Keys, names: seq<Name>)
    ensures k.queue <= ReleaseAll(k, names).queue
  {
    if names != [] {
      ReleaseAllQueue(k, names[..|names| - 1]);
    }
  }

  lemma ReleaseSomewhere(k: Keys, m: Name, n: Name)
    requires n in k.refcount || n in k.queue
    ensures n in Release(k, m).refcount || n in Release(k, m).queue
  {
    hide Count;
  }

  lemma ClosedSomewhere(k: Keys, pid: Pid, m: Name, n: Name)
    requires n in k.refcount || n in k.queue
    ensures n in Closed(k, pid, m).refcount || n in Closed(k, pid, m).queue
  {
    hide Release;
    ReleaseSomewhere(k, m, n);
  }

  lemma SomewhereStays(w: World, ev: Event)
    requires Enabled(w, ev) && Somewhere(w)
    ensures Somewhere(Next(w, ev))
  {
    hide ReleaseAll, GiveBackAll, Closed, Held;
    var t := Next(w, ev);
    forall n | n in t.created
      ensures n in t.k.refcount || n in t.k.queue || n in t.popped || n in t.unlinked
    {
      if n in w.k.refcount || n in w.k.queue {
        StaysCountedOrGone(w, ev, n);
      } else {
        assert n in w.created ==> n in w.popped || n in w.unlinked;
      }
    }
  }

  lemma StaysCountedOrGone(w: World, ev: Event, n: Name)
    requires Enabled(w, ev) && (n in w.k.refcount || n in w.k.queue)
    ensures var t := Next(w, ev); n in t.k.refcount || n in t.k.queue || n in t.popped
  {
    hide ReleaseAll, GiveBackAll, Closed, Held;
    match ev {
      case Close(at) => ClosedSomewhere(w.k, w.handles[at].pid, w.handles[at].name, n);
      case Cleanup(pid, names, expected) => ReleaseAllSomewhere(w.k, names, n);
      case _ =>
    }
  }

  lemma DoKeeps(st: State, ev: Event)
    requires OpenInv(st) && CanStep(st, Do(ev))
    ensures OpenInv(After(st, Do(ev)))
  {
    hide Inv, Somewhere, HandleOk, Next, Enabled;
    StepKeepsInv(st.w, ev);
    SomewhereStays(st.w, ev);
    var t := Next(st.w, ev);
    forall h {:trigger HandleOk(t, h)} | h in st.looked || h in st.mapped
      ensures HandleOk(t, h)
    {
      assert HandleOk(st.w, h);
      HandleStays(st.w, ev, h);
    }
  }

  lemma LookKeeps(st: State, pid: Pid, s: SchemaName)
    requires OpenInv(st) && CanStep(st, Look(pid, s))
    ensures OpenInv(After(st, Look(pid, s)))
  {
    var w, t := st.w, After(st, Look(pid, s));
    assert HandleOk(t.w, Handle(pid, w.alive[pid], w.k.current[s]));
    hide Inv, Somewhere, HandleOk;
    assert t.w == Next(w, Beat(pid));
    StepKeepsInv(w, Beat(pid));
    SomewhereStays(w, Beat(pid));
    forall h {:trigger HandleOk(t.w, h)} | h in t.looked || h in t.mapped
      ensures HandleOk(t.w, h)
    {
      if h in st.looked || h in st.mapped {
        HandleStays(w, Beat(pid), h);
      }
    }
  }

  /** Counting one more handle on a segment that is still counted. */
  lemma TakenInv(w: World, h: Handle)
    requires Inv(w) && HandleOk(w, h) && h.name in w.k.refcount
    ensures Inv(Taken(w, h))
  {
    hide HandleCount, Holds;
    var t := Taken(w, h);
    HoldsAppend(w.handles, h);
    assert Accounts(t.k, t.handles) by {
      forall n
        ensures Count(t.k, n) == HandleCount(t.handles, n)
      {
        assert Count(w.k, n) == HandleCount(w.handles, n);
        CountAppend(w.handles, h, n);
      }
    }
    assert Listed(t.k, t.handles) by {
      forall pid, n | n in Held(t.k, pid)
        ensures Holds(t.handles, pid, n)
      {
        assert n in Held(w.k, pid) || (pid == h.pid && n == h.name);
      }
    }
    forall g | g in t.handles
      ensures HandleOk(t, g)
    {
      if g != h {
        assert g in w.handles && HandleOk(w, g);
      }
    }
  }

  lemma TakeKeeps(st: State, h: Handle)
    requires OpenInv(st) && CanStep(st, Take(h)) && StillCounted(st, Take(h))
    ensures OpenInv(After(st, Take(h)))
  {
    hide Inv;
    var t := After(st, Take(h));
    assert HandleOk(st.w, h);
    TakenInv(st.w, h);
    assert Somewhere(t.w);
    forall g {:trigger HandleOk(t.w, g)} | g in t.looked || g in t.mapped
      ensures HandleOk(t.w, g)
    {
      assert HandleOk(st.w, g);
    }
  }

  lemma CountedStepKeeps(st: State, step: Step)
    requires OpenInv(st) && CanStep(st, step) && StillCounted(st, step)
    ensures OpenInv(After(st, step))
  {
    match step {
      case Do(ev) => DoKeeps(st, ev);
      case Look(pid, s) => LookKeeps(st, pid, s);
      case Take(h) => TakeKeeps(st, h);
      case _ => hide Inv, Somewhere, HandleOk;
    }
  }

  /** Counted too late, the handle is on a retired segment. */
  lemma LateTake(st: State, h: Handle)
    requires OpenInv(st) && CanStep(st, Take(h)) && !StillCounted(st, Take(h))
    ensures !RetiredUnheld(After(st, Take(h)).w)
  {
    hide Inv;
    var t := After(st, Take(h));
    assert HandleOk(st.w, h);
    assert t.w.handles[|st.w.handles|] == h;
  }

  lemma {:induction false} UnheldIff(st: State, steps: seq<Step>)
    requires OpenInv(st) && Runs(st, steps)
    ensures AlwaysUnheld(st, steps) <==> CountedRun(st, steps)
    decreases |steps|
  {
    hide OpenInv, CanStep, After, RetiredUnheld, StillCounted;
    assert RetiredUnheld(st.w) by {
      InvOf(st);
      InvUnheld(st.w);
    }
    if steps != [] {
      var t := After(st, steps[0]);
      if StillCounted(st, steps[0]) {
        CountedStepKeeps(st, steps[0]);
        UnheldIff(t, steps[1..]);
      } else {
        OnlyTakes(st, steps[0]);
        LateTake(st, steps[0].h);
        assert !AlwaysUnheld(t, steps[1..]);
      }
    }
  }

  lemma InvOf(st: State)
    requires OpenInv(st)
    ensures Inv(st.w)
  {
  }

  lemma OnlyTakes(st: State, step: Step)
    requires !StillCounted(st, step)
    ensures step.Take?
  {
  }

  lemma BeginOk()
    ensures OpenInv(Begin())
  {
    StartOk();
  }

  /** In a run with step-by-step opens no queued, popped or unlinked segment is ever held, if
      and only if every open counts its handle while the segment is still counted. */
  lemma AlwaysUnheldIff(steps: seq<Step>)
    requires Runs(Begin(), steps)
    ensures AlwaysUnheld(Begin(), steps) <==> CountedRun(Begin(), steps)
  {
    hide *;
    BeginOk();
    UnheldIff(Begin(), steps);
  }

  // ---------------------------------------------------------------------------
  // The smallest failing run
  // ---------------------------------------------------------------------------

  lemma Prepend(st: State, steps: seq<Step>, rest: seq<Step>, last: State)
    requires steps != [] && rest == steps[1..] && CanStep(st, steps[0])
    requires Runs(After(st, steps[0]), rest) && Ran(After(st, steps[0]), rest) == last
    ensures Runs(st, steps) && Ran(st, steps) == last
  {
  }

  /** The maker and only holder has the segment queued by closing it. */
  lemma CloseQueues(w: World, h: Handle, s: SchemaName)
    requires w.handles == [h] && Live(w, h) && w.k.refcount == map[h.name := 1]
    requires w.k.sidetable == map[h.name := s] && w.k.current == map[s := h.name] && h.pid in w.k.pidSegments
    ensures Enabled(w, Close(0))
    ensures var t := Next(w, Close(0));
            && t.handles == [] && t.k.refcount == map[] && t.k.queue == w.k.queue + {h.name} && s !in t.k.current
            && t.alive == w.alive
  {
    assert (map[h.name := 1] - {h.name}) == map[];
  }

  /** The maker holds the current segment; `k` tells who has a heartbeat. */
  function Made(maker: Pid, reader: Pid, birth: Birth, s: SchemaName, n: Name, beats: map<Pid, Birth>): World
  {
    World(Keys(map[n := 1], map[maker := {n}], {}, map[n := s], map[s := n], beats),
          map[maker := birth, reader := birth], {(maker, birth), (reader, birth)}, {n}, {}, {},
          [Handle(maker, birth, n)])
  }

  function ReaderMapped(maker: Pid, reader: Pid, birth: Birth, s: SchemaName, n: Name): State
  {
    State(Made(maker, reader, birth, s, n, map[maker := birth, reader := birth]),
          multiset{}, multiset{Handle(reader, birth, n)})
  }

  lemma MakeFirst(maker: Pid, reader: Pid, birth: Birth, s: SchemaName, n: Name, tail: seq<Step>)
    requires maker != reader
    requires Runs(State(Made(maker, reader, birth, s, n, map[maker := birth]), multiset{}, multiset{}), tail)
    ensures var steps := [Do(Spawn(maker, birth)), Do(Spawn(reader, birth)), Do(Create(maker, s, n, true))] + tail;
            Runs(Begin(), steps)
            && Ran(Begin(), steps) ==
                 Ran(State(Made(maker, reader, birth, s, n, map[maker := birth]), multiset{}, multiset{}), tail)
  {
    hide Runs, Ran;
    var steps := [Do(Spawn(maker, birth)), Do(Spawn(reader, birth)), Do(Create(maker, s, n, true))] + tail;
    var s1 := After(Begin(), steps[0]);
    var s2 := After(s1, steps[1]);
    var s3 := After(s2, steps[2]);
    assert s3.w.k.pidSegments == map[maker := {n}] by {
      assert Held(s2.w.k, maker) + {n} == {n};
    }
    assert s3 == State(Made(maker, reader, birth, s, n, map[maker := birth]), multiset{}, multiset{});
    Prepend(s2, steps[2..], tail, Ran(s3, tail));
    Prepend(s1, steps[1..], steps[2..], Ran(s3, tail));
    Prepend(Begin(), steps, steps[1..], Ran(s3, tail));
  }

  lemma MapFirst(maker: Pid, reader: Pid, birth: Birth, s: SchemaName, n: Name, tail: seq<Step>)
    requires Runs(ReaderMapped(maker, reader, birth, s, n), tail)
    ensures var st := State(Made(maker, reader, birth, s, n, map[maker := birth]), multiset{}, multiset{});
            var steps := [Look(reader, s), Attach(Handle(reader, birth, n))] + tail;
            Runs(st, steps) && Ran(st, steps) == Ran(ReaderMapped(maker, reader, birth, s, n), tail)
  {
    hide Runs, Ran;
    var r := Handle(reader, birth, n);
    var st := State(Made(maker, reader, birth, s, n, map[maker := birth]), multiset{}, multiset{});
    var steps := [Look(reader, s), Attach(r)] + tail;
    var s4 := After(st, steps[0]);
    assert s4.looked == multiset{r};
    var s5 := After(s4, steps[1]);
    assert s5 == ReaderMapped(maker, reader, birth, s, n);
    Prepend(s4, steps[1..], tail, Ran(s5, tail));
    Prepend(st, steps, steps[1..], Ran(s5, tail));
  }

  lemma CountQueued(st: State, r: Handle) returns (steps: seq<Step>, last: State)
    requires st.w.handles == [] && st.w.k.refcount == map[] && st.w.k.queue == {r.name}
    requires r in st.mapped && Live(st.w, r)
    ensures Runs(st, steps) && last == Ran(st, steps)
    ensures Live(last.w, r) && r in last.w.handles && Count(last.w.k, r.name) == 1 && r.name in last.w.unlinked
  {
    hide Runs, Ran;
    steps := [Take(r), Do(Drain({r.name})), Do(Unlink(r.name))];
    var s7 := After(st, steps[0]);
    assert s7.w.handles[0] == r;
    var s8 := After(s7, steps[1]);
    last := After(s8, steps[2]);
    RunsNothing(last);
    Prepend(s8, steps[2..], [], last);
    Prepend(s7, steps[1..], steps[2..], last);
    Prepend(st, steps, steps[1..], last);
  }

  lemma CountLate(st: State, m: Handle, r: Handle, s: SchemaName) returns (steps: seq<Step>, last: State)
    requires st.w.handles == [m] && Live(st.w, m) && st.w.k.refcount == map[m.name := 1] && st.w.k.queue == {}
    requires st.w.k.sidetable == map[m.name := s] && st.w.k.current == map[s := m.name] && m.pid in st.w.k.pidSegments
    requires r in st.mapped && Live(st.w, r) && r.name == m.name
    ensures Runs(st, steps) && last == Ran(st, steps)
    ensures Live(last.w, r) && r in last.w.handles && Count(last.w.k, r.name) == 1 && r.name in last.w.unlinked
  {
    hide Runs, Ran, Next;
    CloseQueues(st.w, m, s);
    var queued := After(st, Do(Close(0)));
    var rest: seq<Step>;
    rest, last := CountQueued(queued, r);
    steps := [Do(Close(0))] + rest;
    Prepend(st, steps, rest, last);
  }

  /** A reader reads the current key and maps the file; the last holder closes, which queues
      the segment; the reader counts its handle, and the segment is unlinked under it. */
  lemma LateOpen(maker: Pid, reader: Pid, birth: Birth, s: SchemaName, n: Name) returns (steps: seq<Step>, last: State)
    requires maker != reader
    ensures Runs(Begin(), steps) && last == Ran(Begin(), steps)
    ensures Live(last.w, Handle(reader, birth, n)) && Handle(reader, birth, n) in last.w.handles
    ensures Count(last.w.k, n) == 1 && n in last.w.unlinked
  {
    hide Runs, Ran;
    var tail: seq<Step>;
    var m, r := Handle(maker, birth, n), Handle(reader, birth, n);
    tail, last := CountLate(ReaderMapped(maker, reader, birth, s, n), m, r, s);
    MapFirst(maker, reader, birth, s, n, tail);
    tail := [Look(reader, s), Attach(Handle(reader, birth, n))] + tail;
    MakeFirst(maker, reader, birth, s, n, tail);
    steps := [Do(Spawn(maker, birth)), Do(Spawn(reader, birth)), Do(Create(maker, s, n, true))] + tail;
  }

  lemma RunsNothing(st: State)
    ensures Runs(st, []) && Ran(st, []) == st
  {
  }
}
