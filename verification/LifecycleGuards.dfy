/** Holding a segment at most once is exactly what keeps the holder lists right: when the
    refcount equals the list at every moment, and when the cleanup of a dead process gives
    back what it held. */
module LifecycleGuards {
  import opened Lifecycle
  import opened LifecycleHolders

  // ---------------------------------------------------------------------------
  // Exact holder lists
  // ---------------------------------------------------------------------------

  /** Every refcount is the number of processes listed as holding the segment. */
  ghost predicate Exact(w: World)
  {
    forall n {:trigger Count(w.k, n)} {:trigger Listing(w.k, n)} :: Count(w.k, n) == |Listing(w.k, n)|
  }

  ghost predicate AlwaysExact(w: World, evs: seq<Event>)
    requires Legal(w, evs)
    decreases |evs|
  {
    Exact(w) && (evs == [] || AlwaysExact(Next(w, evs[0]), evs[1..]))
  }

  lemma OneIsExact(w: World)
    requires Inv(w) && OnePer(w.k, w.handles)
    ensures Exact(w)
  {
    hide Inv, OnePer, Count, Listing;
    forall n
      ensures Count(w.k, n) == |Listing(w.k, n)|
    {
      OneCount(w, n);
    }
  }

  lemma ExactIsOne(w: World)
    requires Inv(w) && Exact(w)
    ensures OnePer(w.k, w.handles)
  {
    hide HandleCount, Accounts, Pointers, Listed, HandlesOk, Retired;
    forall i, j {:trigger w.handles[i], w.handles[j]} | 0 <= i < j < |w.handles|
      ensures w.handles[i].pid != w.handles[j].pid || w.handles[i].name != w.handles[j].name
    {
      CountingHolders(w, w.handles[i].name);
      assert Count(w.k, w.handles[i].name) == |Listing(w.k, w.handles[i].name)|;
    }
    forall i | 0 <= i < |w.handles|
      ensures w.handles[i].name in Held(w.k, w.handles[i].pid)
    {
      var n := w.handles[i].name;
      CountingHolders(w, n);
      assert Count(w.k, n) == |Listing(w.k, n)|;
      assert w.handles[i].pid in HolderPids(w.handles, n);
    }
  }

  /** A second open by a listed holder raises the count and lists nobody new. */
  lemma SecondOpenInexact(w: World, ev: Event)
    requires Exact(w) && OnePer(w.k, w.handles) && Enabled(w, ev) && !OpensOnce(w, ev)
    ensures !Exact(Next(w, ev))
  {
    var n, t := w.k.current[ev.s], Next(w, ev);
    var i :| 0 <= i < |w.handles| && w.handles[i].pid == ev.pid && w.handles[i].name == n;
    assert w.handles[i].name in Held(w.k, w.handles[i].pid);
    assert Listing(t.k, n) == Listing(w.k, n);
    assert Count(t.k, n) == Count(w.k, n) + 1 && Count(w.k, n) == |Listing(w.k, n)|;
  }

  lemma {:induction false} ExactRunIff(w: World, evs: seq<Event>)
    requires Inv(w) && OnePer(w.k, w.handles) && Legal(w, evs)
    ensures AlwaysExact(w, evs) <==> SingleRun(w, evs)
    decreases |evs|
  {
    hide Inv, Next, Enabled, OnePer, OpensOnce, Exact;
    OneIsExact(w);
    if evs != [] {
      var t := Next(w, evs[0]);
      StepKeepsInv(w, evs[0]);
      if OpensOnce(w, evs[0]) {
        OneStep(w, evs[0]);
        ExactRunIff(t, evs[1..]);
      } else {
        SecondOpenInexact(w, evs[0]);
        assert !AlwaysExact(t, evs[1..]);
      }
    }
  }

  /** In a run the refcount of every segment is at every moment the number of processes
      listed as holding it, if and only if no process opens a segment it already holds. */
  lemma AlwaysExactIff(evs: seq<Event>)
    requires Legal(Start(), evs)
    ensures AlwaysExact(Start(), evs) <==> SingleRun(Start(), evs)
  {
    hide AlwaysExact, SingleRun, Legal, Inv;
    StartOk();
    ExactRunIff(Start(), evs);
  }

  // ---------------------------------------------------------------------------
  // What a cleanup gives back
  // ---------------------------------------------------------------------------

  /** Outstanding handles of `pid` on `n`. */
  function PidCount(hs: seq<Handle>, pid: Pid, n: Name): nat
  {
    if hs == [] then 0
    else PidCount(hs[..|hs| - 1], pid, n) + (if hs[|hs| - 1].pid == pid && hs[|hs| - 1].name == n then 1 else 0)
  }

  lemma {:induction false} PidCountAppend(hs: seq<Handle>, h: Handle, pid: Pid, n: Name)
    ensures PidCount(hs + [h], pid, n) == PidCount(hs, pid, n) + (if h.pid == pid && h.name == n then 1 else 0)
  {
    assert (hs + [h])[..|hs|] == hs;
  }

  lemma {:induction false} PidCountIsHolds(hs: seq<Handle>, pid: Pid, n: Name)
    ensures PidCount(hs, pid, n) > 0 <==> Holds(hs, pid, n)
  {
    if hs != [] {
      var init, last := hs[..|hs| - 1], hs[|hs| - 1];
      PidCountIsHolds(init, pid, n);
      if Holds(init, pid, n) {
        var i :| 0 <= i < |init| && init[i].pid == pid && init[i].name == n;
        assert hs[i].pid == pid;
      }
      if Holds(hs, pid, n) && !(last.pid == pid && last.name == n) {
        var i :| 0 <= i < |hs| && hs[i].pid == pid && hs[i].name == n;
        assert init[i].pid == pid;
      }
    }
  }

  lemma {:induction false} GiveBackCount(hs: seq<Handle>, pid: Pid, m: Name, n: Name)
    requires PidCount(hs, pid, m) > 0
    ensures PidCount(GiveBack(hs, pid, m), pid, n) == PidCount(hs, pid, n) - (if m == n then 1 else 0)
  {
    var init, last := hs[..|hs| - 1], hs[|hs| - 1];
    if !(last.pid == pid && last.name == m) {
      GiveBackCount(init, pid, m, n);
      PidCountAppend(GiveBack(init, pid, m), last, pid, n);
    }
  }

  /** Giving back each of a list of distinct names takes one handle of each. */
  lemma {:induction false} GiveBackAllCount(hs: seq<Handle>, pid: Pid, names: seq<Name>, n: Name)
    requires forall m :: m in names ==> PidCount(hs, pid, m) > 0
    requires forall i, j {:trigger names[i], names[j]} :: 0 <= i < j < |names| ==> names[i] != names[j]
    ensures PidCount(GiveBackAll(hs, pid, names), pid, n) == PidCount(hs, pid, n) - (if n in names then 1 else 0)
  {
    hide PidCount, GiveBack;
    if names != [] {
      var init, m := names[..|names| - 1], names[|names| - 1];
      GiveBackAllCount(hs, pid, init, n);
      GiveBackAllCount(hs, pid, init, m);
      assert m !in init;
      GiveBackCount(GiveBackAll(hs, pid, init), pid, m, n);
      assert n in names <==> n in init || n == m;
    }
  }

  /** After the cleanup of a dead process no handle of it on `n` is outstanding, if and only
      if it had one handle on `n` and was listed, or none and was not. */
  lemma CleanupReleasesIff(w: World, pid: Pid, names: seq<Name>, expected: Birth, n: Name)
    requires Inv(w) && Enabled(w, Cleanup(pid, names, expected)) && !Reused(w.k, pid, expected)
    ensures !Holds(Next(w, Cleanup(pid, names, expected)).handles, pid, n)
            <==> PidCount(w.handles, pid, n) == if n in Held(w.k, pid) then 1 else 0
  {
    hide PidCount, GiveBackAll, Accounts, Pointers, HandlesOk, Retired, Holds, CleanedUp;
    forall m | m in names
      ensures PidCount(w.handles, pid, m) > 0
    {
      assert m in Held(w.k, pid);
      PidCountIsHolds(w.handles, pid, m);
    }
    GiveBackAllCount(w.handles, pid, names, n);
    PidCountIsHolds(GiveBackAll(w.handles, pid, names), pid, n);
  }

  // ---------------------------------------------------------------------------
  // The guard is exact
  // ---------------------------------------------------------------------------

  /** Whatever process is cleaned up now, in whatever order its list is read, nothing of
      it stays outstanding. */
  ghost predicate Cleans(w: World)
  {
    forall pid, names, expected {:trigger Cleanup(pid, names, expected)} ::
      Enabled(w, Cleanup(pid, names, expected)) && !Reused(w.k, pid, expected) ==>
        CleansAll(Next(w, Cleanup(pid, names, expected)), pid)
  }

  ghost predicate CleansAll(w: World, pid: Pid)
  {
    forall n {:trigger Holds(w.handles, pid, n)} :: !Holds(w.handles, pid, n)
  }

  lemma {:induction false} OnceCount(hs: seq<Handle>, pid: Pid, n: Name)
    requires forall i, j {:trigger hs[i], hs[j]} :: 0 <= i < j < |hs| ==>
               hs[i].pid != hs[j].pid || hs[i].name != hs[j].name
    ensures PidCount(hs, pid, n) <= 1
  {
    if hs != [] {
      var init, last := hs[..|hs| - 1], hs[|hs| - 1];
      assert forall i :: 0 <= i < |init| ==> init[i] == hs[i];
      OnceCount(init, pid, n);
      PidCountIsHolds(init, pid, n);
    }
  }

  lemma OneCleans(w: World)
    requires Inv(w) && OnePer(w.k, w.handles)
    ensures Cleans(w)
  {
    forall pid, names, expected {:trigger Cleanup(pid, names, expected)}
        | Enabled(w, Cleanup(pid, names, expected)) && !Reused(w.k, pid, expected)
      ensures CleansAll(Next(w, Cleanup(pid, names, expected)), pid)
    {
      forall n
        ensures !Holds(Next(w, Cleanup(pid, names, expected)).handles, pid, n)
      {
        OneCleansName(w, pid, names, expected, n);
      }
    }
  }

  lemma OneCleansName(w: World, pid: Pid, names: seq<Name>, expected: Birth, n: Name)
    requires Inv(w) && OnePer(w.k, w.handles)
    requires Enabled(w, Cleanup(pid, names, expected)) && !Reused(w.k, pid, expected)
    ensures !Holds(Next(w, Cleanup(pid, names, expected)).handles, pid, n)
  {
    hide PidCount, Accounts, Pointers, HandlesOk, Retired, Next;
    CleanupReleasesIff(w, pid, names, expected, n);
    OnceCount(w.handles, pid, n);
    PidCountIsHolds(w.handles, pid, n);
    if Holds(w.handles, pid, n) {
      var i :| 0 <= i < |w.handles| && w.handles[i].pid == pid && w.handles[i].name == n;
      assert w.handles[i].name in Held(w.k, w.handles[i].pid);
    }
  }

  /** Some order in which a set can be read. */
  lemma {:induction false} SomeOrder(held: set<Name>) returns (names: seq<Name>)
    ensures forall n :: n in names <==> n in held
    ensures forall i, j :: 0 <= i < j < |names| ==> names[i] != names[j]
  {
    if held == {} {
      names := [];
    } else {
      var n :| n in held;
      var rest := SomeOrder(held - {n});
      names := rest + [n];
    }
  }

  /** A process that opened a segment twice dies: one handle stays whatever is cleaned up. */
  lemma SecondOpenLeaks(w: World, ev: Event)
    requires Inv(w) && Enabled(w, ev) && !OpensOnce(w, ev)
    ensures var t := Next(w, ev); SingleRun(t, [Die(ev.pid, false)]) && !Cleans(Exec(t, [Die(ev.pid, false)]))
  {
    hide PidCount, Inv, Cleans, Opened;
    var pid, n, t := ev.pid, w.k.current[ev.s], Next(w, ev);
    var die := Die(pid, false);
    var u := Next(t, die);
    assert Enabled(t, die) && [die][1..] == [];
    assert SingleRun(u, []) && Exec(u, []) == u;
    StepKeepsInv(w, ev);
    StepKeepsInv(t, die);
    PidCountIsHolds(w.handles, pid, n);
    PidCountAppend(w.handles, Handle(pid, w.alive[pid], n), pid, n);
    LeakHere(w, ev, u);
  }

  lemma LeakHere(w: World, ev: Event, u: World)
    requires ev.OpenCurrent? && Enabled(w, ev) && u == Next(Next(w, ev), Die(ev.pid, false)) && Inv(u)
    requires PidCount(u.handles, ev.pid, w.k.current[ev.s]) > 1
    ensures !Cleans(u)
  {
    hide PidCount, Inv, Next;
    var pid, n := ev.pid, w.k.current[ev.s];
    var birth := w.alive[pid];
    DeadCanBeCleaned(w, ev, u);
    var names := SomeOrder(Held(u.k, pid));
    var clean := Cleanup(pid, names, birth);
    assert Enabled(u, clean);
    CleanupReleasesIff(u, pid, names, birth, n);
    assert !CleansAll(Next(u, clean), pid);
  }

  lemma DeadCanBeCleaned(w: World, ev: Event, u: World)
    requires ev.OpenCurrent? && Enabled(w, ev) && u == Next(Next(w, ev), Die(ev.pid, false))
    ensures ev.pid !in u.alive && !Reused(u.k, ev.pid, w.alive[ev.pid])
  {
  }

  /** At any state a run without second opens reaches, an event keeps to that guard if and
      only if in every such run that goes on from it the cleanup of a dead process leaves
      nothing of it outstanding. */
  lemma OpensOnceIff(before: seq<Event>, ev: Event)
    requires SingleRun(Start(), before) && Legal(Start(), before) && Enabled(Exec(Start(), before), ev)
    ensures var w := Exec(Start(), before);
            OpensOnce(w, ev) <==>
              forall evs {:trigger SingleRun(Next(w, ev), evs)} ::
                SingleRun(Next(w, ev), evs) ==> Legal(Next(w, ev), evs) && Cleans(Exec(Next(w, ev), evs))
  {
    hide Inv, Next, Enabled, OnePer, Cleans, SingleRun, Legal, Exec, Holds;
    StartSingle();
    SingleRunInv(Start(), before);
    var w := Exec(Start(), before);
    var t := Next(w, ev);
    if OpensOnce(w, ev) {
      StepKeepsInv(w, ev);
      OneStep(w, ev);
      forall evs | SingleRun(t, evs)
        ensures Legal(t, evs) && Cleans(Exec(t, evs))
      {
        SingleRunInv(t, evs);
        OneCleans(Exec(t, evs));
      }
    } else {
      SecondOpenLeaks(w, ev);
      assert SingleRun(t, [Die(ev.pid, false)]);
    }
  }

  lemma StartSingle()
    ensures Inv(Start()) && OnePer(Start().k, Start().handles)
  {
    StartOk();
  }
}
