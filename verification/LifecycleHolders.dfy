/** When the holder lists are exact: runs in which no process holds a segment twice, and
    what happens to the list when one does. */
module LifecycleHolders {
  import opened Lifecycle

  // ---------------------------------------------------------------------------
  // Holding a segment at most once
  // ---------------------------------------------------------------------------

  /** No process opens a segment it already holds. */
  predicate OpensOnce(w: World, ev: Event)
  {
    ev.OpenCurrent? && ev.s in w.k.current ==> !Holds(w.handles, ev.pid, w.k.current[ev.s])
  }

  ghost predicate SingleRun(w: World, evs: seq<Event>)
    decreases |evs|
  {
    evs == [] || (Enabled(w, evs[0]) && OpensOnce(w, evs[0]) && SingleRun(Next(w, evs[0]), evs[1..]))
  }

  /** Every outstanding handle is listed, and no two agree on process and segment. */
  ghost predicate OnePer(k: Keys, hs: seq<Handle>)
  {
    && (forall i, j {:trigger hs[i], hs[j]} :: 0 <= i < j < |hs| ==> hs[i].pid != hs[j].pid || hs[i].name != hs[j].name)
    && (forall i {:trigger hs[i]} :: 0 <= i < |hs| ==> hs[i].name in Held(k, hs[i].pid))
  }

  /** After `names` are given back none of them is outstanding, and the rest stay distinct. */
  lemma {:induction false} GiveBackAllOnce(hs: seq<Handle>, pid: Pid, names: seq<Name>)
    requires forall n :: n in names ==> Holds(hs, pid, n)
    requires forall i, j {:trigger names[i], names[j]} :: 0 <= i < j < |names| ==> names[i] != names[j]
    requires forall i, j {:trigger hs[i], hs[j]} :: 0 <= i < j < |hs| ==>
               hs[i].pid != hs[j].pid || hs[i].name != hs[j].name
    ensures var rest := GiveBackAll(hs, pid, names);
            && (forall i, j {:trigger rest[i], rest[j]} :: 0 <= i < j < |rest| ==>
                  rest[i].pid != rest[j].pid || rest[i].name != rest[j].name)
            && (forall h :: h in rest ==> h in hs && (h.pid != pid || h.name !in names))
            && (forall p, n {:trigger Holds(rest, p, n)} :: Holds(hs, p, n) && (p != pid || n !in names) ==>
                  Holds(rest, p, n))
  {
    hide GiveBack, HandleCount;
    if names != [] {
      var init, n := names[..|names| - 1], names[|names| - 1];
      GiveBackAllOnce(hs, pid, init);
      var before := GiveBackAll(hs, pid, init);
      assert n !in init && n in names;
      assert Holds(before, pid, n);
      var at := GiveBackIs(before, pid, n);
      var rest := Without(before, at);
      forall h | h in rest
        ensures h in hs && (h.pid != pid || h.name !in names)
      {
        var i :| 0 <= i < |rest| && rest[i] == h;
        var j := if i < at then i else i + 1;
        assert before[j] == h;
      }
      forall p, m | Holds(hs, p, m) && (p != pid || m !in names)
        ensures Holds(rest, p, m)
      {
        assert n in names && (m in init ==> m in names);
        WithoutHolds(before, at, p, m);
      }
    }
  }

  lemma OneClose(w: World, at: nat)
    requires Inv(w) && OnePer(w.k, w.handles) && Enabled(w, Close(at))
    ensures var t := Next(w, Close(at)); OnePer(t.k, t.handles)
  {
    hide HandleCount, Accounts, Pointers, Release;
    var t := Next(w, Close(at));
    ReleaseAccounts(w.k, w.handles, at);
    ReleaseFrame(w.k, w.handles[at].name);
    forall i | 0 <= i < |t.handles|
      ensures t.handles[i].name in Held(t.k, t.handles[i].pid)
    {
      var j := if i < at then i else i + 1;
      assert t.handles[i] == w.handles[j];
      assert w.handles[j].name in Held(w.k, w.handles[j].pid);
    }
  }

  lemma OneCleanup(w: World, pid: Pid, names: seq<Name>, expected: Birth)
    requires Inv(w) && OnePer(w.k, w.handles) && Enabled(w, Cleanup(pid, names, expected))
    ensures var t := Next(w, Cleanup(pid, names, expected)); OnePer(t.k, t.handles)
  {
    hide HandleCount, Accounts, Pointers, Release, ReleaseAll, GiveBackAll;
    var t := Next(w, Cleanup(pid, names, expected));
    if !Reused(w.k, pid, expected) {
      forall n | n in names
        ensures Holds(w.handles, pid, n)
      {
        assert n in Held(w.k, pid);
      }
      ReleaseAllOk(w.k, w.handles, pid, names);
      GiveBackAllOnce(w.handles, pid, names);
      forall i | 0 <= i < |t.handles|
        ensures t.handles[i].name in Held(t.k, t.handles[i].pid)
      {
        assert t.handles[i] in w.handles;
        var j :| 0 <= j < |w.handles| && w.handles[j] == t.handles[i];
        assert w.handles[j].name in Held(w.k, w.handles[j].pid);
      }
    }
  }

  lemma OneStep(w: World, ev: Event)
    requires Inv(w) && OnePer(w.k, w.handles) && Enabled(w, ev) && OpensOnce(w, ev)
    ensures var t := Next(w, ev); OnePer(t.k, t.handles)
  {
    if ev.Close? {
      OneClose(w, ev.at);
    } else if ev.Cleanup? {
      OneCleanup(w, ev.pid, ev.names, ev.expected);
    } else if ev.Create? || ev.OpenCurrent? {
      OneTake(w, ev);
    } else {
      assert forall pid :: Held(Next(w, ev).k, pid) == Held(w.k, pid);
    }
  }

  lemma OneTake(w: World, ev: Event)
    requires Inv(w) && OnePer(w.k, w.handles) && Enabled(w, ev) && OpensOnce(w, ev) && (ev.Create? || ev.OpenCurrent?)
    ensures var t := Next(w, ev); OnePer(t.k, t.handles)
  {
    hide HandleCount, Accounts, Pointers, Listed;
    var t := Next(w, ev);
    var h := t.handles[|w.handles|];
    forall i | 0 <= i < |w.handles|
      ensures w.handles[i].pid != h.pid || w.handles[i].name != h.name
    {
      assert w.handles[i] in w.handles && HandleOk(w, w.handles[i]);
    }
    forall i | 0 <= i < |t.handles|
      ensures t.handles[i].name in Held(t.k, t.handles[i].pid)
    {
      if i < |w.handles| {
        assert t.handles[i] == w.handles[i];
      }
    }
  }

  lemma {:induction false} SingleRunInv(w: World, evs: seq<Event>)
    requires Inv(w) && OnePer(w.k, w.handles) && SingleRun(w, evs)
    ensures Legal(w, evs) && Inv(Exec(w, evs)) && OnePer(Exec(w, evs).k, Exec(w, evs).handles)
    decreases |evs|
  {
    hide Inv, Next, Enabled, OnePer, OpensOnce;
    if evs != [] {
      StepKeepsInv(w, evs[0]);
      OneStep(w, evs[0]);
      SingleRunInv(Next(w, evs[0]), evs[1..]);
    }
  }

  lemma OneCount(w: World, n: Name)
    requires Inv(w) && OnePer(w.k, w.handles)
    ensures Count(w.k, n) == |Listing(w.k, n)|
  {
    hide HandleCount;
    CountingHolders(w, n);
    forall pid | pid in HolderPids(w.handles, n)
      ensures pid in Listing(w.k, n)
    {
      var i :| 0 <= i < |w.handles| && w.handles[i].name == n && w.handles[i].pid == pid;
      assert w.handles[i].name in Held(w.k, w.handles[i].pid);
    }
  }

  /** When no process ever holds a segment twice, the refcount is exactly the number of
      processes listed as holding it. */
  lemma RefcountEqualsListing(evs: seq<Event>, n: Name)
    requires SingleRun(Start(), evs)
    ensures Legal(Start(), evs)
    ensures var w := Exec(Start(), evs); Count(w.k, n) == |Listing(w.k, n)|
  {
    StartOk();
    SingleRunInv(Start(), evs);
    OneCount(Exec(Start(), evs), n);
  }

  /** One process, one segment, one handle, but an empty holder list. */
  function Unlisted(pid: Pid, birth: Birth, s: SchemaName, n: Name): World
  {
    World(Keys(map[n := 1], map[pid := {}], {}, map[n := s], map[s := n], map[pid := birth]),
          map[pid := birth], {(pid, birth)}, {n}, {}, {}, [Handle(pid, birth, n)])
  }

  lemma OpenTwice(pid: Pid, birth: Birth, s: SchemaName, n: Name) returns (w: World)
    ensures Legal(Start(), [Spawn(pid, birth), Create(pid, s, n, true), OpenCurrent(pid, s)])
    ensures w == Exec(Start(), [Spawn(pid, birth), Create(pid, s, n, true), OpenCurrent(pid, s)])
    ensures w == Unlisted(pid, birth, s, n).(k := w.k, handles := [Handle(pid, birth, n), Handle(pid, birth, n)])
    ensures w.k == Unlisted(pid, birth, s, n).k.(refcount := map[n := 2], pidSegments := map[pid := {n}])
  {
    hide Legal, Exec;
    var w1 := Next(Start(), Spawn(pid, birth));
    var w2 := Next(w1, Create(pid, s, n, true));
    w := Next(w2, OpenCurrent(pid, s));
    var evs := [Spawn(pid, birth), Create(pid, s, n, true), OpenCurrent(pid, s)];
    Prepend(w2, evs[2..], w);
    assert evs[1..][1..] == evs[2..];
    Prepend(w1, evs[1..], w);
    Prepend(Start(), evs, w);
    assert {n} + {n} == {n};
  }

  lemma CloseExtra(pid: Pid, birth: Birth, s: SchemaName, n: Name, w: World)
    requires w == Unlisted(pid, birth, s, n).(k := w.k, handles := [Handle(pid, birth, n), Handle(pid, birth, n)])
    requires w.k == Unlisted(pid, birth, s, n).k.(refcount := map[n := 2], pidSegments := map[pid := {n}])
    ensures Enabled(w, Close(1)) && Next(w, Close(1)) == Unlisted(pid, birth, s, n)
  {
    assert {n} - {n} == {};
    assert Without(w.handles, 1) == [Handle(pid, birth, n)];
    assert map[n := 2][n := 1] == map[n := 1];
    assert map[pid := {n}][pid := {}] == map[pid := {}];
  }

  lemma DieUnlisted(pid: Pid, birth: Birth, s: SchemaName, n: Name) returns (w: World)
    ensures Legal(Unlisted(pid, birth, s, n), [Die(pid, false), Cleanup(pid, [], birth)])
    ensures w == Exec(Unlisted(pid, birth, s, n), [Die(pid, false), Cleanup(pid, [], birth)])
    ensures w.alive == map[] && w.k.pidSegments == map[] && w.k.queue == {} && w.unlinked == {}
    ensures w.k.refcount == map[n := 1]
  {
    hide Legal, Exec;
    var w0 := Unlisted(pid, birth, s, n);
    var w1 := Next(w0, Die(pid, false));
    w := Next(w1, Cleanup(pid, [], birth));
    var evs := [Die(pid, false), Cleanup(pid, [], birth)];
    Prepend(w1, evs[1..], w);
    Prepend(w0, evs, w);
    assert (map[pid := birth] - {pid}).Keys == {};
    var none: set<Name> := {};
    assert (map[pid := none] - {pid}).Keys == {};
  }

  /** Re-opening a held segment and closing the extra handle takes the process off the
      holder list while it still holds the segment; if it then dies, cleanup finds nothing
      to release, and the counted segment has no listed holder and is never queued. */
  lemma ReopenLosesListing(pid: Pid, birth: Birth, s: SchemaName, n: Name)
    returns (evs: seq<Event>, held: World, w: World)
    ensures Legal(Start(), evs) && Exec(Start(), evs) == held
    ensures Live(held, Handle(pid, birth, n)) && Handle(pid, birth, n) in held.handles && Listing(held.k, n) == {}
    ensures Legal(held, [Die(pid, false), Cleanup(pid, [], birth)])
    ensures w == Exec(held, [Die(pid, false), Cleanup(pid, [], birth)])
    ensures Count(w.k, n) == 1 && w.alive == map[] && Listing(w.k, n) == {} && n !in w.k.queue && n !in w.unlinked
  {
    hide Legal, Exec;
    var twice := OpenTwice(pid, birth, s, n);
    var opens := [Spawn(pid, birth), Create(pid, s, n, true), OpenCurrent(pid, s)];
    CloseExtra(pid, birth, s, n, twice);
    held := Unlisted(pid, birth, s, n);
    evs := opens + [Close(1)];
    Extend(Start(), opens, Close(1));
    w := DieUnlisted(pid, birth, s, n);
  }

  lemma {:induction false} Extend(w: World, evs: seq<Event>, ev: Event)
    requires Legal(w, evs) && Enabled(Exec(w, evs), ev)
    ensures Legal(w, evs + [ev]) && Exec(w, evs + [ev]) == Next(Exec(w, evs), ev)
    decreases |evs|
  {
    hide Next, Enabled;
    if evs == [] {
      assert evs + [ev] == [ev];
      Prepend(w, [ev], Next(w, ev));
    } else {
      Extend(Next(w, evs[0]), evs[1..], ev);
      assert (evs + [ev])[1..] == evs[1..] + [ev];
    }
  }

  lemma Prepend(w: World, evs: seq<Event>, last: World)
    requires evs != [] && Enabled(w, evs[0])
    requires if |evs| == 1 then Next(w, evs[0]) == last
             else Legal(Next(w, evs[0]), evs[1..]) && Exec(Next(w, evs[0]), evs[1..]) == last
    ensures Legal(w, evs) && Exec(w, evs) == last
  {
    if |evs| == 1 {
      assert evs[1..] == [];
    }
  }
}
