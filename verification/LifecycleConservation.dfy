/** Nothing leaks: in every run each created segment is in exactly one place, and it is on its
    way to the unlink exactly when nobody holds it. */
module LifecycleConservation {
  import opened Lifecycle

  /** Every segment ever created is counted, queued, taken from the queue or unlinked, and only
      one of the four; the sidetable knows exactly the counted ones. */
  ghost predicate Conserved(w: World)
  {
    && w.created == w.k.refcount.Keys + w.k.queue + w.popped + w.unlinked
    && w.k.refcount.Keys !! w.k.queue !! w.popped !! w.unlinked
    && w.k.sidetable.Keys == w.k.refcount.Keys
  }

  /** The part of it that a release can change. */
  ghost predicate Split(k: Keys, all: set<Name>)
  {
    && k.refcount.Keys + k.queue == all && k.refcount.Keys !! k.queue
    && k.sidetable.Keys == k.refcount.Keys
  }

  lemma ReleaseSplit(k: Keys, n: Name, all: set<Name>)
    requires Split(k, all) && n in k.refcount
    ensures Split(Release(k, n), all)
    ensures forall m :: m != n && m in k.refcount ==> m in Release(k, n).refcount
  {
    var r := Release(k, n);
    if Count(k, n) > 1 {
      assert r.refcount.Keys == k.refcount.Keys;
    } else {
      assert r.refcount.Keys == k.refcount.Keys - {n} && r.sidetable.Keys == k.sidetable.Keys - {n};
    }
  }

  lemma {:induction false} ReleaseAllSplit(k: Keys, names: seq<Name>, all: set<Name>)
    requires Split(k, all) && forall n :: n in names ==> n in k.refcount
    requires forall i, j :: 0 <= i < j < |names| ==> names[i] != names[j]
    ensures Split(ReleaseAll(k, names), all)
    ensures forall m :: m !in names && m in k.refcount ==> m in ReleaseAll(k, names).refcount
  {
    hide Split, Release;
    if names != [] {
      var init, n := names[..|names| - 1], names[|names| - 1];
      ReleaseAllSplit(k, init, all);
      assert n !in init && n in names;
      ReleaseSplit(ReleaseAll(k, init), n, all);
    }
  }

  lemma StepConserves(w: World, ev: Event)
    requires Inv(w) && Conserved(w) && Enabled(w, ev)
    ensures Conserved(Next(w, ev))
  {
    hide HandleCount, GiveBackAll, Release, ReleaseAll, Listed;
    var t := Next(w, ev);
    var all := w.k.refcount.Keys + w.k.queue;
    match ev {
      case Close(at) =>
        CountPositive(w.handles, at);
        assert Count(w.k, w.handles[at].name) == HandleCount(w.handles, w.handles[at].name);
        ReleaseSplit(w.k, w.handles[at].name, all);
        assert Split(t.k, all);
      case Cleanup(pid, names, expected) =>
        if !Reused(w.k, pid, expected) {
          HeldIsCounted(w, pid);
          ReleaseAllSplit(w.k, names, all);
          assert Split(t.k, all);
        }
      case Create(_, _, n, _) =>
        assert t.k.refcount.Keys == w.k.refcount.Keys + {n} && t.k.sidetable.Keys == w.k.sidetable.Keys + {n};
      case OpenCurrent(_, s) =>
        assert s in w.k.current && t.k.refcount.Keys == w.k.refcount.Keys;
      case _ =>
    }
  }

  lemma HeldIsCounted(w: World, pid: Pid)
    requires Inv(w)
    ensures forall n :: n in Held(w.k, pid) ==> n in w.k.refcount
  {
    hide HandleCount, Pointers, HandlesOk, Retired;
    forall n | n in Held(w.k, pid)
      ensures n in w.k.refcount
    {
      var i :| 0 <= i < |w.handles| && w.handles[i].pid == pid && w.handles[i].name == n;
      CountPositive(w.handles, i);
      assert Count(w.k, n) == HandleCount(w.handles, n);
    }
  }

  lemma {:induction false} RunConserves(w: World, evs: seq<Event>)
    requires Inv(w) && Conserved(w) && Legal(w, evs)
    ensures Conserved(Exec(w, evs))
    decreases |evs|
  {
    hide Inv, Next, Enabled, Conserved;
    if evs != [] {
      StepKeepsInv(w, evs[0]);
      StepConserves(w, evs[0]);
      RunConserves(Next(w, evs[0]), evs[1..]);
    }
  }

  /** In every run, a created segment is queued, taken from the queue or unlinked if and only
      if no handle on it is outstanding; otherwise it is counted and filed under its schema. */
  lemma NothingLeaks(evs: seq<Event>, n: Name)
    requires Legal(Start(), evs)
    ensures var w := Exec(Start(), evs);
            && Conserved(w)
            && (n in w.created ==>
                  (n in w.k.queue + w.popped + w.unlinked <==> forall h :: h in w.handles ==> h.name != n))
  {
    hide HandleCount, Listed, Pointers, HandlesOk;
    StartOk();
    RunConserves(Start(), evs);
    RunKeepsInv(Start(), evs);
    var w := Exec(Start(), evs);
    assert Count(w.k, n) == HandleCount(w.handles, n);
    if h :| h in w.handles && h.name == n {
      var i :| 0 <= i < |w.handles| && w.handles[i] == h;
      CountPositive(w.handles, i);
    } else {
      NoHandles(w.handles, n);
    }
  }

  lemma {:induction false} NoHandles(hs: seq<Handle>, n: Name)
    requires forall h :: h in hs ==> h.name != n
    ensures HandleCount(hs, n) == 0
  {
    if hs != [] {
      NoHandles(hs[..|hs| - 1], n);
    }
  }

  /** Once every handle is given back and the queue has been worked off, every segment ever
      created is unlinked and no key is left behind. */
  lemma AllGivenBack(evs: seq<Event>)
    requires Legal(Start(), evs)
    requires var w := Exec(Start(), evs); w.handles == [] && w.k.queue == {} && w.popped == {}
    ensures var w := Exec(Start(), evs);
            && w.unlinked == w.created
            && w.k.refcount == map[] && w.k.sidetable == map[] && w.k.current == map[]
            && forall pid :: Held(w.k, pid) == {}
  {
    hide HandlesOk, Retired;
    StartOk();
    RunConserves(Start(), evs);
    RunKeepsInv(Start(), evs);
    var w := Exec(Start(), evs);
    assert w.k.refcount == map[] by {
      forall n
        ensures n !in w.k.refcount
      {
        assert Count(w.k, n) == HandleCount(w.handles, n);
      }
    }
    assert w.k.sidetable.Keys == {};
    forall s
      ensures s !in w.k.current
    {
    }
    assert w.k.current == map[];
    forall pid
      ensures Held(w.k, pid) == {}
    {
      assert forall n :: n in Held(w.k, pid) ==> Holds(w.handles, pid, n);
    }
  }
}
