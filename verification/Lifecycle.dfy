/** Segment lifecycle: refcounts, per-process holdings, the current keys and the
    cleanup queue, with every Redis script or MULTI pipeline as one step. */
module Lifecycle {

  type Name = nat
  type Pid = nat
  type Birth = nat
  type SchemaName = nat

  // ---------------------------------------------------------------------------
  // The Redis keys and the scripts on them
  // ---------------------------------------------------------------------------

  datatype Keys = Keys(
    refcount: map<Name, int>,
    pidSegments: map<Pid, set<Name>>,
    queue: set<Name>,
    sidetable: map<Name, SchemaName>,
    current: map<SchemaName, Name>,
    heartbeats: map<Pid, Birth>)

  function Held(k: Keys, pid: Pid): set<Name>
  {
    if pid in k.pidSegments then k.pidSegments[pid] else {}
  }

  function Count(k: Keys, n: Name): int
  {
    if n in k.refcount then k.refcount[n] else 0
  }

  /** DECR, and at zero: queue for unlink, drop the key, clear the sidetable and, if it
      still points here, the schema's current key. */
  function Release(k: Keys, n: Name): Keys
  {
    var left := Count(k, n) - 1;
    if left > 0 then k.(refcount := k.refcount[n := left])
    else
      var gone := k.(refcount := k.refcount - {n}, queue := k.queue + {n});
      if n !in k.sidetable then gone
      else
        var s := k.sidetable[n];
        gone.(sidetable := k.sidetable - {n},
              current := if s in k.current && k.current[s] == n then k.current - {s} else k.current)
  }

  function Closed(k: Keys, pid: Pid, n: Name): Keys
  {
    var r := Release(k, n);
    if pid in r.pidSegments then r.(pidSegments := r.pidSegments[pid := r.pidSegments[pid] - {n}]) else r
  }

  function ReleaseAll(k: Keys, names: seq<Name>): Keys
  {
    if names == [] then k else Release(ReleaseAll(k, names[..|names| - 1]), names[|names| - 1])
  }

  predicate Reused(k: Keys, pid: Pid, expected: Birth)
  {
    pid in k.heartbeats && k.heartbeats[pid] != expected
  }

  function CleanedUp(k: Keys, pid: Pid, names: seq<Name>, expected: Birth): Keys
  {
    if Reused(k, pid, expected) then k
    else
      var r := ReleaseAll(k, names);
      r.(pidSegments := r.pidSegments - {pid}, heartbeats := r.heartbeats - {pid})
  }

  function Beaten(k: Keys, pid: Pid, birth: Birth): Keys
  {
    k.(heartbeats := k.heartbeats[pid := birth])
  }

  function Created(k: Keys, pid: Pid, s: SchemaName, n: Name, setCurrent: bool): Keys
  {
    k.(refcount := k.refcount[n := 1], pidSegments := k.pidSegments[pid := Held(k, pid) + {n}],
       sidetable := k.sidetable[n := s], current := if setCurrent then k.current[s := n] else k.current)
  }

  function Opened(k: Keys, pid: Pid, n: Name): Keys
  {
    k.(refcount := k.refcount[n := Count(k, n) + 1], pidSegments := k.pidSegments[pid := Held(k, pid) + {n}])
  }

  function Flipped(k: Keys, s: SchemaName, expectedOld: Name, new_: Name): Keys
  {
    if s in k.current && k.current[s] == expectedOld then k.(current := k.current[s := new_]) else k
  }

  // ---------------------------------------------------------------------------
  // Processes and runs
  // ---------------------------------------------------------------------------

  /** One successful create or open that has not been given back, by whom. */
  datatype Handle = Handle(pid: Pid, birth: Birth, name: Name)

  datatype World = World(
    k: Keys,
    alive: map<Pid, Birth>,
    born: set<(Pid, Birth)>,
    created: set<Name>,
    popped: set<Name>,
    unlinked: set<Name>,
    handles: seq<Handle>)

  datatype Event =
    | Spawn(pid: Pid, birth: Birth)
    | Beat(pid: Pid)
    | Create(pid: Pid, s: SchemaName, n: Name, setCurrent: bool)
    | OpenCurrent(pid: Pid, s: SchemaName)
    | Close(at: nat)
    | Flip(at: nat, s: SchemaName, expectedOld: Name)
    | Die(pid: Pid, clean: bool)
    | Cleanup(pid: Pid, names: seq<Name>, expected: Birth)
    | Drain(taken: set<Name>)
    | Unlink(n: Name)

  predicate Live(w: World, h: Handle)
  {
    h.pid in w.alive && w.alive[h.pid] == h.birth
  }

  ghost predicate Enabled(w: World, ev: Event)
  {
    match ev
    case Spawn(pid, birth) => pid !in w.alive && (pid, birth) !in w.born
    case Beat(pid) => pid in w.alive
    case Create(pid, s, n, setCurrent) => pid in w.alive && n !in w.created
    case OpenCurrent(pid, s) => pid in w.alive && s in w.k.current
    case Close(at) => at < |w.handles| && Live(w, w.handles[at])
    case Flip(at, s, expectedOld) =>
      at < |w.handles| && Live(w, w.handles[at])
      && w.handles[at].name in w.k.sidetable && w.k.sidetable[w.handles[at].name] == s
    case Die(pid, clean) => pid in w.alive
    case Cleanup(pid, names, expected) =>
      && !(pid in w.alive && w.alive[pid] == expected)
      && (forall n :: n in names <==> n in Held(w.k, pid))
      && (forall i, j :: 0 <= i < j < |names| ==> names[i] != names[j])
    case Drain(taken) => taken <= w.k.queue
    case Unlink(n) => n in w.popped
  }

  function Without(hs: seq<Handle>, at: nat): seq<Handle>
    requires at < |hs|
  {
    hs[..at] + hs[at + 1..]
  }

  /** The outstanding handles after one of `pid`'s handles on `n` is given back. */
  function GiveBack(hs: seq<Handle>, pid: Pid, n: Name): seq<Handle>
  {
    if hs == [] then []
    else if hs[|hs| - 1].pid == pid && hs[|hs| - 1].name == n then hs[..|hs| - 1]
    else GiveBack(hs[..|hs| - 1], pid, n) + [hs[|hs| - 1]]
  }

  function GiveBackAll(hs: seq<Handle>, pid: Pid, names: seq<Name>): seq<Handle>
  {
    if names == [] then hs else GiveBack(GiveBackAll(hs, pid, names[..|names| - 1]), pid, names[|names| - 1])
  }

  ghost function Next(w: World, ev: Event): World
    requires Enabled(w, ev)
  {
    match ev
    case Spawn(pid, birth) => w.(alive := w.alive[pid := birth], born := w.born + {(pid, birth)})
    case Beat(pid) => w.(k := Beaten(w.k, pid, w.alive[pid]))
    case Create(pid, s, n, setCurrent) =>
      w.(k := Created(Beaten(w.k, pid, w.alive[pid]), pid, s, n, setCurrent), created := w.created + {n},
         handles := w.handles + [Handle(pid, w.alive[pid], n)])
    case OpenCurrent(pid, s) =>
      w.(k := Opened(Beaten(w.k, pid, w.alive[pid]), pid, w.k.current[s]),
         handles := w.handles + [Handle(pid, w.alive[pid], w.k.current[s])])
    case Close(at) =>
      w.(k := Closed(w.k, w.handles[at].pid, w.handles[at].name), handles := Without(w.handles, at))
    case Flip(at, s, expectedOld) => w.(k := Flipped(w.k, s, expectedOld, w.handles[at].name))
    case Die(pid, clean) =>
      w.(alive := w.alive - {pid}, k := if clean then w.k.(heartbeats := w.k.heartbeats - {pid}) else w.k)
    case Cleanup(pid, names, expected) =>
      w.(k := CleanedUp(w.k, pid, names, expected),
         handles := if Reused(w.k, pid, expected) then w.handles else GiveBackAll(w.handles, pid, names))
    case Drain(taken) => w.(k := w.k.(queue := w.k.queue - taken), popped := w.popped + taken)
    case Unlink(n) => w.(popped := w.popped - {n}, unlinked := w.unlinked + {n})
  }

  function Start(): World
  {
    World(Keys(map[], map[], {}, map[], map[], map[]), map[], {}, {}, {}, {}, [])
  }

  ghost predicate Legal(w: World, evs: seq<Event>)
    decreases |evs|
  {
    evs == [] || (Enabled(w, evs[0]) && Legal(Next(w, evs[0]), evs[1..]))
  }

  ghost function Exec(w: World, evs: seq<Event>): World
    requires Legal(w, evs)
    decreases |evs|
  {
    if evs == [] then w else Exec(Next(w, evs[0]), evs[1..])
  }

  // ---------------------------------------------------------------------------
  // The invariant
  // ---------------------------------------------------------------------------

  /** Outstanding handles on `n`. */
  function HandleCount(hs: seq<Handle>, n: Name): nat
  {
    if hs == [] then 0 else HandleCount(hs[..|hs| - 1], n) + (if hs[|hs| - 1].name == n then 1 else 0)
  }

  predicate Holds(hs: seq<Handle>, pid: Pid, n: Name)
  {
    exists i :: 0 <= i < |hs| && hs[i].pid == pid && hs[i].name == n
  }

  /** The refcount is exactly the number of outstanding handles. */
  ghost predicate Accounts(k: Keys, hs: seq<Handle>)
  {
    && (forall n {:trigger n in k.refcount} :: n in k.refcount ==> k.refcount[n] > 0)
    && (forall n {:trigger Count(k, n)} {:trigger HandleCount(hs, n)} :: Count(k, n) == HandleCount(hs, n))
  }

  /** A current segment is counted, and known to the sidetable under its schema. */
  ghost predicate Pointers(k: Keys)
  {
    forall s {:trigger s in k.current} :: s in k.current ==>
      k.current[s] in k.refcount && k.current[s] in k.sidetable && k.sidetable[k.current[s]] == s
  }

  /** Every listed holding has a handle behind it. */
  ghost predicate Listed(k: Keys, hs: seq<Handle>)
  {
    forall pid, n {:trigger n in Held(k, pid)} :: n in Held(k, pid) ==> Holds(hs, pid, n)
  }

  /** A live process with a handle has its own heartbeat on record. */
  ghost predicate HandleOk(w: World, h: Handle)
  {
    && (h.pid, h.birth) in w.born && h.name in w.created
    && (Live(w, h) ==> h.pid in w.k.heartbeats && w.k.heartbeats[h.pid] == h.birth)
  }

  ghost predicate HandlesOk(w: World)
  {
    && (forall h {:trigger h in w.handles} :: h in w.handles ==> HandleOk(w, h))
    && (forall pid {:trigger pid in w.alive} :: pid in w.alive ==> (pid, w.alive[pid]) in w.born)
  }

  /** Queued, popped and unlinked segments are out of use for good. */
  ghost predicate Retired(w: World)
  {
    && (forall n {:trigger n in w.k.queue} :: n in w.k.queue ==> n !in w.k.refcount && n in w.created)
    && (forall n {:trigger n in w.popped} :: n in w.popped ==> n !in w.k.refcount && n in w.created)
    && (forall n {:trigger n in w.unlinked} :: n in w.unlinked ==> n !in w.k.refcount && n in w.created)
    && (forall n {:trigger n in w.k.refcount} :: n in w.k.refcount ==> n in w.created)
  }

  ghost predicate Inv(w: World)
  {
    Accounts(w.k, w.handles) && Pointers(w.k) && Listed(w.k, w.handles) && HandlesOk(w) && Retired(w)
  }

  // ---------------------------------------------------------------------------
  // Handles
  // ---------------------------------------------------------------------------

  lemma {:induction false} CountAppend(hs: seq<Handle>, h: Handle, n: Name)
    ensures HandleCount(hs + [h], n) == HandleCount(hs, n) + (if h.name == n then 1 else 0)
  {
    assert (hs + [h])[..|hs|] == hs;
  }

  lemma {:induction false} CountWithout(hs: seq<Handle>, at: nat, n: Name)
    requires at < |hs|
    ensures HandleCount(Without(hs, at), n) == HandleCount(hs, n) - (if hs[at].name == n then 1 else 0)
  {
    var init, last := hs[..|hs| - 1], hs[|hs| - 1];
    if at < |hs| - 1 {
      CountWithout(init, at, n);
      assert Without(hs, at) == Without(init, at) + [last];
      CountAppend(Without(init, at), last, n);
    } else {
      assert Without(hs, at) == init;
    }
  }

  lemma {:induction false} CountPositive(hs: seq<Handle>, i: nat)
    requires i < |hs|
    ensures HandleCount(hs, hs[i].name) > 0
  {
    CountWithout(hs, i, hs[i].name);
  }

  lemma {:induction false} GiveBackIs(hs: seq<Handle>, pid: Pid, n: Name) returns (at: nat)
    requires Holds(hs, pid, n)
    ensures at < |hs| && hs[at].pid == pid && hs[at].name == n && GiveBack(hs, pid, n) == Without(hs, at)
  {
    var init, last := hs[..|hs| - 1], hs[|hs| - 1];
    if last.pid == pid && last.name == n {
      at := |hs| - 1;
    } else {
      assert Holds(init, pid, n) by {
        var i :| 0 <= i < |hs| && hs[i].pid == pid && hs[i].name == n;
        assert init[i].pid == pid;
      }
      at := GiveBackIs(init, pid, n);
      assert Without(hs, at) == Without(init, at) + [last];
    }
  }

  /** Giving back one handle leaves every other holding. */
  lemma WithoutHolds(hs: seq<Handle>, at: nat, pid: Pid, n: Name)
    requires at < |hs| && Holds(hs, pid, n) && (hs[at].pid != pid || hs[at].name != n)
    ensures Holds(Without(hs, at), pid, n)
  {
    var i :| 0 <= i < |hs| && hs[i].pid == pid && hs[i].name == n;
    var j := if i < at then i else i - 1;
    assert Without(hs, at)[j] == hs[i];
  }

  lemma WithoutMembers(hs: seq<Handle>, at: nat)
    requires at < |hs|
    ensures forall h :: h in Without(hs, at) ==> h in hs
  {
  }

  // ---------------------------------------------------------------------------
  // Release
  // ---------------------------------------------------------------------------

  lemma ReleaseCount(k: Keys, n: Name, m: Name)
    requires Count(k, n) > 0
    ensures Count(Release(k, n), m) == Count(k, m) - (if m == n then 1 else 0)
  {
  }

  /** One DECR with its bookkeeping, against one handle given back. */
  lemma ReleaseAccounts(k: Keys, hs: seq<Handle>, at: nat)
    requires at < |hs| && Accounts(k, hs)
    ensures Count(k, hs[at].name) > 0 && Accounts(Release(k, hs[at].name), Without(hs, at))
  {
    hide HandleCount;
    var n := hs[at].name;
    var r := Release(k, n);
    CountPositive(hs, at);
    assert Count(k, n) == HandleCount(hs, n);
    forall m
      ensures Count(r, m) == HandleCount(Without(hs, at), m)
    {
      CountWithout(hs, at, m);
      ReleaseCount(k, n, m);
      assert Count(k, m) == HandleCount(hs, m);
    }
    forall m | m in r.refcount
      ensures r.refcount[m] > 0
    {
      assert m in k.refcount;
    }
  }

  lemma ReleasePointers(k: Keys, n: Name)
    requires Pointers(k) && Count(k, n) > 0
    ensures Pointers(Release(k, n))
  {
    var r := Release(k, n);
    forall s | s in r.current
      ensures r.current[s] in r.refcount && r.current[s] in r.sidetable && r.sidetable[r.current[s]] == s
    {
      assert s in k.current && r.current[s] == k.current[s];
    }
  }

  /** What a release leaves alone. */
  lemma ReleaseFrame(k: Keys, n: Name)
    requires Count(k, n) > 0
    ensures var r := Release(k, n);
            && r.pidSegments == k.pidSegments && r.heartbeats == k.heartbeats
            && r.refcount.Keys <= k.refcount.Keys && k.queue <= r.queue <= k.queue + {n}
            && (r.queue != k.queue ==> n !in r.refcount)
            && n in k.refcount
  {
  }

  lemma {:induction false} ReleaseAllOk(k: Keys, hs: seq<Handle>, pid: Pid, names: seq<Name>)
    requires Accounts(k, hs) && Pointers(k)
    requires forall n :: n in names ==> Holds(hs, pid, n)
    requires forall i, j {:trigger names[i], names[j]} :: 0 <= i < j < |names| ==> names[i] != names[j]
    ensures var r, rest := ReleaseAll(k, names), GiveBackAll(hs, pid, names);
            && Accounts(r, rest) && Pointers(r)
            && r.pidSegments == k.pidSegments && r.heartbeats == k.heartbeats
            && r.refcount.Keys <= k.refcount.Keys && k.queue <= r.queue
            && (forall n :: n in r.queue && n !in k.queue ==> n !in r.refcount && n in k.refcount)
            && (forall h :: h in rest ==> h in hs)
            && (forall p, n {:trigger Holds(rest, p, n)} :: Holds(hs, p, n) && (p != pid || n !in names) ==>
                  Holds(rest, p, n))
  {
    hide HandleCount, Release, Accounts, Pointers, Holds, GiveBack;
    if names != [] {
      var init, n := names[..|names| - 1], names[|names| - 1];
      ReleaseAllOk(k, hs, pid, init);
      var r, rest := ReleaseAll(k, init), GiveBackAll(hs, pid, init);
      assert n !in init;
      assert Holds(rest, pid, n);
      var at := GiveBackIs(rest, pid, n);
      ReleaseAccounts(r, rest, at);
      ReleasePointers(r, n);
      ReleaseFrame(r, n);
      WithoutMembers(rest, at);
      forall p, m | Holds(hs, p, m) && (p != pid || m !in names)
        ensures Holds(GiveBackAll(hs, pid, names), p, m)
      {
        assert n in names && (m in init ==> m in names);
        WithoutHolds(rest, at, p, m);
      }
    }
  }

  // ---------------------------------------------------------------------------
  // Steps
  // ---------------------------------------------------------------------------

  lemma StepProcess(w: World, ev: Event)
    requires Inv(w) && Enabled(w, ev) && (ev.Spawn? || ev.Beat? || ev.Die?)
    ensures Inv(Next(w, ev))
  {
    hide HandleCount;
    var t := Next(w, ev);
    assert Accounts(t.k, t.handles) by {
      forall n
        ensures Count(t.k, n) == HandleCount(t.handles, n)
      {
        assert Count(w.k, n) == HandleCount(w.handles, n);
      }
    }
    assert Listed(t.k, t.handles) by {
      assert forall pid :: Held(t.k, pid) == Held(w.k, pid);
    }
    forall h | h in t.handles
      ensures HandleOk(t, h)
    {
      assert HandleOk(w, h);
    }
  }

  lemma HoldsAppend(hs: seq<Handle>, h: Handle)
    ensures Holds(hs + [h], h.pid, h.name)
    ensures forall pid, n :: Holds(hs, pid, n) ==> Holds(hs + [h], pid, n)
  {
    var now := hs + [h];
    assert now[|hs|] == h;
    forall pid, n | Holds(hs, pid, n)
      ensures Holds(now, pid, n)
    {
      var i :| 0 <= i < |hs| && hs[i].pid == pid && hs[i].name == n;
      assert now[i] == hs[i];
    }
  }

  lemma StepTake(w: World, ev: Event)
    requires Inv(w) && Enabled(w, ev) && (ev.Create? || ev.OpenCurrent?)
    ensures Inv(Next(w, ev))
  {
    hide HandleCount, Holds;
    var t := Next(w, ev);
    var h := t.handles[|w.handles|];
    HoldsAppend(w.handles, h);
    assert Accounts(t.k, t.handles) by {
      if ev.Create? {
        assert h.name !in w.k.refcount;
      }
      forall n
        ensures Count(t.k, n) == HandleCount(t.handles, n)
      {
        assert Count(w.k, n) == HandleCount(w.handles, n);
        CountAppend(w.handles, h, n);
      }
    }
    assert Listed(t.k, t.handles) by {
      forall pid, n | n in Held(t.k, pid)
        ensures Holds(t.handles, pid, n)
      {
        assert n in Held(w.k, pid) || (pid == h.pid && n == h.name);
      }
    }
    forall g | g in t.handles
      ensures HandleOk(t, g)
    {
      if g != h {
        assert g in w.handles && HandleOk(w, g);
      }
    }
  }

  lemma StepClose(w: World, at: nat)
    requires Inv(w) && Enabled(w, Close(at))
    ensures Inv(Next(w, Close(at)))
  {
    hide HandleCount, Holds, Release, Accounts, Pointers;
    var t := Next(w, Close(at));
    var pid, n := w.handles[at].pid, w.handles[at].name;
    var r := Release(w.k, n);
    ReleaseAccounts(w.k, w.handles, at);
    ReleasePointers(w.k, n);
    ReleaseFrame(w.k, n);
    SameCounts(r, t.k, t.handles);
    assert Listed(t.k, t.handles) by {
      forall p, m | m in Held(t.k, p)
        ensures Holds(t.handles, p, m)
      {
        assert m in Held(w.k, p) && (p != pid || m != n);
        WithoutHolds(w.handles, at, p, m);
      }
    }
    WithoutMembers(w.handles, at);
    forall h | h in t.handles
      ensures HandleOk(t, h)
    {
      assert HandleOk(w, h);
    }
    assert HandleOk(w, w.handles[at]) by { assert w.handles[at] in w.handles; }
  }

  /** Accounting and current keys do not look at the per-process sets. */
  lemma SameCounts(k: Keys, l: Keys, hs: seq<Handle>)
    requires l == k.(pidSegments := l.pidSegments, heartbeats := l.heartbeats)
    ensures Accounts(k, hs) ==> Accounts(l, hs)
    ensures Pointers(k) ==> Pointers(l)
  {
    hide HandleCount;
    if Accounts(k, hs) {
      forall n
        ensures Count(l, n) == HandleCount(hs, n)
      {
        assert Count(k, n) == HandleCount(hs, n);
      }
    }
  }

  lemma StepFlip(w: World, at: nat, s: SchemaName, expectedOld: Name)
    requires Inv(w) && Enabled(w, Flip(at, s, expectedOld))
    ensures Inv(Next(w, Flip(at, s, expectedOld)))
  {
    hide HandleCount, Holds;
    var t := Next(w, Flip(at, s, expectedOld));
    CountPositive(w.handles, at);
    assert Count(w.k, w.handles[at].name) == HandleCount(w.handles, w.handles[at].name);
    assert Accounts(t.k, t.handles) by {
      forall n
        ensures Count(t.k, n) == HandleCount(t.handles, n)
      {
        assert Count(w.k, n) == HandleCount(w.handles, n);
      }
    }
    assert forall pid :: Held(t.k, pid) == Held(w.k, pid);
    forall h | h in t.handles
      ensures HandleOk(t, h)
    {
      assert HandleOk(w, h);
    }
  }

  lemma StepCleanup(w: World, pid: Pid, names: seq<Name>, expected: Birth)
    requires Inv(w) && Enabled(w, Cleanup(pid, names, expected))
    ensures Inv(Next(w, Cleanup(pid, names, expected)))
  {
    hide HandleCount, Holds, Release, ReleaseAll, GiveBackAll, Accounts, Pointers;
    var t := Next(w, Cleanup(pid, names, expected));
    if !Reused(w.k, pid, expected) {
      forall n | n in names
        ensures Holds(w.handles, pid, n)
      {
        assert n in Held(w.k, pid);
      }
      ReleaseAllOk(w.k, w.handles, pid, names);
      SameCounts(ReleaseAll(w.k, names), t.k, t.handles);
      assert Listed(t.k, t.handles) by {
        forall p, m | m in Held(t.k, p)
          ensures Holds(t.handles, p, m)
        {
          assert m in Held(w.k, p) && p != pid;
        }
      }
      forall h | h in t.handles
        ensures HandleOk(t, h)
      {
        assert HandleOk(w, h);
      }
    }
  }

  lemma StepDrain(w: World, ev: Event)
    requires Inv(w) && Enabled(w, ev) && (ev.Drain? || ev.Unlink?)
    ensures Inv(Next(w, ev))
  {
    hide HandleCount, Holds;
    var t := Next(w, ev);
    assert Accounts(t.k, t.handles) by {
      forall n
        ensures Count(t.k, n) == HandleCount(t.handles, n)
      {
        assert Count(w.k, n) == HandleCount(w.handles, n);
      }
    }
    assert forall pid :: Held(t.k, pid) == Held(w.k, pid);
    forall h | h in t.handles
      ensures HandleOk(t, h)
    {
      assert HandleOk(w, h);
    }
  }

  lemma StepKeepsInv(w: World, ev: Event)
    requires Inv(w) && Enabled(w, ev)
    ensures Inv(Next(w, ev))
  {
    hide Inv, Next;
    match ev {
      case Close(at) => StepClose(w, at);
      case Flip(at, s, expectedOld) => StepFlip(w, at, s, expectedOld);
      case Cleanup(pid, names, expected) => StepCleanup(w, pid, names, expected);
      case Create(_, _, _, _) => StepTake(w, ev);
      case OpenCurrent(_, _) => StepTake(w, ev);
      case Drain(_) => StepDrain(w, ev);
      case Unlink(_) => StepDrain(w, ev);
      case _ => StepProcess(w, ev);
    }
  }

  lemma {:induction false} RunKeepsInv(w: World, evs: seq<Event>)
    requires Inv(w) && Legal(w, evs)
    ensures Inv(Exec(w, evs))
    decreases |evs|
  {
    hide Inv, Next, Enabled;
    if evs != [] {
      StepKeepsInv(w, evs[0]);
      RunKeepsInv(Next(w, evs[0]), evs[1..]);
    }
  }

  lemma StartOk()
    ensures Inv(Start())
  {
  }

  // ---------------------------------------------------------------------------
  // What every run guarantees
  // ---------------------------------------------------------------------------

  /** The processes whose held set lists `n`. */
  ghost function Listing(k: Keys, n: Name): set<Pid>
  {
    set pid | pid in k.pidSegments && n in k.pidSegments[pid]
  }

  /** The processes with an outstanding handle on `n`. */
  function HolderPids(hs: seq<Handle>, n: Name): set<Pid>
  {
    set i | 0 <= i < |hs| && hs[i].name == n :: hs[i].pid
  }

  lemma {:induction false} PidsAtMostHandles(hs: seq<Handle>, n: Name)
    ensures |HolderPids(hs, n)| <= HandleCount(hs, n)
    ensures |HolderPids(hs, n)| == HandleCount(hs, n) <==>
            forall i, j {:trigger hs[i], hs[j]} :: 0 <= i < j < |hs| && hs[i].name == n && hs[j].name == n ==>
              hs[i].pid != hs[j].pid
  {
    if hs != [] {
      var init, last := hs[..|hs| - 1], hs[|hs| - 1];
      PidsAtMostHandles(init, n);
      assert forall i :: 0 <= i < |init| ==> init[i] == hs[i];
      if last.name == n {
        assert HolderPids(hs, n) == HolderPids(init, n) + {last.pid};
        if last.pid in HolderPids(init, n) {
          var i :| 0 <= i < |init| && init[i].name == n && init[i].pid == last.pid;
          assert hs[i].pid == hs[|hs| - 1].pid;
          assert HolderPids(hs, n) == HolderPids(init, n);
        } else {
          assert forall i :: 0 <= i < |init| && init[i].name == n ==> init[i].pid in HolderPids(init, n);
        }
      } else {
        assert HolderPids(hs, n) == HolderPids(init, n);
      }
    }
  }

  /** In every run the refcount of a segment is its number of outstanding handles, which is
      at least the number of processes listed as holding it. It equals that number exactly
      when every outstanding handle belongs to a different process and is listed. */
  lemma RefcountCoversHolders(evs: seq<Event>, n: Name)
    requires Legal(Start(), evs)
    ensures var w := Exec(Start(), evs);
            && Count(w.k, n) == HandleCount(w.handles, n)
            && Listing(w.k, n) <= HolderPids(w.handles, n)
            && |Listing(w.k, n)| <= Count(w.k, n)
            && (|Listing(w.k, n)| == Count(w.k, n) <==>
                  HolderPids(w.handles, n) == Listing(w.k, n)
                  && forall i, j {:trigger w.handles[i], w.handles[j]} ::
                       0 <= i < j < |w.handles| && w.handles[i].name == n && w.handles[j].name == n
                       ==> w.handles[i].pid != w.handles[j].pid)
  {
    StartOk();
    RunKeepsInv(Start(), evs);
    var w := Exec(Start(), evs);
    CountingHolders(w, n);
  }

  lemma SubsetSize<T>(a: set<T>, b: set<T>)
    requires a <= b
    ensures |a| <= |b| && (|a| == |b| ==> a == b)
  {
    assert b == a + (b - a);
    assert |b| == |a| + |b - a|;
  }

  lemma CountingHolders(w: World, n: Name)
    requires Inv(w)
    ensures Count(w.k, n) == HandleCount(w.handles, n)
    ensures Listing(w.k, n) <= HolderPids(w.handles, n)
    ensures |Listing(w.k, n)| <= Count(w.k, n)
    ensures |Listing(w.k, n)| == Count(w.k, n) <==>
              HolderPids(w.handles, n) == Listing(w.k, n)
              && forall i, j {:trigger w.handles[i], w.handles[j]} ::
                   0 <= i < j < |w.handles| && w.handles[i].name == n && w.handles[j].name == n
                   ==> w.handles[i].pid != w.handles[j].pid
  {
    hide HandleCount;
    PidsAtMostHandles(w.handles, n);
    assert Count(w.k, n) == HandleCount(w.handles, n);
    forall pid | pid in Listing(w.k, n)
      ensures pid in HolderPids(w.handles, n)
    {
      assert n in Held(w.k, pid);
      var i :| 0 <= i < |w.handles| && w.handles[i].pid == pid && w.handles[i].name == n;
    }
    SubsetSize(Listing(w.k, n), HolderPids(w.handles, n));
  }

  /** A queued, popped or unlinked segment has no live holder, and no schema points to it. */
  lemma RetiredHasNoHolder(evs: seq<Event>, n: Name)
    requires Legal(Start(), evs)
    ensures var w := Exec(Start(), evs);
            n in w.k.queue + w.popped + w.unlinked ==>
              && (forall i :: 0 <= i < |w.handles| ==> w.handles[i].name != n)
              && Listing(w.k, n) == {}
              && (forall s :: s in w.k.current ==> w.k.current[s] != n)
  {
    hide HandleCount;
    StartOk();
    RunKeepsInv(Start(), evs);
    var w := Exec(Start(), evs);
    if n in w.k.queue + w.popped + w.unlinked {
      assert n !in w.k.refcount;
      CountingHolders(w, n);
      forall i | 0 <= i < |w.handles|
        ensures w.handles[i].name != n
      {
        CountPositive(w.handles, i);
        assert Count(w.k, w.handles[i].name) == HandleCount(w.handles, w.handles[i].name);
      }
      SubsetSize({}, Listing(w.k, n));
    }
  }

  /** A current key names a counted segment that the sidetable files under that schema. */
  lemma CurrentIsHeld(evs: seq<Event>, s: SchemaName)
    requires Legal(Start(), evs)
    ensures var w := Exec(Start(), evs);
            s in w.k.current ==>
              var n := w.k.current[s];
              n in w.k.sidetable && w.k.sidetable[n] == s && n in w.k.refcount && w.k.refcount[n] >= 1
              && n !in w.k.queue && n !in w.popped && n !in w.unlinked
  {
    StartOk();
    RunKeepsInv(Start(), evs);
  }
}
