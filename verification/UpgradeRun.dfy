/** One call of `upgrade_schema` from start to end, on a Redis nobody else touches: what a
    finished upgrade leaves behind, that a failed one leaves nothing, and what either takes
    from a caller that already held the old segment. */
module UpgradeRun {
  import opened Lifecycle
  import opened LifecycleScripts
  import opened UpgradeProtocol

  /** The phase at which an exception is raised, if any. */
  datatype Fault = NoFault | NotDrained | BeforeOpen | AfterOpen | AfterCreate | AfterCopy | AfterFlip

  datatype Outcome = Upgraded | LockHeld | Refused | NoCurrent | FailedBeforeFlip | FailedAfterFlip

  /** Equal up to the caller's heartbeat; a process without holdings and one with an empty
      set are the same. */
  ghost predicate SameKeys(a: Keys, b: Keys)
  {
    && a.refcount == b.refcount && a.queue == b.queue && a.sidetable == b.sidetable && a.current == b.current
    && forall pid {:trigger Held(a, pid)} :: Held(a, pid) == Held(b, pid)
  }

  /** Equal up to the caller's heartbeat, except that `pid` is no longer listed as holding `m`. */
  ghost predicate Unlisted(a: Keys, b: Keys, pid: Pid, m: Name)
  {
    && a.refcount == b.refcount && a.queue == b.queue && a.sidetable == b.sidetable && a.current == b.current
    && forall p {:trigger Held(a, p)} {:trigger Held(b, p)} ::
         Held(b, p) == if p == pid then Held(a, p) - {m} else Held(a, p)
  }

  /** The new segment registered and current. */
  ghost predicate Current(a: Keys, b: Keys, s: SchemaName, n: Name)
  {
    && b.current == a.current[s := n] && b.sidetable == a.sidetable[n := s]
    && b.refcount == a.refcount[n := 1] && b.queue == a.queue
  }

  /** The new segment registered and current, held by `pid`; the old one given back. */
  ghost predicate Installed(a: Keys, b: Keys, pid: Pid, s: SchemaName, n: Name)
  {
    && Current(a, b, s, n) && Held(b, pid) == Held(a, pid) + {n}
    && forall p {:trigger Held(b, p)} :: p != pid ==> Held(b, p) == Held(a, p)
  }

  /** The same, except that `pid` is no longer listed as holding `m`. */
  ghost predicate InstalledUnlisted(a: Keys, b: Keys, pid: Pid, s: SchemaName, n: Name, m: Name)
  {
    && Current(a, b, s, n) && Held(b, pid) == Held(a, pid) - {m} + {n}
    && forall p {:trigger Held(b, p)} :: p != pid ==> Held(b, p) == Held(a, p)
  }

  /** Losing the listing matters exactly when the caller was listed. */
  lemma UnlistedSameIff(a: Keys, b: Keys, pid: Pid, m: Name)
    requires Unlisted(a, b, pid, m)
    ensures SameKeys(a, b) <==> m !in Held(a, pid)
  {
    assert Held(b, pid) == Held(a, pid) - {m};
    if m !in Held(a, pid) {
      assert Held(a, pid) - {m} == Held(a, pid);
    }
  }

  lemma InstalledIff(a: Keys, b: Keys, pid: Pid, s: SchemaName, n: Name, m: Name)
    requires InstalledUnlisted(a, b, pid, s, n, m) && m != n
    ensures Installed(a, b, pid, s, n) <==> m !in Held(a, pid)
  {
    if m !in Held(a, pid) {
      assert Held(a, pid) - {m} == Held(a, pid);
    } else {
      assert m !in Held(b, pid);
    }
  }

  /** What `create` and `open_current` find: every current segment counted, and the new name unused. */
  ghost predicate Ready(k: Keys, n: Name)
  {
    && Pointers(k) && (forall m {:trigger m in k.refcount} :: m in k.refcount ==> k.refcount[m] > 0)
    && n !in k.refcount && n !in k.sidetable && (forall p {:trigger Held(k, p)} :: n !in Held(k, p))
  }

  /** Open, then close: at most the caller's listing has changed. */
  lemma OpenClose(k: Keys, pid: Pid, birth: Birth, s: SchemaName, n: Name)
    requires Ready(k, n) && s in k.current
    ensures Unlisted(k, Closed(Opened(Beaten(k, pid, birth), pid, k.current[s]), pid, k.current[s]), pid, k.current[s])
  {
    var m := k.current[s];
    var taken := Opened(Beaten(k, pid, birth), pid, m);
    assert taken.refcount[m := k.refcount[m]] == k.refcount;
    var end := Closed(taken, pid, m);
    forall p
      ensures Held(end, p) == if p == pid then Held(k, p) - {m} else Held(k, p)
    {
      assert Held(k, pid) + {m} - {m} == Held(k, pid) - {m};
    }
  }

  /** Create, then the orphan pipeline: nothing has changed. */
  lemma CreateDropSame(k: Keys, pid: Pid, birth: Birth, s: SchemaName, n: Name)
    requires n !in k.refcount && n !in k.sidetable && n !in Held(k, pid)
    ensures SameKeys(k, OrphanKeys(Created(Beaten(k, pid, birth), pid, s, n, false), pid, n))
  {
    assert k.refcount[n := 1] - {n} == k.refcount;
    assert k.sidetable[n := s] - {n} == k.sidetable;
  }

  lemma HeldAfterClose(k: Keys, pid: Pid, m: Name, p: Pid)
    ensures Held(Closed(k, pid, m), p) == if p == pid then Held(k, p) - {m} else Held(k, p)
  {
  }

  lemma ReleaseReads(a: Keys, b: Keys, m: Name)
    requires b == a.(pidSegments := b.pidSegments, heartbeats := b.heartbeats)
    ensures Release(b, m) == Release(a, m).(pidSegments := b.pidSegments, heartbeats := b.heartbeats)
  {
    assert Count(b, m) == Count(a, m);
    hide Count;
    if Count(a, m) - 1 > 0 {
    } else if m !in a.sidetable {
    } else {
      var s := a.sidetable[m];
      assert s in b.current <==> s in a.current;
    }
  }

  lemma ClosedReads(a: Keys, b: Keys, pid: Pid, m: Name)
    requires SameKeys(a, b)
    ensures var x, y := Closed(a, pid, m), Closed(b, pid, m);
            x.refcount == y.refcount && x.queue == y.queue && x.sidetable == y.sidetable && x.current == y.current
  {
    ReleaseReads(a, b, m);
    hide Release;
  }

  lemma SameThenClose(a: Keys, b: Keys, pid: Pid, m: Name)
    requires SameKeys(a, b)
    ensures SameKeys(Closed(a, pid, m), Closed(b, pid, m))
  {
    hide Closed, Held;
    ClosedReads(a, b, pid, m);
    var x, y := Closed(a, pid, m), Closed(b, pid, m);
    forall p
      ensures Held(x, p) == Held(y, p)
    {
      HeldAfterClose(a, pid, m, p);
      HeldAfterClose(b, pid, m, p);
      assert Held(a, p) == Held(b, p);
    }
  }

  /** Open, create, flip, close. */
  lemma UpgradeInstalls(k: Keys, pid: Pid, birth: Birth, s: SchemaName, n: Name)
    requires Ready(k, n) && s in k.current
    ensures var m := k.current[s];
            var made := Created(Beaten(Opened(Beaten(k, pid, birth), pid, m), pid, birth), pid, s, n, false);
            var end := Closed(Flipped(made, s, m, n), pid, m);
            && InstalledUnlisted(k, end, pid, s, n, m)
            && (Installed(k, end, pid, s, n) <==> m !in Held(k, pid))
  {
    var m := k.current[s];
    var taken := Opened(Beaten(k, pid, birth), pid, m);
    var made := Created(Beaten(taken, pid, birth), pid, s, n, false);
    var flipped := Flipped(made, s, m, n);
    assert m != n;
    var end := Closed(flipped, pid, m);
    assert end.refcount == k.refcount[n := 1] by {
      assert flipped.refcount[m := k.refcount[m]] == k.refcount[n := 1];
    }
    forall p
      ensures Held(end, p) == if p == pid then Held(k, p) - {m} + {n} else Held(k, p)
    {
      assert Held(k, pid) + {m} + {n} - {m} == Held(k, pid) - {m} + {n};
    }
    InstalledIff(k, end, pid, s, n, m);
  }

  lemma BeatSame(k: Keys, pid: Pid, birth: Birth)
    ensures SameKeys(k, k) && SameKeys(k, Beaten(k, pid, birth))
  {
  }

  lemma OpenedUnused(k: Keys, pid: Pid, birth: Birth, s: SchemaName, n: Name)
    requires Ready(k, n) && s in k.current
    ensures var t := Opened(Beaten(k, pid, birth), pid, k.current[s]);
            n !in t.refcount && n !in t.sidetable && n !in Held(t, pid)
  {
    var m := k.current[s];
    assert m in k.refcount;
    assert Held(Opened(Beaten(k, pid, birth), pid, m), pid) == Held(k, pid) + {m};
    assert n !in Held(k, pid);
  }

  lemma UnlistedThenSame(a: Keys, b: Keys, c: Keys, pid: Pid, m: Name)
    requires Unlisted(a, b, pid, m) && SameKeys(b, c)
    ensures Unlisted(a, c, pid, m)
  {
    forall p
      ensures Held(c, p) == if p == pid then Held(a, p) - {m} else Held(a, p)
    {
      assert Held(b, p) == Held(c, p);
      assert Held(b, p) == if p == pid then Held(a, p) - {m} else Held(a, p);
    }
  }

  /** Open, create, orphan pipeline, close: every key is as before, if and only if the caller
      was not already listed as holding the old segment; if it was, that listing is gone. */
  lemma FailedCreate(k: Keys, pid: Pid, birth: Birth, s: SchemaName, n: Name)
    requires Ready(k, n) && s in k.current
    ensures var m := k.current[s];
            var made := Created(Beaten(Opened(Beaten(k, pid, birth), pid, m), pid, birth), pid, s, n, false);
            var end := Closed(OrphanKeys(made, pid, n), pid, m);
            && Unlisted(k, end, pid, m)
            && (SameKeys(k, end) <==> m !in Held(k, pid))
  {
    hide *;
    var m := k.current[s];
    var t := Opened(Beaten(k, pid, birth), pid, m);
    var dropped := OrphanKeys(Created(Beaten(t, pid, birth), pid, s, n, false), pid, n);
    OpenedUnused(k, pid, birth, s, n);
    CreateDropSame(t, pid, birth, s, n);
    OpenClose(k, pid, birth, s, n);
    SameThenClose(t, dropped, pid, m);
    UnlistedThenSame(k, Closed(t, pid, m), Closed(dropped, pid, m), pid, m);
    UnlistedSameIff(k, Closed(dropped, pid, m), pid, m);
  }

  lemma HolderLoses(k: Keys, pid: Pid, birth: Birth, s: SchemaName, n: Name)
    requires Ready(k, n) && s in k.current && Held(k, pid) == {k.current[s]}
    ensures var m := k.current[s];
            var made := Created(Beaten(Opened(Beaten(k, pid, birth), pid, m), pid, birth), pid, s, n, false);
            var end := Closed(OrphanKeys(made, pid, n), pid, m);
            Held(end, pid) == {} && Count(end, m) == Count(k, m) && !SameKeys(k, end)
  {
    hide Closed, OrphanKeys, Created, Opened, Beaten, Ready, Held, SameKeys;
    var m := k.current[s];
    FailedCreate(k, pid, birth, s, n);
    var end := Closed(OrphanKeys(Created(Beaten(Opened(Beaten(k, pid, birth), pid, m), pid, birth), pid, s, n, false),
                                 pid, n), pid, m);
    assert Unlisted(k, end, pid, m);
    assert Held(end, pid) == {m} - {m};
  }

  /** The smallest failing call: a process that made the current segment upgrades it, and is
      then listed as holding nothing although its handle is still out. */
  lemma HolderUpgrades(pid: Pid, birth: Birth, s: SchemaName, m: Name, n: Name)
    requires m != n
    ensures var k := Keys(map[m := 1], map[pid := {m}], {}, map[m := s], map[s := m], map[pid := birth]);
            var made := Created(Beaten(Opened(Beaten(k, pid, birth), pid, m), pid, birth), pid, s, n, false);
            var end := Closed(OrphanKeys(made, pid, n), pid, m);
            Ready(k, n) && Held(end, pid) == {} && Count(end, m) == 1 && !SameKeys(k, end)
  {
    var k := Keys(map[m := 1], map[pid := {m}], {}, map[m := s], map[s := m], map[pid := birth]);
    assert Ready(k, n) && Held(k, pid) == {m} && Count(k, m) == 1 && k.current[s] == m;
    hide *;
    HolderLoses(k, pid, birth, s, n);
  }

  lemma CreatedCurrent(k: Keys, pid: Pid, birth: Birth, s: SchemaName, n: Name, m: Name)
    ensures Created(Beaten(Opened(Beaten(k, pid, birth), pid, m), pid, birth), pid, s, n, false).current == k.current
  {
  }

  lemma LockRestored(locks: map<SchemaName, nat>, s: SchemaName, token: nat)
    ensures s !in locks ==> locks[s := token] - {s} == locks
  {
  }

  /** The orphan pipeline. */
  method DropOrphanKeys(r: Redis, pid: Pid, n: Name)
    modifies r
    ensures r.View() == OrphanKeys(old(r.View()), pid, n) && r.schemaCurrent == old(r.schemaCurrent)
    ensures r.upgradeLock == old(r.upgradeLock)
  {
    r.refcount := r.refcount - {n};
    if pid in r.pidSegments {
      r.pidSegments := r.pidSegments[pid := r.pidSegments[pid] - {n}];
    }
    r.segmentToSchema := r.segmentToSchema - {n};
  }

  /** `upgrade_schema` with its lock, its flags and its exception path. A call that does not
      reach the flip leaves every key as it found it, and one that does installs the new
      segment whether or not something fails afterwards, each if and only if it did not open
      the old segment or the caller was not already listed as holding it. If it was, the call
      ends with that listing gone and everything else the same. The lock is given back. */
  method UpgradeSchema(r: Redis, pid: Pid, birth: Birth, s: SchemaName, n: Name, token: nat, fault: Fault)
    returns (out: Outcome)
    requires Ready(r.View(), n)
    modifies r
    ensures out.LockHeld? <==> s in old(r.upgradeLock)
    ensures out.LockHeld? ==> r.View() == old(r.View())
    ensures out in {Refused, NoCurrent} || (out.FailedBeforeFlip? && fault.BeforeOpen?) ==>
              SameKeys(old(r.View()), r.View())
    ensures out.FailedBeforeFlip? && !fault.BeforeOpen? ==>
              && s in old(r.schemaCurrent)
              && Unlisted(old(r.View()), r.View(), pid, old(r.schemaCurrent)[s])
              && (SameKeys(old(r.View()), r.View()) <==> old(r.schemaCurrent)[s] !in Held(old(r.View()), pid))
    ensures out in {Upgraded, FailedAfterFlip} ==>
              && s in old(r.schemaCurrent)
              && InstalledUnlisted(old(r.View()), r.View(), pid, s, n, old(r.schemaCurrent)[s])
              && (Installed(old(r.View()), r.View(), pid, s, n) <==>
                    old(r.schemaCurrent)[s] !in Held(old(r.View()), pid))
    ensures s !in old(r.upgradeLock) ==>
              (out.Upgraded? <==> fault.NoFault? && s in old(r.schemaCurrent))
              && (out.FailedAfterFlip? <==> fault.AfterFlip? && s in old(r.schemaCurrent))
    ensures r.upgradeLock == old(r.upgradeLock)
  {
    hide Closed, Opened, Beaten, Created, OrphanKeys, Flipped, Held, Ready, SameKeys, Unlisted, Installed;
    hide InstalledUnlisted;
    ghost var k, locks := r.View(), r.upgradeLock;
    BeatSame(k, pid, birth);
    LockRestored(locks, s, token);
    var acquired := r.AcquireLock(s, token);
    if !acquired {
      return LockHeld;
    }
    if fault.NotDrained? {
      var released := r.ReleaseLock(s, token);
      return Refused;
    }
    var oldSeg, newSeg, flipCompleted := Nothing, Nothing, false;
    out := FailedBeforeFlip;
    if !fault.BeforeOpen? {
      var found, m := r.OpenCurrent(pid, birth, s);
      if !found {
        out := NoCurrent;
      } else {
        OpenClose(k, pid, birth, s, n);
        UnlistedSameIff(k, Closed(Opened(Beaten(k, pid, birth), pid, m), pid, m), pid, m);
        oldSeg := Just(m);
        if !fault.AfterOpen? {
          FailedCreate(k, pid, birth, s, n);
          UpgradeInstalls(k, pid, birth, s, n);
          CreatedCurrent(k, pid, birth, s, n, m);
          r.Register(pid, birth, s, n, false);
          newSeg := Just(n);
          if !fault.AfterCreate? && !fault.AfterCopy? {
            var flip := r.FlipCurrent(s, m, n);
            flipCompleted := flip == 1;
            out := if fault.AfterFlip? then FailedAfterFlip else Upgraded;
          }
        }
      }
    }
    if newSeg.Just? && !flipCompleted {
      DropOrphanKeys(r, pid, newSeg.name);
    }
    if oldSeg.Just? {
      var left := r.CloseSegment(pid, oldSeg.name);
    }
    var released := r.ReleaseLock(s, token);
  }
}
