/** What giving back handles does to every key, said outright: the counts, the cleanup queue,
    the sidetable and the current keys. */
module LifecycleRelease {
  import opened Lifecycle

  /** Nothing about `n` itself is different. */
  predicate SameFor(k: Keys, r: Keys, n: Name)
  {
    && (n in r.refcount <==> n in k.refcount) && Count(r, n) == Count(k, n)
    && (n in r.queue <==> n in k.queue)
    && (n in r.sidetable <==> n in k.sidetable) && (n in k.sidetable ==> r.sidetable[n] == k.sidetable[n])
  }

  /** One handle fewer on `n`, which stays in use. */
  predicate OneFewer(k: Keys, r: Keys, n: Name)
  {
    && n in r.refcount && r.refcount[n] == Count(k, n) - 1
    && (n in r.queue <==> n in k.queue)
    && (n in r.sidetable <==> n in k.sidetable) && (n in k.sidetable ==> r.sidetable[n] == k.sidetable[n])
  }

  /** `n` is out of use and waits for its unlink. */
  predicate Retiring(r: Keys, n: Name)
  {
    n !in r.refcount && n in r.queue && n !in r.sidetable
  }

  /** `s` points to one of `names` that was in its last use, and is filed under `s`. */
  predicate Loses(k: Keys, names: set<Name>, s: SchemaName)
  {
    && s in k.current && k.current[s] in names && Count(k, k.current[s]) <= 1
    && k.current[s] in k.sidetable && k.sidetable[k.current[s]] == s
  }

  /** One handle on each of `names` is given back and nothing else happens to the segments. */
  ghost predicate Released(k: Keys, r: Keys, names: set<Name>)
  {
    && (forall n :: n !in names ==> SameFor(k, r, n))
    && (forall n :: n in names && Count(k, n) > 1 ==> OneFewer(k, r, n))
    && (forall n :: n in names && Count(k, n) <= 1 ==> Retiring(r, n))
    && (forall s :: s in r.current <==> s in k.current && !Loses(k, names, s))
    && (forall s :: s in r.current ==> r.current[s] == k.current[s])
  }

  function NameSet(names: seq<Name>): set<Name>
  {
    set n | n in names
  }

  lemma ReleaseOther(k: Keys, n: Name, m: Name)
    requires m != n
    ensures SameFor(k, Release(k, n), m)
  {
  }

  lemma ReleaseSelf(k: Keys, n: Name)
    ensures if Count(k, n) > 1 then OneFewer(k, Release(k, n), n) else Retiring(Release(k, n), n)
  {
  }

  lemma ReleaseCurrent(k: Keys, n: Name, s: SchemaName)
    ensures var r := Release(k, n);
            && (s in r.current <==> s in k.current && !Loses(k, {n}, s))
            && (s in r.current ==> r.current[s] == k.current[s])
  {
  }

  lemma ReleaseMeans(k: Keys, n: Name)
    ensures Released(k, Release(k, n), {n})
    ensures Release(k, n).pidSegments == k.pidSegments && Release(k, n).heartbeats == k.heartbeats
  {
    var r := Release(k, n);
    assert r.pidSegments == k.pidSegments && r.heartbeats == k.heartbeats;
    hide Release, SameFor, OneFewer, Retiring, Loses;
    ReleaseSelf(k, n);
    forall m | m != n
      ensures SameFor(k, r, m)
    {
      ReleaseOther(k, n, m);
    }
    forall s
      ensures s in r.current <==> s in k.current && !Loses(k, {n}, s)
      ensures s in r.current ==> r.current[s] == k.current[s]
    {
      ReleaseCurrent(k, n, s);
    }
  }

  lemma NoneReleased(k: Keys)
    ensures Released(k, k, {})
  {
  }

  lemma ReleasedThen(k: Keys, l: Keys, r: Keys, names: set<Name>, n: Name)
    requires Released(k, l, names) && Released(l, r, {n}) && n !in names
    ensures Released(k, r, names + {n})
  {
    hide Loses;
    assert SameFor(k, l, n);
    forall m
      ensures m !in names + {n} ==> SameFor(k, r, m)
      ensures m in names && Count(k, m) > 1 ==> OneFewer(k, r, m)
      ensures m in names && Count(k, m) <= 1 ==> Retiring(r, m)
    {
      if m != n {
        assert SameFor(l, r, m);
        assert m !in names ==> SameFor(k, l, m);
      }
    }
    forall s
      ensures s in r.current <==> s in k.current && !Loses(k, names + {n}, s)
      ensures s in r.current ==> r.current[s] == k.current[s]
    {
      if s in k.current {
        LosesThen(k, l, names, n, s);
      }
      assert s in l.current <==> s in k.current && !Loses(k, names, s);
    }
  }

  lemma LosesThen(k: Keys, l: Keys, names: set<Name>, n: Name, s: SchemaName)
    requires Released(k, l, names) && n !in names && s in k.current
    ensures Loses(k, names + {n}, s) <==> Loses(k, names, s) || Loses(l, {n}, s)
  {
    assert SameFor(k, l, n);
    assert s in l.current <==> s in k.current && !Loses(k, names, s);
  }

  /** The loop over the listed segments gives back one handle on each. */
  lemma {:induction false} ReleaseAllMeans(k: Keys, names: seq<Name>)
    requires forall i, j :: 0 <= i < j < |names| ==> names[i] != names[j]
    ensures Released(k, ReleaseAll(k, names), NameSet(names))
    ensures ReleaseAll(k, names).pidSegments == k.pidSegments && ReleaseAll(k, names).heartbeats == k.heartbeats
  {
    hide Released, Release;
    if names == [] {
      NoneReleased(k);
      assert NameSet(names) == {};
    } else {
      var init, last := names[..|names| - 1], names[|names| - 1];
      ReleaseAllMeans(k, init);
      var l := ReleaseAll(k, init);
      ReleaseMeans(l, last);
      ReleasedThen(k, l, Release(l, last), NameSet(init), last);
      assert NameSet(names) == NameSet(init) + {last};
    }
  }

  lemma ReleasedFrame(k: Keys, r: Keys, t: Keys, names: set<Name>)
    requires Released(k, r, names) && t == r.(pidSegments := t.pidSegments, heartbeats := t.heartbeats)
    ensures Released(k, t, names)
  {
    hide Loses;
    forall n
      ensures n !in names ==> SameFor(k, t, n)
      ensures n in names && Count(k, n) > 1 ==> OneFewer(k, t, n)
      ensures n in names && Count(k, n) <= 1 ==> Retiring(t, n)
    {
      assert n !in names ==> SameFor(k, r, n);
    }
  }

  /** The close script gives back one handle on `n` and takes it off the caller's list. */
  lemma ClosedMeans(k: Keys, pid: Pid, n: Name)
    ensures var r := Closed(k, pid, n);
            && Released(k, r, {n}) && r.heartbeats == k.heartbeats
            && forall p :: Held(r, p) == if p == pid then Held(k, p) - {n} else Held(k, p)
  {
    hide Released, Release;
    ReleaseMeans(k, n);
    ReleasedFrame(k, Release(k, n), Closed(k, pid, n), {n});
  }

  /** The dead-process script gives back one handle on each listed segment, and forgets the pid. */
  lemma CleanedUpMeans(k: Keys, pid: Pid, names: seq<Name>, expected: Birth)
    requires !Reused(k, pid, expected) && forall i, j :: 0 <= i < j < |names| ==> names[i] != names[j]
    ensures var r := CleanedUp(k, pid, names, expected);
            && Released(k, r, NameSet(names))
            && r.pidSegments == k.pidSegments - {pid} && r.heartbeats == k.heartbeats - {pid}
  {
    hide Released, ReleaseAll;
    ReleaseAllMeans(k, names);
    ReleasedFrame(k, ReleaseAll(k, names), CleanedUp(k, pid, names, expected), NameSet(names));
  }

  /** The segments whose last use is given back. */
  function LastUses(k: Keys, names: seq<Name>): set<Name>
  {
    set n | n in names && Count(k, n) <= 1
  }

  lemma NoneYet(k: Keys, names: seq<Name>)
    ensures ReleaseAll(k, names[..0]) == k && |LastUses(k, names[..0])| == 0
  {
    assert LastUses(k, names[..0]) == {};
  }

  lemma NextRelease(k: Keys, names: seq<Name>, i: nat)
    requires i < |names| && forall i, j :: 0 <= i < j < |names| ==> names[i] != names[j]
    ensures Count(ReleaseAll(k, names[..i]), names[i]) == Count(k, names[i])
    ensures ReleaseAll(k, names[..i + 1]) == Release(ReleaseAll(k, names[..i]), names[i])
    ensures |LastUses(k, names[..i + 1])| == |LastUses(k, names[..i])| + if Count(k, names[i]) <= 1 then 1 else 0
  {
    assert names[..i + 1][..i] == names[..i];
    hide ReleaseAll, Count, Release;
    ReleaseAllMeans(k, names[..i]);
    assert names[i] !in NameSet(names[..i]);
    assert SameFor(k, ReleaseAll(k, names[..i]), names[i]);
    var before, after := LastUses(k, names[..i]), LastUses(k, names[..i + 1]);
    assert names[..i + 1] == names[..i] + [names[i]];
    if Count(k, names[i]) <= 1 {
      assert after == before + {names[i]};
    } else {
      assert after == before;
    }
  }
}
