/** The registry's scripts as they run: fields of one Redis, updated in place by loops and
    branches, each proved to compute its step of the lifecycle model. */
module LifecycleScripts {
  import opened Lifecycle
  import opened LifecycleRelease

  class Redis {
    var refcount: map<Name, int>
    var pidSegments: map<Pid, set<Name>>
    var cleanupQueue: set<Name>
    var segmentToSchema: map<Name, SchemaName>
    var schemaCurrent: map<SchemaName, Name>
    var heartbeats: map<Pid, Birth>
    var upgradeLock: map<SchemaName, nat>

    function View(): Keys
      reads this
    {
      Keys(refcount, pidSegments, cleanupQueue, segmentToSchema, schemaCurrent, heartbeats)
    }

    constructor ()
      ensures View() == Start().k
    {
      refcount, pidSegments, cleanupQueue := map[], map[], {};
      segmentToSchema, schemaCurrent, heartbeats := map[], map[], map[];
      upgradeLock := map[];
    }

    /** DECR; a missing key counts as zero. */
    method Decr(n: Name) returns (left: int)
      modifies this`refcount
      ensures left == Count(old(View()), n) - 1
      ensures refcount == old(refcount)[n := left]
    {
      left := (if n in refcount then refcount[n] else 0) - 1;
      refcount := refcount[n := left];
    }

    /** The shared body of the close and dead-process scripts. */
    method ReleaseOne(n: Name) returns (left: int)
      modifies this
      ensures View() == Release(old(View()), n) && left == Count(old(View()), n) - 1
      ensures Released(old(View()), View(), {n})
      ensures upgradeLock == old(upgradeLock)
    {
      hide Released;
      left := Decr(n);
      if left <= 0 {
        cleanupQueue := cleanupQueue + {n};
        if n in segmentToSchema {
          var s := segmentToSchema[n];
          if s in schemaCurrent && schemaCurrent[s] == n {
            schemaCurrent := schemaCurrent - {s};
          }
          segmentToSchema := segmentToSchema - {n};
        }
        refcount := refcount - {n};
        assert refcount == old(refcount) - {n};
      }
      assert View() == Release(old(View()), n);
      ReleaseMeans(old(View()), n);
    }

    /** The close script. */
    method CloseSegment(pid: Pid, n: Name) returns (left: int)
      modifies this
      ensures View() == Closed(old(View()), pid, n) && upgradeLock == old(upgradeLock)
      ensures left == Count(old(View()), n) - 1
      ensures Released(old(View()), View(), {n}) && heartbeats == old(heartbeats)
      ensures forall p :: Held(View(), p) == if p == pid then Held(old(View()), p) - {n} else Held(old(View()), p)
    {
      hide Released, Release;
      ClosedMeans(View(), pid, n);
      left := ReleaseOne(n);
      if pid in pidSegments {
        pidSegments := pidSegments[pid := pidSegments[pid] - {n}];
      }
    }

    /** The dead-process script: the reuse guard, then one release per listed segment in
        whatever order SMEMBERS gives them. Returns -1 on reuse, else the number zeroed. */
    method CleanupDeadPid(pid: Pid, expected: Birth, names: seq<Name>) returns (zeroed: int)
      requires forall n :: n in names <==> n in Held(View(), pid)
      requires forall i, j :: 0 <= i < j < |names| ==> names[i] != names[j]
      modifies this
      ensures View() == CleanedUp(old(View()), pid, names, expected) && upgradeLock == old(upgradeLock)
      ensures zeroed == -1 <==> Reused(old(View()), pid, expected)
      ensures zeroed == -1 ==> View() == old(View())
      ensures zeroed != -1 ==>
                && Released(old(View()), View(), NameSet(names))
                && pidSegments == old(pidSegments) - {pid} && heartbeats == old(heartbeats) - {pid}
                && zeroed == |LastUses(old(View()), names)|
    {
      if pid in heartbeats && heartbeats[pid] != expected {
        return -1;
      }
      zeroed := 0;
      hide Released, ReleaseAll, Release, LastUses;
      ghost var k := View();
      CleanedUpMeans(k, pid, names, expected);
      NoneYet(k, names);
      for i := 0 to |names|
        invariant View() == ReleaseAll(k, names[..i]) && upgradeLock == old(upgradeLock)
        invariant zeroed == |LastUses(k, names[..i])|
      {
        NextRelease(k, names, i);
        var left := ReleaseOne(names[i]);
        if left <= 0 {
          zeroed := zeroed + 1;
        }
      }
      assert names[..|names|] == names;
      pidSegments := pidSegments - {pid};
      heartbeats := heartbeats - {pid};
    }

    /** The drain script: pop up to `max` queued names. */
    method DrainQueue(max: nat) returns (out: seq<Name>)
      modifies this`cleanupQueue
      ensures |out| <= max && (|out| < max ==> cleanupQueue == {})
      ensures (set n | n in out) <= old(cleanupQueue) && cleanupQueue == old(cleanupQueue) - (set n | n in out)
      ensures forall i, j :: 0 <= i < j < |out| ==> out[i] != out[j]
    {
      out := [];
      while |out| < max && cleanupQueue != {}
        invariant |out| <= max
        invariant (set n | n in out) <= old(cleanupQueue) && cleanupQueue == old(cleanupQueue) - (set n | n in out)
        invariant forall i, j :: 0 <= i < j < |out| ==> out[i] != out[j]
        decreases max - |out|
      {
        var name :| name in cleanupQueue;
        cleanupQueue := cleanupQueue - {name};
        out := out + [name];
      }
    }

    /** The registration pipeline of `create`, after the process's heartbeat. */
    method Register(pid: Pid, birth: Birth, s: SchemaName, n: Name, setCurrent: bool)
      modifies this
      ensures View() == Created(Beaten(old(View()), pid, birth), pid, s, n, setCurrent)
      ensures refcount == old(refcount)[n := 1] && segmentToSchema == old(segmentToSchema)[n := s]
      ensures schemaCurrent == if setCurrent then old(schemaCurrent)[s := n] else old(schemaCurrent)
      ensures pidSegments == old(pidSegments)[pid := old(Held(View(), pid)) + {n}]
      ensures heartbeats == old(heartbeats)[pid := birth] && cleanupQueue == old(cleanupQueue)
      ensures upgradeLock == old(upgradeLock)
    {
      heartbeats := heartbeats[pid := birth];
      if setCurrent {
        schemaCurrent := schemaCurrent[s := n];
      }
      refcount := refcount[n := 1];
      pidSegments := pidSegments[pid := (if pid in pidSegments then pidSegments[pid] else {}) + {n}];
      segmentToSchema := segmentToSchema[n := s];
    }

    /** `open_current` as one step: read the current key, count, list. */
    method OpenCurrent(pid: Pid, birth: Birth, s: SchemaName) returns (found: bool, n: Name)
      modifies this
      ensures found <==> s in old(schemaCurrent)
      ensures found ==> n == old(schemaCurrent)[s] && View() == Opened(Beaten(old(View()), pid, birth), pid, n)
      ensures !found ==> View() == Beaten(old(View()), pid, birth)
      ensures refcount == if found then old(refcount)[n := Count(old(View()), n) + 1] else old(refcount)
      ensures pidSegments ==
                if found then old(pidSegments)[pid := old(Held(View(), pid)) + {n}] else old(pidSegments)
      ensures heartbeats == old(heartbeats)[pid := birth] && schemaCurrent == old(schemaCurrent)
      ensures cleanupQueue == old(cleanupQueue) && segmentToSchema == old(segmentToSchema)
      ensures upgradeLock == old(upgradeLock)
    {
      heartbeats := heartbeats[pid := birth];
      if s !in schemaCurrent {
        return false, 0;
      }
      n := schemaCurrent[s];
      refcount := refcount[n := (if n in refcount then refcount[n] else 0) + 1];
      pidSegments := pidSegments[pid := (if pid in pidSegments then pidSegments[pid] else {}) + {n}];
      return true, n;
    }

    /** The compare-and-set flip: 1 flipped, 0 another segment is current, -1 none is. */
    method FlipCurrent(s: SchemaName, expectedOld: Name, new_: Name) returns (r: int)
      modifies this`schemaCurrent
      ensures View() == Flipped(old(View()), s, expectedOld, new_)
      ensures r == (if s !in old(schemaCurrent) then -1 else if old(schemaCurrent)[s] != expectedOld then 0 else 1)
      ensures schemaCurrent == if r == 1 then old(schemaCurrent)[s := new_] else old(schemaCurrent)
    {
      if s !in schemaCurrent {
        return -1;
      }
      if schemaCurrent[s] != expectedOld {
        return 0;
      }
      schemaCurrent := schemaCurrent[s := new_];
      return 1;
    }

    /** SET NX on the upgrade lock. */
    method AcquireLock(s: SchemaName, token: nat) returns (acquired: bool)
      modifies this`upgradeLock
      ensures acquired <==> s !in old(upgradeLock)
      ensures upgradeLock == if acquired then old(upgradeLock)[s := token] else old(upgradeLock)
    {
      acquired := s !in upgradeLock;
      if acquired {
        upgradeLock := upgradeLock[s := token];
      }
    }

    /** The token-checked delete: someone else's lock stays. */
    method ReleaseLock(s: SchemaName, token: nat) returns (released: bool)
      modifies this`upgradeLock
      ensures released <==> s in old(upgradeLock) && old(upgradeLock)[s] == token
      ensures upgradeLock == if released then old(upgradeLock) - {s} else old(upgradeLock)
    {
      if s in upgradeLock && upgradeLock[s] == token {
        upgradeLock := upgradeLock - {s};
        return true;
      }
      return false;
    }
  }
}
