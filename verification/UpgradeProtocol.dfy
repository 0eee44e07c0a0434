/** The upgrade orchestrator as a state machine over the segment lifecycle: any number of
    orchestrators for one schema, a lock that may expire at any time, a failure or a crash
    at any phase, and every other process doing what the lifecycle allows. */
module UpgradeProtocol {
  import opened Bytes
  import opened Lifecycle
  import opened Schema
  import opened SchemaUpgrade
  import opened RowTranslation

  type Token = nat

  datatype Maybe = Nothing | Just(name: Name)

  /** How far one call of `upgrade_schema` has come. `Unwinding` is its exception path
      before the flip, `Swapped` everything after a successful flip. */
  datatype Stage = Entered | OldOpen | Verified | Made | Filled | Swapped | Unwinding

  datatype Orc = Orc(token: Token, source: FeatureSchema, target: FeatureSchema, oldSeg: Maybe, newSeg: Maybe,
                     stage: Stage)

  type Rows = map<Buffer, Buffer>

  /** A segment's contents: the schema class it was created for, its published rows, and
      its row cursor, which a writer that dies mid-insert leaves ahead of the rows. */
  datatype Seg = Seg(def: FeatureSchema, rows: Rows, cursor: nat)

  /** A finished copy: the old segment, what it held then, and what the new one got. */
  datatype Fill = Fill(from: Name, base: Rows, filled: Rows)

  datatype Lock = Free | HeldBy(token: Token)

  /** `path` is every segment that has been current, in order; `segs` what each segment
      holds now; `fill` the copy each new segment was filled by. `lineage[n]` is
      present once segment `n` is fully populated: the chain of segments it was copied along. */
  datatype State = State(
    w: World,
    lock: Lock,
    tokens: set<Token>,
    orcs: map<Pid, Orc>,
    lineage: map<Name, seq<Name>>,
    path: seq<Name>,
    segs: map<Name, Seg>,
    fill: map<Name, Fill>,
    wide: FloatWidening)

  datatype Step =
    | Other(ev: Event)
    | Write(pid: Pid, n: Name, id: Buffer, row: Buffer)
    | TornWrite(pid: Pid, n: Name)
    | Acquire(pid: Pid, token: Token, source: FeatureSchema, target: FeatureSchema)
    | LockExpires
    | OpenOld(pid: Pid)
    | Recheck(pid: Pid)
    | CreateNew(pid: Pid, n: Name)
    | CopyRows(pid: Pid)
    | FlipCurrentKey(pid: Pid, at: nat)
    | Fail(pid: Pid)
    | DropOrphan(pid: Pid, at: nat)
    | CloseOld(pid: Pid, at: nat)
    | Leave(pid: Pid)
    | Crash(pid: Pid, clean: bool)

  /** What another process may do: anything, except act for an orchestrator or point the
      schema at a segment of its own. */
  predicate Foreign(st: State, s: SchemaName, ev: Event)
  {
    match ev
    case Spawn(_, _) => true
    case Beat(_) => true
    case Create(pid, s', _, setCurrent) => pid !in st.orcs && !(setCurrent && s' == s)
    case OpenCurrent(pid, _) => pid !in st.orcs
    case Close(at) => at < |st.w.handles| && st.w.handles[at].pid !in st.orcs
    case Flip(_, s', _) => s' != s
    case Die(pid, _) => pid !in st.orcs
    case Cleanup(_, _, _) => true
    case Drain(_) => true
    case Unlink(_) => true
  }

  /** The handle an orchestrator got from one of its opens. */
  function HandleOn(st: State, pid: Pid, n: Name): Handle
    requires pid in st.w.alive
  {
    Handle(pid, st.w.alive[pid], n)
  }

  predicate OwnsAt(st: State, pid: Pid, n: Name, at: nat)
  {
    pid in st.w.alive && at < |st.w.handles| && st.w.handles[at] == HandleOn(st, pid, n)
  }

  /** A process other than an orchestrator inserts through a segment it has open. */
  predicate CanWrite(st: State, pid: Pid, n: Name)
  {
    pid in st.w.alive && pid !in st.orcs && Holds(st.w.handles, pid, n) && n in st.segs
  }

  /** The copy refuses unless the row cursor counts the rows. */
  predicate CanCopy(st: State, o: Name, n: Name)
  {
    o in st.segs && n in st.segs && st.segs[o].cursor == |st.segs[o].rows|
  }

  /** What a copy puts into a new segment. */
  ghost function Translation(wide: FloatWidening, o: FeatureSchema, n: FeatureSchema, m: Rows): Rows
  {
    if WidensFloats(wide) && Compatible(o, n) && RowsSized(o, m) then TranslatedMap(wide, o, n, m) else map[]
  }

  ghost predicate CanStep(st: State, s: SchemaName, step: Step)
  {
    match step
    case Other(ev) => Foreign(st, s, ev) && Enabled(st.w, ev)
    case Write(pid, n, id, row) => CanWrite(st, pid, n) && id != [] && |row| == RowSize(st.segs[n].def.fields)
    case TornWrite(pid, n) => CanWrite(st, pid, n)
    case Acquire(pid, token, source, target) =>
      pid in st.w.alive && pid !in st.orcs && st.lock.Free? && token !in st.tokens && Compatible(source, target)
    case LockExpires => true
    case OpenOld(pid) =>
      pid in st.orcs && st.orcs[pid].stage.Entered? && Enabled(st.w, OpenCurrent(pid, s))
      && st.w.k.current[s] in st.segs && st.segs[st.w.k.current[s]].def == st.orcs[pid].source
    case Recheck(pid) => pid in st.orcs && st.orcs[pid].stage.OldOpen?
    case CreateNew(pid, n) => pid in st.orcs && st.orcs[pid].stage.Verified? && Enabled(st.w, Create(pid, s, n, false))
    case CopyRows(pid) =>
      pid in st.orcs && st.orcs[pid].stage.Made? && st.orcs[pid].oldSeg.Just? && st.orcs[pid].newSeg.Just?
      && st.orcs[pid].oldSeg.name in st.lineage && CanCopy(st, st.orcs[pid].oldSeg.name, st.orcs[pid].newSeg.name)
    case FlipCurrentKey(pid, at) =>
      pid in st.orcs && st.orcs[pid].stage.Filled? && st.orcs[pid].newSeg.Just? && st.orcs[pid].oldSeg.Just?
      && OwnsAt(st, pid, st.orcs[pid].newSeg.name, at)
    case Fail(pid) => pid in st.orcs && st.orcs[pid].stage !in {Swapped, Unwinding}
    case DropOrphan(pid, at) =>
      pid in st.orcs && st.orcs[pid].stage.Unwinding? && st.orcs[pid].newSeg.Just?
      && OwnsAt(st, pid, st.orcs[pid].newSeg.name, at)
    case CloseOld(pid, at) =>
      pid in st.orcs && st.orcs[pid].oldSeg.Just? && OwnsAt(st, pid, st.orcs[pid].oldSeg.name, at)
      && (st.orcs[pid].stage.Swapped? || (st.orcs[pid].stage.Unwinding? && st.orcs[pid].newSeg.Nothing?))
    case Leave(pid) =>
      pid in st.orcs && st.orcs[pid].oldSeg.Nothing?
      && (st.orcs[pid].stage.Swapped? || (st.orcs[pid].stage.Unwinding? && st.orcs[pid].newSeg.Nothing?))
    case Crash(pid, clean) => pid in st.orcs && pid in st.w.alive
  }

  /** The orphan pipeline: drop the refcount, the holding and the sidetable entry. It does
      not look at, and does not touch, the current key. */
  function OrphanKeys(k: Keys, pid: Pid, n: Name): Keys
  {
    k.(refcount := k.refcount - {n}, sidetable := k.sidetable - {n},
       pidSegments := if pid in k.pidSegments then k.pidSegments[pid := k.pidSegments[pid] - {n}] else k.pidSegments)
  }

  /** The pipeline and the unlink that follows it. */
  function OrphanDropped(w: World, at: nat): World
    requires at < |w.handles|
  {
    var h := w.handles[at];
    w.(k := OrphanKeys(w.k, h.pid, h.name), handles := Without(w.handles, at), unlinked := w.unlinked + {h.name})
  }

  function Written(seg: Seg, id: Buffer, row: Buffer): Seg
  {
    seg.(rows := seg.rows[id := row], cursor := if id in seg.rows then seg.cursor else seg.cursor + 1)
  }

  function With(st: State, pid: Pid, o: Orc): State
  {
    st.(orcs := st.orcs[pid := o])
  }

  ghost function After(st: State, s: SchemaName, step: Step): State
    requires CanStep(st, s, step)
  {
    match step
    case Other(ev) => st.(w := Next(st.w, ev))
    case Write(pid, n, id, row) => st.(segs := st.segs[n := Written(st.segs[n], id, row)])
    case TornWrite(pid, n) => st.(segs := st.segs[n := st.segs[n].(cursor := st.segs[n].cursor + 1)])
    case Acquire(pid, token, source, target) =>
      With(st, pid, Orc(token, source, target, Nothing, Nothing, Entered)).(
        lock := HeldBy(token), tokens := st.tokens + {token})
    case LockExpires => st.(lock := Free)
    case OpenOld(pid) =>
      With(st, pid, st.orcs[pid].(oldSeg := Just(st.w.k.current[s]), stage := OldOpen)).(
        w := Next(st.w, OpenCurrent(pid, s)))
    case Recheck(pid) =>
      var same := s in st.w.k.current && Just(st.w.k.current[s]) == st.orcs[pid].oldSeg;
      With(st, pid, st.orcs[pid].(stage := if same then Verified else Unwinding))
    case CreateNew(pid, n) =>
      With(st, pid, st.orcs[pid].(newSeg := Just(n), stage := Made)).(
        w := Next(st.w, Create(pid, s, n, false)), segs := st.segs[n := Seg(st.orcs[pid].target, map[], 0)])
    case CopyRows(pid) =>
      var o := st.orcs[pid];
      var older, newer := o.oldSeg.name, o.newSeg.name;
      var rows := Translation(st.wide, st.segs[older].def, st.segs[newer].def, st.segs[older].rows);
      With(st, pid, o.(stage := Filled)).(
        lineage := st.lineage[newer := st.lineage[older] + [newer]],
        segs := st.segs[newer := st.segs[newer].(rows := rows, cursor := |rows|)],
        fill := st.fill[newer := Fill(older, st.segs[older].rows, rows)])
    case FlipCurrentKey(pid, at) =>
      var o := st.orcs[pid];
      if s in st.w.k.current && st.w.k.current[s] == o.oldSeg.name then
        With(st, pid, o.(stage := Swapped)).(
          w := st.w.(k := Flipped(st.w.k, s, o.oldSeg.name, o.newSeg.name)),
          path := st.path + [o.newSeg.name])
      else With(st, pid, o.(stage := Unwinding))
    case Fail(pid) => With(st, pid, st.orcs[pid].(stage := Unwinding))
    case DropOrphan(pid, at) => With(st, pid, st.orcs[pid].(newSeg := Nothing)).(w := OrphanDropped(st.w, at))
    case CloseOld(pid, at) => With(st, pid, st.orcs[pid].(oldSeg := Nothing)).(w := Next(st.w, Close(at)))
    case Leave(pid) =>
      st.(orcs := st.orcs - {pid}, lock := if st.lock == HeldBy(st.orcs[pid].token) then Free else st.lock)
    case Crash(pid, clean) => st.(orcs := st.orcs - {pid}, w := Next(st.w, Die(pid, clean)))
  }

  // ---------------------------------------------------------------------------
  // The invariant
  // ---------------------------------------------------------------------------

  /** The current segment is the end of the path, every segment on the path is fully populated
      from the ones before it, and no segment is on it twice. */
  ghost predicate PathOk(st: State, s: SchemaName)
  {
    && (forall i, j {:trigger st.path[i], st.path[j]} :: 0 <= i < j < |st.path| ==> st.path[i] != st.path[j])
    && (forall i {:trigger st.path[i]} :: 0 <= i < |st.path| ==>
          st.path[i] in st.lineage && st.lineage[st.path[i]] == st.path[..i + 1] && st.path[i] in st.w.created)
    && (s in st.w.k.current ==> st.path != [] && st.w.k.current[s] == st.path[|st.path| - 1])
  }

  /** A segment only its maker knows. */
  ghost predicate Private(st: State, s: SchemaName, pid: Pid, n: Name)
    requires pid in st.w.alive
  {
    && n !in st.path
    && HandleOn(st, pid, n) in st.w.handles && HandleCount(st.w.handles, n) == 1
    && n in st.w.k.sidetable && st.w.k.sidetable[n] == s
  }

  ghost predicate OrcOk(st: State, s: SchemaName, pid: Pid)
    requires pid in st.orcs
  {
    var o := st.orcs[pid];
    && pid in st.w.alive
    && (o.oldSeg.Just? ==> o.oldSeg.name in st.path && HandleOn(st, pid, o.oldSeg.name) in st.w.handles)
    && (o.newSeg.Just? && !o.stage.Swapped? ==> Private(st, s, pid, o.newSeg.name))
    && (o.stage in {OldOpen, Verified, Made, Filled} ==> o.oldSeg.Just?)
    && (o.stage in {Made, Filled} ==> o.newSeg.Just?)
    && (o.stage in {Entered, OldOpen, Verified} ==> o.newSeg.Nothing?)
    && (o.stage.Filled? ==>
          o.oldSeg.name in st.lineage && o.newSeg.name in st.lineage
          && st.lineage[o.newSeg.name] == st.lineage[o.oldSeg.name] + [o.newSeg.name])
  }

  ghost predicate Safe(st: State, s: SchemaName)
  {
    && Inv(st.w) && PathOk(st, s)
    && (forall pid {:trigger st.orcs[pid]} :: pid in st.orcs ==> OrcOk(st, s, pid))
  }

  // ---------------------------------------------------------------------------
  // Handles of one process under another's steps
  // ---------------------------------------------------------------------------

  lemma WithoutKeeps(hs: seq<Handle>, at: nat, h: Handle)
    requires at < |hs| && h in hs && h != hs[at]
    ensures h in Without(hs, at)
  {
    var i :| 0 <= i < |hs| && hs[i] == h;
    var j := if i < at then i else i - 1;
    assert Without(hs, at)[j] == h;
  }

  /** Who holds a segment with one handle out. */
  lemma SoleHolder(hs: seq<Handle>, h: Handle, i: nat)
    requires h in hs && HandleCount(hs, h.name) == 1 && i < |hs| && hs[i].name == h.name
    ensures hs[i] == h
  {
    if hs[i] != h {
      CountWithout(hs, i, h.name);
      WithoutKeeps(hs, i, h);
      var j :| 0 <= j < |Without(hs, i)| && Without(hs, i)[j] == h;
      CountPositive(Without(hs, i), j);
    }
  }

  lemma {:induction false} GiveBackAllKeeps(hs: seq<Handle>, pid: Pid, names: seq<Name>, h: Handle, n: Name)
    requires forall m :: m in names ==> Holds(hs, pid, m)
    requires forall i, j {:trigger names[i], names[j]} :: 0 <= i < j < |names| ==> names[i] != names[j]
    ensures h in hs && h.pid != pid ==> h in GiveBackAll(hs, pid, names)
    ensures n !in names ==> HandleCount(GiveBackAll(hs, pid, names), n) == HandleCount(hs, n)
    ensures forall m {:trigger Holds(GiveBackAll(hs, pid, names), pid, m)} ::
              Holds(hs, pid, m) && m !in names ==> Holds(GiveBackAll(hs, pid, names), pid, m)
  {
    hide HandleCount, Holds, GiveBack;
    if names != [] {
      var init, last := names[..|names| - 1], names[|names| - 1];
      GiveBackAllKeeps(hs, pid, init, h, n);
      var rest := GiveBackAll(hs, pid, init);
      assert last in names && last !in init;
      var at := GiveBackIs(rest, pid, last);
      CountWithout(rest, at, n);
      if h in rest && h.pid != pid {
        WithoutKeeps(rest, at, h);
      }
      forall m | Holds(hs, pid, m) && m !in names
        ensures Holds(GiveBackAll(hs, pid, names), pid, m)
      {
        assert m !in init && m != last;
        WithoutHolds(rest, at, pid, m);
      }
    }
  }

  lemma {:induction false} ReleaseAllKeepsEntry(k: Keys, names: seq<Name>, n: Name, s: SchemaName)
    requires n !in names
    ensures n in k.sidetable ==>
              n in ReleaseAll(k, names).sidetable && ReleaseAll(k, names).sidetable[n] == k.sidetable[n]
    ensures s in ReleaseAll(k, names).current ==> s in k.current && ReleaseAll(k, names).current[s] == k.current[s]
  {
    if names != [] {
      ReleaseAllKeepsEntry(k, names[..|names| - 1], n, s);
    }
  }

  lemma {:induction false} ReleaseAllCurrent(k: Keys, names: seq<Name>, s: SchemaName)
    ensures s in ReleaseAll(k, names).current ==> s in k.current && ReleaseAll(k, names).current[s] == k.current[s]
  {
    if names != [] {
      ReleaseAllCurrent(k, names[..|names| - 1], s);
    }
  }

  /** Another process never takes away a live process's handle. */
  lemma OtherKeepsHandle(st: State, s: SchemaName, ev: Event, pid: Pid, n: Name)
    requires Inv(st.w) && Foreign(st, s, ev) && Enabled(st.w, ev) && pid in st.orcs && pid in st.w.alive
    requires HandleOn(st, pid, n) in st.w.handles
    ensures var t := Next(st.w, ev);
            pid in t.alive && t.alive[pid] == st.w.alive[pid] && HandleOn(st, pid, n) in t.handles
  {
    hide HandleCount, Release, ReleaseAll, GiveBackAll, Accounts, Pointers, Holds;
    var h := HandleOn(st, pid, n);
    assert HandleOk(st.w, h);
    match ev {
      case Close(at) => WithoutKeeps(st.w.handles, at, h);
      case Cleanup(p, names, expected) =>
        if !Reused(st.w.k, p, expected) {
          forall m | m in names
            ensures Holds(st.w.handles, p, m)
          {
            assert m in Held(st.w.k, p);
          }
          GiveBackAllKeeps(st.w.handles, p, names, h, n);
        }
      case _ =>
    }
  }

  lemma ClosedCurrent(k: Keys, pid: Pid, n: Name, s: SchemaName)
    ensures s in Closed(k, pid, n).current ==> s in k.current && Closed(k, pid, n).current[s] == k.current[s]
  {
  }

  lemma OthersCurrent(st: State, s: SchemaName, ev: Event)
    requires Foreign(st, s, ev) && Enabled(st.w, ev)
    ensures var t := Next(st.w, ev);
            s in t.k.current ==> s in st.w.k.current && t.k.current[s] == st.w.k.current[s]
  {
    hide GiveBackAll, ReleaseAll, Release, Closed, Without;
    match ev {
      case Close(at) => ClosedCurrent(st.w.k, st.w.handles[at].pid, st.w.handles[at].name, s);
      case Cleanup(p, names, expected) => ReleaseAllCurrent(st.w.k, names, s);
      case _ =>
    }
  }

  /** A private segment is no schema's current segment. */
  lemma PrivateNotCurrent(st: State, s: SchemaName, pid: Pid, n: Name, s': SchemaName)
    requires Inv(st.w) && PathOk(st, s) && pid in st.w.alive && Private(st, s, pid, n)
    ensures s' in st.w.k.current ==> st.w.k.current[s'] != n
  {
    hide HandleCount, Accounts;
  }

  /** Another process never reaches a private segment. */
  lemma OtherKeepsPrivate(st: State, s: SchemaName, ev: Event, pid: Pid, n: Name)
    requires Inv(st.w) && PathOk(st, s) && Foreign(st, s, ev) && Enabled(st.w, ev) && pid in st.orcs
    requires pid in st.w.alive
    requires Private(st, s, pid, n)
    ensures var t := Next(st.w, ev);
            HandleCount(t.handles, n) == 1 && n in t.k.sidetable && t.k.sidetable[n] == s
  {
    hide HandleCount, ReleaseAll, GiveBackAll, Accounts, Holds;
    var h := HandleOn(st, pid, n);
    var t := Next(st.w, ev);
    assert HandleOk(st.w, h);
    match ev {
      case Create(_, _, m, _) =>
        CountAppend(st.w.handles, t.handles[|st.w.handles|], n);
      case OpenCurrent(_, s') =>
        PrivateNotCurrent(st, s, pid, n, s');
        CountAppend(st.w.handles, t.handles[|st.w.handles|], n);
      case Close(at) =>
        if st.w.handles[at].name == n {
          SoleHolder(st.w.handles, h, at);
        }
        CountWithout(st.w.handles, at, n);
      case Cleanup(p, names, expected) =>
        if !Reused(st.w.k, p, expected) {
          forall m | m in names
            ensures Holds(st.w.handles, p, m)
          {
            assert m in Held(st.w.k, p);
          }
          if n in names {
            HolderIs(st.w.handles, h, p);
          }
          GiveBackAllKeeps(st.w.handles, p, names, h, n);
          ReleaseAllKeepsEntry(st.w.k, names, n, s);
        }
      case _ =>
    }
  }

  lemma HolderIs(hs: seq<Handle>, h: Handle, p: Pid)
    requires h in hs && HandleCount(hs, h.name) == 1 && Holds(hs, p, h.name)
    ensures p == h.pid
  {
    var i :| 0 <= i < |hs| && hs[i].pid == p && hs[i].name == h.name;
    SoleHolder(hs, h, i);
  }

  // ---------------------------------------------------------------------------
  // Steps
  // ---------------------------------------------------------------------------

  /** Nothing that an orchestrator relies on has changed. */
  ghost predicate Carried(st: State, t: State, s: SchemaName, pid: Pid)
  {
    && pid in st.orcs && pid in t.orcs && t.orcs[pid] == st.orcs[pid]
    && pid in st.w.alive && pid in t.w.alive && t.w.alive[pid] == st.w.alive[pid]
    && (forall n {:trigger n in st.path} :: n in st.path ==>
          n in t.path && (HandleOn(st, pid, n) in st.w.handles ==> HandleOn(t, pid, n) in t.w.handles))
    && (forall n {:trigger Private(st, s, pid, n)} :: Private(st, s, pid, n) ==> Private(t, s, pid, n))
    && (forall n {:trigger n in st.lineage} :: n in st.lineage && (n in st.path || Private(st, s, pid, n)) ==>
          n in t.lineage && t.lineage[n] == st.lineage[n])
  }

  lemma CarriedOk(st: State, t: State, s: SchemaName, pid: Pid)
    requires pid in st.orcs && OrcOk(st, s, pid) && Carried(st, t, s, pid)
    ensures OrcOk(t, s, pid)
  {
    hide Private, HandleOn;
  }

  lemma PrivateDiffer(st: State, s: SchemaName, p: Pid, m: Name, q: Pid, n: Name)
    requires p in st.w.alive && q in st.w.alive && p != q && Private(st, s, p, m) && Private(st, s, q, n)
    ensures m != n
  {
    if m == n {
      var h := HandleOn(st, q, n);
      var i :| 0 <= i < |st.w.handles| && st.w.handles[i] == h;
      SoleHolder(st.w.handles, HandleOn(st, p, m), i);
    }
  }

  /** A world step by anyone else carries an orchestrator along. */
  lemma WorldStepCarries(st: State, t: State, s: SchemaName, ev: Event, pid: Pid)
    requires Inv(st.w) && PathOk(st, s) && pid in st.orcs && pid in st.w.alive
    requires Foreign(st.(orcs := map[pid := st.orcs[pid]]), s, ev) && Enabled(st.w, ev)
    requires t.w == Next(st.w, ev) && t.path == st.path && t.lineage == st.lineage
    requires pid in t.orcs && t.orcs[pid] == st.orcs[pid]
    ensures Carried(st, t, s, pid)
  {
    hide Next, Enabled, Inv, HandleCount, Foreign;
    var alone := st.(orcs := map[pid := st.orcs[pid]]);
    assert PathOk(alone, s);
    AliveKept(alone, s, ev, pid);
    forall n | n in st.path && HandleOn(st, pid, n) in st.w.handles
      ensures HandleOn(t, pid, n) in t.w.handles
    {
      OtherKeepsHandle(alone, s, ev, pid, n);
    }
    forall n | Private(st, s, pid, n)
      ensures Private(t, s, pid, n)
    {
      OtherKeepsHandle(alone, s, ev, pid, n);
      OtherKeepsPrivate(alone, s, ev, pid, n);
    }
  }

  lemma AliveKept(st: State, s: SchemaName, ev: Event, pid: Pid)
    requires Foreign(st, s, ev) && Enabled(st.w, ev) && pid in st.orcs && pid in st.w.alive
    ensures pid in Next(st.w, ev).alive && Next(st.w, ev).alive[pid] == st.w.alive[pid]
  {
  }

  lemma CreatedGrows(w: World, ev: Event)
    requires Enabled(w, ev)
    ensures w.created <= Next(w, ev).created
  {
  }

  /** The path is untouched by a world step that leaves the current key or drops it. */
  lemma PathCarries(st: State, t: State, s: SchemaName)
    requires PathOk(st, s) && t.path == st.path && st.w.created <= t.w.created
    requires forall n :: n in st.path ==> n in t.lineage && n in st.lineage && t.lineage[n] == st.lineage[n]
    requires s in t.w.k.current ==> s in st.w.k.current && t.w.k.current[s] == st.w.k.current[s]
    ensures PathOk(t, s)
  {
    forall i | 0 <= i < |t.path|
      ensures t.path[i] in t.lineage && t.lineage[t.path[i]] == t.path[..i + 1] && t.path[i] in t.w.created
    {
      assert st.path[i] in st.lineage && st.path[i] in st.path;
    }
  }

  lemma StepOther(st: State, s: SchemaName, ev: Event)
    requires Safe(st, s) && CanStep(st, s, Other(ev))
    ensures Safe(After(st, s, Other(ev)), s)
  {
    hide Next, Inv, Carried, OrcOk, Enabled;
    var t := After(st, s, Other(ev));
    StepKeepsInv(st.w, ev);
    OthersCurrent(st, s, ev);
    CreatedGrows(st.w, ev);
    PathCarries(st, t, s);
    forall pid | pid in t.orcs
      ensures OrcOk(t, s, pid)
    {
      assert OrcOk(st, s, pid);
      assert pid in st.w.alive by { hide *; OrcAlive(st, s, pid); }
      assert Foreign(st.(orcs := map[pid := st.orcs[pid]]), s, ev);
      WorldStepCarries(st, t, s, ev, pid);
      CarriedOk(st, t, s, pid);
    }
  }

  lemma OrcAlive(st: State, s: SchemaName, pid: Pid)
    requires pid in st.orcs && OrcOk(st, s, pid)
    ensures pid in st.w.alive
  {
  }

  /** What the protocol invariant is about is the same. */
  ghost predicate SameProtocol(st: State, t: State)
  {
    t.w == st.w && t.path == st.path && t.lineage == st.lineage
  }

  lemma StillCarried(st: State, t: State, s: SchemaName, q: Pid)
    requires q in st.orcs && q in st.w.alive && SameProtocol(st, t) && q in t.orcs && t.orcs[q] == st.orcs[q]
    ensures Carried(st, t, s, q)
  {
    hide HandleCount;
  }

  predicate QuietStep(step: Step)
  {
    step.Write? || step.TornWrite? || step.Acquire? || step.LockExpires? || step.Recheck? || step.Fail? || step.Leave?
  }

  lemma QuietSame(st: State, s: SchemaName, step: Step)
    requires CanStep(st, s, step) && QuietStep(step)
    ensures SameProtocol(st, After(st, s, step))
  {
  }

  /** The orchestrator whose own step it is. */
  lemma QuietSelf(st: State, s: SchemaName, step: Step, q: Pid)
    requires CanStep(st, s, step) && QuietStep(step) && q in After(st, s, step).orcs
    requires q in st.orcs ==> OrcOk(st, s, q) && After(st, s, step).orcs[q] != st.orcs[q]
    ensures OrcOk(After(st, s, step), s, q)
  {
    hide Private, HandleOn, Translation;
    if q in st.orcs {
      assert OrcOk(st, s, q);
      assert step.Recheck? || step.Fail?;
      SamePrivate(st, After(st, s, step), s, q);
    }
  }

  lemma SamePrivate(st: State, t: State, s: SchemaName, pid: Pid)
    requires SameProtocol(st, t) && pid in st.w.alive
    ensures forall n {:trigger Private(t, s, pid, n)} :: Private(st, s, pid, n) ==> Private(t, s, pid, n)
    ensures forall n {:trigger HandleOn(t, pid, n)} :: HandleOn(t, pid, n) == HandleOn(st, pid, n)
  {
    hide HandleCount;
  }

  lemma SamePath(st: State, t: State, s: SchemaName)
    requires Inv(st.w) && PathOk(st, s) && SameProtocol(st, t)
    ensures Inv(t.w) && PathOk(t, s)
  {
    hide Inv;
  }

  /** A step that changes neither the world nor the path. */
  lemma StepQuiet(st: State, s: SchemaName, step: Step)
    requires Safe(st, s) && CanStep(st, s, step) && QuietStep(step)
    ensures Safe(After(st, s, step), s)
  {
    hide Inv, OrcOk, Private, Carried, HandleOn, PathOk, CanStep, After, SameProtocol;
    var t := After(st, s, step);
    QuietSame(st, s, step);
    SamePath(st, t, s);
    forall q | q in t.orcs
      ensures OrcOk(t, s, q)
    {
      if q in st.orcs {
        assert OrcOk(st, s, q);
      }
      if q in st.orcs && t.orcs[q] == st.orcs[q] {
        OrcAlive(st, s, q);
        StillCarried(st, t, s, q);
        CarriedOk(st, t, s, q);
      } else {
        QuietSelf(st, s, step, q);
      }
    }
  }

  lemma CopyFacts(st: State, s: SchemaName, pid: Pid)
    requires Safe(st, s) && CanStep(st, s, CopyRows(pid))
    ensures var t, n := After(st, s, CopyRows(pid)), st.orcs[pid].newSeg.name;
            && pid in st.w.alive && Private(st, s, pid, n)
            && t.w == st.w && t.path == st.path
            && t.lineage == st.lineage[n := st.lineage[st.orcs[pid].oldSeg.name] + [n]]
            && t.orcs == st.orcs[pid := st.orcs[pid].(stage := Filled)]
  {
    hide Inv, HandleCount, Private, PathOk, Translation;
    assert OrcOk(st, s, pid);
  }

  lemma CopyCarries(st: State, t: State, s: SchemaName, pid: Pid, n: Name, rows: seq<Name>, q: Pid)
    requires pid in st.w.alive && q in st.w.alive && q != pid && Private(st, s, pid, n) && q in st.orcs && q in t.orcs
    requires t.orcs[q] == st.orcs[q] && t.w == st.w && t.path == st.path && t.lineage == st.lineage[n := rows]
    ensures Carried(st, t, s, q)
  {
    hide HandleCount;
    forall m | Private(st, s, q, m)
      ensures m != n
    {
      PrivateDiffer(st, s, pid, n, q, m);
    }
  }

  lemma CopiedOk(st: State, t: State, s: SchemaName, pid: Pid)
    requires pid in st.orcs && OrcOk(st, s, pid) && st.orcs[pid].stage.Made?
    requires t.orcs == st.orcs[pid := st.orcs[pid].(stage := Filled)] && t.w == st.w && t.path == st.path
    requires var o, n := st.orcs[pid].oldSeg.name, st.orcs[pid].newSeg.name;
             o in st.lineage && t.lineage == st.lineage[n := st.lineage[o] + [n]]
    ensures OrcOk(t, s, pid)
  {
    hide HandleCount;
  }

  lemma StepCopy(st: State, s: SchemaName, pid: Pid)
    requires Safe(st, s) && CanStep(st, s, CopyRows(pid))
    ensures Safe(After(st, s, CopyRows(pid)), s)
  {
    CopyFacts(st, s, pid);
    hide Inv, OrcOk, Private, Carried, HandleOn, After;
    var t := After(st, s, CopyRows(pid));
    assert OrcOk(st, s, pid);
    var n := st.orcs[pid].newSeg.name;
    PrivateOffPath(st, s, pid, n);
    PathCarries(st, t, s);
    forall q | q in t.orcs
      ensures OrcOk(t, s, q)
    {
      assert OrcOk(st, s, q);
      if q == pid {
        CopiedOk(st, t, s, pid);
      } else {
        OrcAlive(st, s, q);
        CopyCarries(st, t, s, pid, n, st.lineage[st.orcs[pid].oldSeg.name] + [n], q);
        CarriedOk(st, t, s, q);
      }
    }
  }

  lemma FlipEnabled(st: State, s: SchemaName, pid: Pid, at: nat)
    requires Safe(st, s) && CanStep(st, s, FlipCurrentKey(pid, at))
    ensures Enabled(st.w, Flip(at, s, st.orcs[pid].oldSeg.name))
  {
    hide Inv, HandleCount;
    assert OrcOk(st, s, pid);
  }

  lemma FlipCarries(st: State, t: State, s: SchemaName, pid: Pid, n: Name, q: Pid)
    requires pid in st.w.alive && q in st.w.alive && q != pid && Private(st, s, pid, n) && q in st.orcs && q in t.orcs
    requires t.orcs[q] == st.orcs[q] && t.lineage == st.lineage && t.path == st.path + [n]
    requires t.w == st.w.(k := t.w.k) && t.w.k.sidetable == st.w.k.sidetable
    ensures Carried(st, t, s, q)
  {
    hide HandleCount;
    forall m | Private(st, s, q, m)
      ensures Private(t, s, q, m)
    {
      PrivateDiffer(st, s, pid, n, q, m);
    }
  }

  predicate CurrentUnmoved(st: State, s: SchemaName, pid: Pid)
  {
    pid in st.orcs && s in st.w.k.current && Just(st.w.k.current[s]) == st.orcs[pid].oldSeg
  }

  /** A flip that finds the segment it expects. */
  lemma FlipWins(st: State, s: SchemaName, pid: Pid, at: nat)
    requires Safe(st, s) && CanStep(st, s, FlipCurrentKey(pid, at)) && CurrentUnmoved(st, s, pid)
    ensures var t, n := After(st, s, FlipCurrentKey(pid, at)), st.orcs[pid].newSeg.name;
            && pid in st.w.alive && Private(st, s, pid, n)
            && n in st.lineage && st.w.k.current[s] in st.lineage
            && st.lineage[n] == st.lineage[st.w.k.current[s]] + [n]
            && t.path == st.path + [n] && t.lineage == st.lineage
            && t.orcs == st.orcs[pid := st.orcs[pid].(stage := Swapped)]
            && t.w == st.w.(k := t.w.k) && t.w.k.sidetable == st.w.k.sidetable
            && s in t.w.k.current && t.w.k.current[s] == n
            && Inv(t.w)
  {
    hide Inv, HandleCount, PathOk;
    assert OrcOk(st, s, pid);
    FlipEnabled(st, s, pid, at);
    StepKeepsInv(st.w, Flip(at, s, st.orcs[pid].oldSeg.name));
  }

  lemma FlippedOk(st: State, t: State, s: SchemaName, pid: Pid, n: Name)
    requires pid in st.orcs && OrcOk(st, s, pid) && st.orcs[pid].stage.Filled?
    requires t.orcs == st.orcs[pid := st.orcs[pid].(stage := Swapped)] && t.path == st.path + [n]
    requires t.w == st.w.(k := t.w.k)
    ensures OrcOk(t, s, pid)
  {
    hide HandleCount;
  }

  lemma StepFlipCurrentKey(st: State, s: SchemaName, pid: Pid, at: nat)
    requires Safe(st, s) && CanStep(st, s, FlipCurrentKey(pid, at))
    ensures Safe(After(st, s, FlipCurrentKey(pid, at)), s)
  {
    var t := After(st, s, FlipCurrentKey(pid, at));
    if CurrentUnmoved(st, s, pid) {
      FlipWins(st, s, pid, at);
      hide Inv, After, Private, PathOk, OrcOk, Carried;
      var n := st.orcs[pid].newSeg.name;
      MadeCreated(st, s, pid, n);
      PrivateOffPath(st, s, pid, n);
      PathExtends(st, t, s, n);
      forall q | q in t.orcs
        ensures OrcOk(t, s, q)
      {
        assert OrcOk(st, s, q);
        if q == pid {
          FlippedOk(st, t, s, pid, n);
        } else {
          OrcAlive(st, s, q);
          FlipCarries(st, t, s, pid, n, q);
          CarriedOk(st, t, s, q);
        }
      }
    } else {
      StepUnwind(st, s, pid);
    }
  }

  lemma PrivateOffPath(st: State, s: SchemaName, pid: Pid, n: Name)
    requires pid in st.w.alive && Private(st, s, pid, n)
    ensures n !in st.path
  {
  }

  lemma StepUnwind(st: State, s: SchemaName, pid: Pid)
    requires Safe(st, s) && pid in st.orcs && !st.orcs[pid].stage.Swapped?
    ensures Safe(With(st, pid, st.orcs[pid].(stage := Unwinding)), s)
  {
    hide Inv, Private, Carried, OrcOk;
    var t := With(st, pid, st.orcs[pid].(stage := Unwinding));
    forall q | q in t.orcs
      ensures OrcOk(t, s, q)
    {
      assert OrcOk(st, s, q);
      if q == pid {
        UnwindOk(st, t, s, pid);
      } else {
        OrcAlive(st, s, q);
        StillCarried(st, t, s, q);
        CarriedOk(st, t, s, q);
      }
    }
  }

  lemma UnwindOk(st: State, t: State, s: SchemaName, pid: Pid)
    requires pid in st.orcs && OrcOk(st, s, pid) && !st.orcs[pid].stage.Swapped?
    requires t == With(st, pid, st.orcs[pid].(stage := Unwinding))
    ensures OrcOk(t, s, pid)
  {
    hide HandleCount;
  }

  lemma MadeCreated(st: State, s: SchemaName, pid: Pid, n: Name)
    requires Inv(st.w) && pid in st.w.alive && Private(st, s, pid, n)
    ensures n in st.w.created
  {
    hide HandleCount, Accounts;
    assert HandleOk(st.w, HandleOn(st, pid, n));
  }

  lemma PathExtends(st: State, t: State, s: SchemaName, n: Name)
    requires PathOk(st, s) && s in st.w.k.current && n !in st.path && n in st.w.created
    requires t.path == st.path + [n] && t.lineage == st.lineage && t.w.created == st.w.created
    requires n in st.lineage && st.w.k.current[s] in st.lineage && st.lineage[n] == st.lineage[st.w.k.current[s]] + [n]
    requires s in t.w.k.current && t.w.k.current[s] == n
    ensures PathOk(t, s)
  {
    var m := |st.path|;
    assert st.lineage[st.path[m - 1]] == st.path[..m] == st.path;
    forall i | 0 <= i < |t.path|
      ensures t.path[i] in t.lineage && t.lineage[t.path[i]] == t.path[..i + 1] && t.path[i] in t.w.created
    {
      if i < m {
        assert t.path[i] == st.path[i] && t.path[..i + 1] == st.path[..i + 1];
      } else {
        assert t.path[..i + 1] == t.path;
      }
    }
  }

  /** An orchestrator's own lifecycle event, given what it then relies on. */
  lemma StepWorld(st: State, t: State, s: SchemaName, ev: Event, pid: Pid)
    requires Safe(st, s) && Foreign(st.(orcs := st.orcs - {pid}), s, ev) && Enabled(st.w, ev)
    requires t.w == Next(st.w, ev) && t.path == st.path && t.lineage == st.lineage
    requires forall q :: q in t.orcs && q != pid ==> q in st.orcs && t.orcs[q] == st.orcs[q]
    requires pid in t.orcs ==> OrcOk(t, s, pid)
    ensures Safe(t, s)
  {
    hide Next, Inv, Carried, OrcOk, Enabled, HandleOn;
    StepKeepsInv(st.w, ev);
    OthersCurrent(st.(orcs := st.orcs - {pid}), s, ev);
    CreatedGrows(st.w, ev);
    PathCarries(st, t, s);
    forall q | q in t.orcs
      ensures OrcOk(t, s, q)
    {
      if q != pid {
        assert OrcOk(st, s, q);
        OrcAlive(st, s, q);
        assert Foreign(st.(orcs := map[q := st.orcs[q]]), s, ev);
        WorldStepCarries(st, t, s, ev, q);
        CarriedOk(st, t, s, q);
      }
    }
  }

  lemma OpenedOk(st: State, s: SchemaName, pid: Pid)
    requires Safe(st, s) && CanStep(st, s, OpenOld(pid))
    ensures var t := After(st, s, OpenOld(pid));
            && pid in t.orcs && OrcOk(t, s, pid) && t.w == Next(st.w, OpenCurrent(pid, s))
            && t.path == st.path && t.lineage == st.lineage && t.orcs == st.orcs[pid := t.orcs[pid]]
    ensures pid in st.orcs && Enabled(st.w, OpenCurrent(pid, s))
  {
    hide Inv, HandleCount;
    var t := After(st, s, OpenOld(pid));
    assert OrcOk(st, s, pid);
    assert t.w.handles[|st.w.handles|] == HandleOn(t, pid, st.w.k.current[s]);
  }

  lemma StepOpen(st: State, s: SchemaName, pid: Pid)
    requires Safe(st, s) && CanStep(st, s, OpenOld(pid))
    ensures Safe(After(st, s, OpenOld(pid)), s)
  {
    OpenedOk(st, s, pid);
    hide Inv, Safe, CanStep, After, Next, Enabled, OrcOk;
    StepWorld(st, After(st, s, OpenOld(pid)), s, OpenCurrent(pid, s), pid);
  }

  lemma NoHandles(w: World, n: Name)
    requires Inv(w) && n !in w.created
    ensures HandleCount(w.handles, n) == 0
  {
    hide HandleCount;
    assert Count(w.k, n) == HandleCount(w.handles, n);
  }

  lemma CreatedOk(st: State, s: SchemaName, pid: Pid, n: Name)
    requires Safe(st, s) && CanStep(st, s, CreateNew(pid, n))
    ensures var t := After(st, s, CreateNew(pid, n));
            && pid in t.orcs && OrcOk(t, s, pid) && t.w == Next(st.w, Create(pid, s, n, false))
            && t.path == st.path && t.lineage == st.lineage && t.orcs == st.orcs[pid := t.orcs[pid]]
    ensures pid in st.orcs && Enabled(st.w, Create(pid, s, n, false))
  {
    hide Inv, HandleCount;
    var t := After(st, s, CreateNew(pid, n));
    var h := HandleOn(t, pid, n);
    assert OrcOk(st, s, pid);
    assert n !in st.path;
    assert t.w.handles == st.w.handles + [h];
    assert t.w.handles[|st.w.handles|] == h;
    NoHandles(st.w, n);
    CountAppend(st.w.handles, h, n);
    var o := st.orcs[pid].oldSeg;
    assert HandleOn(t, pid, o.name) in t.w.handles;
  }

  lemma StepCreate(st: State, s: SchemaName, pid: Pid, n: Name)
    requires Safe(st, s) && CanStep(st, s, CreateNew(pid, n))
    ensures Safe(After(st, s, CreateNew(pid, n)), s)
  {
    CreatedOk(st, s, pid, n);
    hide Inv, Safe, CanStep, After, Next, Enabled, OrcOk;
    StepWorld(st, After(st, s, CreateNew(pid, n)), s, Create(pid, s, n, false), pid);
  }

  lemma ClosedOk(st: State, s: SchemaName, pid: Pid, at: nat)
    requires Safe(st, s) && CanStep(st, s, CloseOld(pid, at))
    ensures var t := After(st, s, CloseOld(pid, at));
            && pid in t.orcs && OrcOk(t, s, pid) && t.w == Next(st.w, Close(at))
            && t.path == st.path && t.lineage == st.lineage && t.orcs == st.orcs[pid := t.orcs[pid]]
    ensures pid in st.orcs && Enabled(st.w, Close(at)) && Foreign(st.(orcs := st.orcs - {pid}), s, Close(at))
  {
    hide Inv, HandleCount, Private;
    assert OrcOk(st, s, pid);
  }

  lemma StepCloseOld(st: State, s: SchemaName, pid: Pid, at: nat)
    requires Safe(st, s) && CanStep(st, s, CloseOld(pid, at))
    ensures Safe(After(st, s, CloseOld(pid, at)), s)
  {
    ClosedOk(st, s, pid, at);
    hide Inv, Safe, CanStep, After, Next, Enabled, OrcOk, Foreign;
    StepWorld(st, After(st, s, CloseOld(pid, at)), s, Close(at), pid);
  }

  lemma StepCrash(st: State, s: SchemaName, pid: Pid, clean: bool)
    requires Safe(st, s) && CanStep(st, s, Crash(pid, clean))
    ensures Safe(After(st, s, Crash(pid, clean)), s)
  {
    hide Inv, OrcOk;
    StepWorld(st, After(st, s, Crash(pid, clean)), s, Die(pid, clean), pid);
  }

  /** Closing the only handle of an uncurrent segment queues it. */
  lemma CloseQueues(w: World, at: nat)
    requires Inv(w) && at < |w.handles| && Enabled(w, Close(at))
    requires var n := w.handles[at].name;
             Count(w.k, n) == 1 && n in w.k.sidetable && forall s' :: s' in w.k.current ==> w.k.current[s'] != n
    ensures var h := w.handles[at];
            && h.name !in w.k.queue && h.name !in w.popped
            && Next(w, Close(at)) == w.(k := OrphanKeys(w.k, h.pid, h.name).(queue := w.k.queue + {h.name}),
                 handles := Without(w.handles, at))
  {
    hide HandleCount, Holds, HandlesOk, Listed;
    var n := w.handles[at].name;
    assert n in w.k.refcount;
    assert n !in w.k.queue && n !in w.popped;
  }

  /** The orphan pipeline and unlink of a private segment are a close, a drain of that name
      and an unlink: nobody else can have opened it, so its refcount is one. */
  lemma OrphanDropIsClose(st: State, s: SchemaName, pid: Pid, at: nat)
    requires Safe(st, s) && CanStep(st, s, DropOrphan(pid, at))
    ensures var n := st.orcs[pid].newSeg.name;
            && Enabled(st.w, Close(at)) && Enabled(Next(st.w, Close(at)), Drain({n}))
            && Enabled(Next(Next(st.w, Close(at)), Drain({n})), Unlink(n))
            && OrphanDropped(st.w, at) == Next(Next(Next(st.w, Close(at)), Drain({n})), Unlink(n))
    ensures After(st, s, DropOrphan(pid, at)).w.k.current == st.w.k.current
  {
    hide HandleCount, Holds, HandlesOk, Listed, Retired, Pointers;
    var n := st.orcs[pid].newSeg.name;
    assert OrcOk(st, s, pid);
    assert Count(st.w.k, n) == 1;
    forall s' | s' in st.w.k.current
      ensures st.w.k.current[s'] != n
    {
      PrivateNotCurrent(st, s, pid, n, s');
    }
    assert Enabled(st.w, Close(at)) && st.w.handles[at].name == n && n in st.w.k.sidetable;
    CloseQueues(st.w, at);
    hide Inv, OrcOk, PathOk, Accounts;
    DrainedSame(st.w, st.w.handles[at], at);
  }

  lemma DrainedSame(w: World, h: Handle, at: nat)
    requires at < |w.handles| && w.handles[at] == h && h.name !in w.k.queue && h.name !in w.popped
    requires Enabled(w, Close(at))
    requires Next(w, Close(at)) == w.(k := OrphanKeys(w.k, h.pid, h.name).(queue := w.k.queue + {h.name}),
               handles := Without(w.handles, at))
    ensures var n, w1 := h.name, Next(w, Close(at));
            && Enabled(w1, Drain({n})) && Enabled(Next(w1, Drain({n})), Unlink(n))
            && OrphanDropped(w, at) == Next(Next(w1, Drain({n})), Unlink(n))
  {
    var n, w1 := h.name, Next(w, Close(at));
    hide Closed, Release;
    var w3 := Next(Next(w1, Drain({n})), Unlink(n));
    assert w3.k.queue == w.k.queue;
    assert w3.popped == w.popped;
  }

  lemma DropFacts(st: State, s: SchemaName, pid: Pid, at: nat)
    requires CanStep(st, s, DropOrphan(pid, at))
    ensures pid in st.orcs && st.orcs[pid].newSeg.Just? && at < |st.w.handles|
    ensures Foreign(st.(orcs := st.orcs - {pid}), s, Close(at))
    ensures forall t, n {:trigger Foreign(t, s, Drain({n}))} {:trigger Foreign(t, s, Unlink(n))} ::
              Foreign(t, s, Drain({n})) && Foreign(t, s, Unlink(n))
  {
  }

  /** Safety survives the drop, its orchestrator set aside. */
  lemma DropAside(st: State, s: SchemaName, pid: Pid, at: nat)
    requires Safe(st, s) && CanStep(st, s, DropOrphan(pid, at))
    ensures at < |st.w.handles| && Safe(st.(w := OrphanDropped(st.w, at), orcs := st.orcs - {pid}), s)
  {
    hide *;
    DropFacts(st, s, pid, at);
    OrphanDropIsClose(st, s, pid, at);
    var n := st.orcs[pid].newSeg.name;
    var t1 := st.(w := Next(st.w, Close(at)), orcs := st.orcs - {pid});
    StepWorld(st, t1, s, Close(at), pid);
    var t2 := t1.(w := Next(t1.w, Drain({n})));
    StepWorld(t1, t2, s, Drain({n}), pid);
    StepWorld(t2, t2.(w := Next(t2.w, Unlink(n))), s, Unlink(n), pid);
  }

  /** Putting an orchestrator back in. */
  lemma JoinSafe(aside: State, t: State, s: SchemaName, pid: Pid)
    requires Safe(aside, s) && SameProtocol(aside, t) && pid !in aside.orcs
    requires forall q :: q in t.orcs && q != pid ==> q in aside.orcs && t.orcs[q] == aside.orcs[q]
    requires pid in t.orcs ==> OrcOk(t, s, pid)
    ensures Safe(t, s)
  {
    hide Inv, OrcOk, Private, Carried, HandleOn;
    forall q | q in t.orcs
      ensures OrcOk(t, s, q)
    {
      if q != pid {
        assert OrcOk(aside, s, q);
        OrcAlive(aside, s, q);
        StillCarried(aside, t, s, q);
        CarriedOk(aside, t, s, q);
      }
    }
  }

  lemma StepDrop(st: State, s: SchemaName, pid: Pid, at: nat)
    requires Safe(st, s) && CanStep(st, s, DropOrphan(pid, at))
    ensures Safe(After(st, s, DropOrphan(pid, at)), s)
  {
    hide *;
    var t := After(st, s, DropOrphan(pid, at));
    DroppedOk(st, t, s, pid, at);
    DropAside(st, s, pid, at);
    JoinSafe(st.(w := OrphanDropped(st.w, at), orcs := st.orcs - {pid}), t, s, pid);
  }

  lemma DroppedOk(st: State, t: State, s: SchemaName, pid: Pid, at: nat)
    requires Safe(st, s) && CanStep(st, s, DropOrphan(pid, at)) && t == After(st, s, DropOrphan(pid, at))
    ensures pid in t.orcs && OrcOk(t, s, pid)
    ensures at < |st.w.handles| && SameProtocol(st.(w := OrphanDropped(st.w, at), orcs := st.orcs - {pid}), t)
    ensures t.orcs.Keys == st.orcs.Keys && forall q :: q in st.orcs && q != pid ==> t.orcs[q] == st.orcs[q]
  {
    hide Inv, HandleCount;
    assert OrcOk(st, s, pid);
    var o := st.orcs[pid];
    if o.oldSeg.Just? {
      assert o.oldSeg.name != o.newSeg.name;
      WithoutKeeps(st.w.handles, at, HandleOn(st, pid, o.oldSeg.name));
    }
  }

  lemma StepKeepsSafe(st: State, s: SchemaName, step: Step)
    requires Safe(st, s) && CanStep(st, s, step)
    ensures Safe(After(st, s, step), s)
  {
    hide Safe, CanStep, After;
    match step {
      case Other(ev) => StepOther(st, s, ev);
      case OpenOld(pid) => StepOpen(st, s, pid);
      case CreateNew(pid, n) => StepCreate(st, s, pid, n);
      case CopyRows(pid) => StepCopy(st, s, pid);
      case FlipCurrentKey(pid, at) => StepFlipCurrentKey(st, s, pid, at);
      case DropOrphan(pid, at) => StepDrop(st, s, pid, at);
      case CloseOld(pid, at) => StepCloseOld(st, s, pid, at);
      case Crash(pid, clean) => StepCrash(st, s, pid, clean);
      case _ => StepQuiet(st, s, step);
    }
  }

  // ---------------------------------------------------------------------------
  // Runs
  // ---------------------------------------------------------------------------

  /** No upgrade under way; the current segment, if any, is fully populated. */
  ghost predicate Begin(st: State, s: SchemaName)
  {
    && Inv(st.w) && st.orcs == map[] && st.lock.Free?
    && (if s in st.w.k.current then
          var n := st.w.k.current[s];
          st.path == [n] && n in st.lineage && st.lineage[n] == [n] && n in st.w.created
        else st.path == [])
  }

  ghost predicate Runs(st: State, s: SchemaName, steps: seq<Step>)
    decreases |steps|
  {
    steps == [] || (CanStep(st, s, steps[0]) && Runs(After(st, s, steps[0]), s, steps[1..]))
  }

  ghost function Ran(st: State, s: SchemaName, steps: seq<Step>): State
    requires Runs(st, s, steps)
    decreases |steps|
  {
    if steps == [] then st else Ran(After(st, s, steps[0]), s, steps[1..])
  }

  lemma {:induction false} RunKeepsSafe(st: State, s: SchemaName, steps: seq<Step>)
    requires Safe(st, s) && Runs(st, s, steps)
    ensures Safe(Ran(st, s, steps), s)
    decreases |steps|
  {
    hide Safe, CanStep, After;
    if steps != [] {
      StepKeepsSafe(st, s, steps[0]);
      RunKeepsSafe(After(st, s, steps[0]), s, steps[1..]);
    }
  }

  lemma BeginSafe(st: State, s: SchemaName)
    requires Begin(st, s)
    ensures Safe(st, s)
  {
    hide Inv;
  }

  /** Atomic visibility: in every run the current key is absent, or names a segment in use that
      was fully populated by translating along all current segments before it. */
  lemma CurrentAlwaysPopulated(st: State, s: SchemaName, steps: seq<Step>)
    requires Begin(st, s) && Runs(st, s, steps)
    ensures var t := Ran(st, s, steps);
            s in t.w.k.current ==>
              var n := t.w.k.current[s];
              && n in t.lineage && t.lineage[n] == t.path
              && n in t.w.k.refcount && n !in t.w.k.queue && n !in t.w.popped && n !in t.w.unlinked
  {
    BeginSafe(st, s);
    RunKeepsSafe(st, s, steps);
    hide HandleCount, OrcOk, Accounts;
    var t := Ran(st, s, steps);
    if s in t.w.k.current {
      assert t.path[..|t.path|] == t.path;
      assert t.path[|t.path| - 1] in t.lineage;
    }
  }

  /** In every run an orchestrator's unflipped segment has exactly one handle and is nobody's
      current segment, so dropping it takes nothing from anyone. */
  lemma UnflippedIsUnseen(st: State, s: SchemaName, steps: seq<Step>, pid: Pid)
    requires Begin(st, s) && Runs(st, s, steps)
    ensures var t := Ran(st, s, steps);
            pid in t.orcs && t.orcs[pid].newSeg.Just? && !t.orcs[pid].stage.Swapped? ==>
              var n := t.orcs[pid].newSeg.name;
              && Count(t.w.k, n) == 1 && HandleCount(t.w.handles, n) == 1 && Holds(t.w.handles, pid, n)
              && forall s' :: s' in t.w.k.current ==> t.w.k.current[s'] != n
  {
    BeginSafe(st, s);
    RunKeepsSafe(st, s, steps);
    hide HandleCount, Safe;
    var t := Ran(st, s, steps);
    if pid in t.orcs && t.orcs[pid].newSeg.Just? && !t.orcs[pid].stage.Swapped? {
      UnseenNow(t, s, pid);
    }
  }

  lemma UnseenNow(t: State, s: SchemaName, pid: Pid)
    requires Safe(t, s) && pid in t.orcs && t.orcs[pid].newSeg.Just? && !t.orcs[pid].stage.Swapped?
    ensures var n := t.orcs[pid].newSeg.name;
            && Count(t.w.k, n) == 1 && HandleCount(t.w.handles, n) == 1 && Holds(t.w.handles, pid, n)
            && forall s' :: s' in t.w.k.current ==> t.w.k.current[s'] != n
  {
    hide HandleCount, HandlesOk, Retired, Listed, Pointers;
    assert OrcOk(t, s, pid);
    var n := t.orcs[pid].newSeg.name;
    assert Count(t.w.k, n) == HandleCount(t.w.handles, n);
    forall s' | s' in t.w.k.current
      ensures t.w.k.current[s'] != n
    {
      PrivateNotCurrent(t, s, pid, n, s');
    }
  }

  /** A step whose flip script returns 1. */
  ghost predicate FlipsFrom(st: State, s: SchemaName, step: Step, o: Name)
  {
    step.FlipCurrentKey? && CurrentUnmoved(st, s, step.pid) && st.w.k.current[s] == o
  }

  lemma StepPath(st: State, s: SchemaName, step: Step)
    requires CanStep(st, s, step)
    ensures st.path <= After(st, s, step).path
    ensures step.FlipCurrentKey? && CurrentUnmoved(st, s, step.pid) ==> |After(st, s, step).path| == |st.path| + 1
  {
  }

  lemma {:induction false} RunPath(st: State, s: SchemaName, steps: seq<Step>)
    requires Runs(st, s, steps)
    ensures st.path <= Ran(st, s, steps).path
    decreases |steps|
  {
    hide CanStep, After;
    if steps != [] {
      StepPath(st, s, steps[0]);
      RunPath(After(st, s, steps[0]), s, steps[1..]);
    }
  }

  lemma LaterFlipDiffers(a: State, b: State, c: State, s: SchemaName, first: Step, second: Step, o: Name, p: Name)
    requires Safe(a, s) && Safe(c, s) && FlipsFrom(a, s, first, o) && FlipsFrom(c, s, second, p)
    requires a.path <= b.path <= c.path && |a.path| < |b.path|
    ensures o != p
  {
    hide Inv, OrcOk;
    var i, j := |a.path| - 1, |c.path| - 1;
    assert a.path[i] == o && c.path[j] == p && c.path[i] == b.path[i] == o && i < j;
  }

  /** At most one flip per old segment: two successful flips of one run start from
      different segments. */
  lemma OneFlipPerOldSegment(st: State, s: SchemaName, before: seq<Step>, first: Step, between: seq<Step>, second: Step,
                             o: Name, p: Name)
    requires Begin(st, s) && Runs(st, s, before)
    requires CanStep(Ran(st, s, before), s, first) && FlipsFrom(Ran(st, s, before), s, first, o)
    requires Runs(After(Ran(st, s, before), s, first), s, between)
    requires FlipsFrom(Ran(After(Ran(st, s, before), s, first), s, between), s, second, p)
    ensures o != p
  {
    hide *;
    var a := Ran(st, s, before);
    var b := After(a, s, first);
    BeginSafe(st, s);
    RunKeepsSafe(st, s, before);
    StepKeepsSafe(a, s, first);
    RunKeepsSafe(b, s, between);
    FlipLengthens(a, s, first, o);
    RunPath(b, s, between);
    LaterFlipDiffers(a, b, Ran(b, s, between), s, first, second, o, p);
  }

  lemma FlipLengthens(a: State, s: SchemaName, step: Step, o: Name)
    requires CanStep(a, s, step) && FlipsFrom(a, s, step, o)
    ensures a.path <= After(a, s, step).path && |a.path| < |After(a, s, step).path|
  {
    hide CanStep, After;
    StepPath(a, s, step);
  }
}
