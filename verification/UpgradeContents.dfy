/** What the segments hold while upgrades run: every new current segment was filled with the
    translation of what the one before it held, along the whole path of current segments. */
module UpgradeContents {
  import opened Bytes
  import opened Lifecycle
  import opened Schema
  import opened SchemaUpgrade
  import opened RowTranslation
  import opened UpgradeProtocol

  // ---------------------------------------------------------------------------
  // The invariant
  // ---------------------------------------------------------------------------

  /** Segment `b` was filled by translating what segment `a` held at the copy. */
  ghost predicate FillOk(st: State, a: Name, b: Name)
  {
    && a in st.segs && b in st.segs && b in st.fill && st.fill[b].from == a
    && WidensFloats(st.wide) && Compatible(st.segs[a].def, st.segs[b].def) && RowsSized(st.segs[a].def, st.fill[b].base)
    && st.fill[b].filled == TranslatedMap(st.wide, st.segs[a].def, st.segs[b].def, st.fill[b].base)
  }

  ghost predicate SegOk(st: State, n: Name)
  {
    n in st.segs && RowsSized(st.segs[n].def, st.segs[n].rows)
  }

  /** Entities a segment was filled with are never dropped from it. */
  ghost predicate KeepsFill(st: State, n: Name)
  {
    n in st.segs && n in st.fill && st.fill[n].filled.Keys <= st.segs[n].rows.Keys
  }

  ghost predicate PathStock(st: State)
  {
    && (forall i {:trigger st.path[i]} :: 0 <= i < |st.path| ==> SegOk(st, st.path[i]))
    && (forall i {:trigger st.path[i]} :: 0 < i < |st.path| ==>
          FillOk(st, st.path[i - 1], st.path[i]) && KeepsFill(st, st.path[i]))
  }

  ghost predicate OrcStock(st: State, o: Orc)
  {
    && Compatible(o.source, o.target)
    && (o.stage in {OldOpen, Verified, Made, Filled} && o.oldSeg.Just? ==>
          o.oldSeg.name in st.segs && st.segs[o.oldSeg.name].def == o.source)
    && (o.stage in {Made, Filled} && o.newSeg.Just? ==>
          o.newSeg.name in st.segs && st.segs[o.newSeg.name].def == o.target)
    && (o.stage.Filled? && o.oldSeg.Just? && o.newSeg.Just? ==>
          FillOk(st, o.oldSeg.name, o.newSeg.name) && st.segs[o.newSeg.name].rows == st.fill[o.newSeg.name].filled)
  }

  ghost predicate Stocked(st: State)
  {
    && WidensFloats(st.wide) && PathStock(st)
    && forall pid {:trigger st.orcs[pid]} :: pid in st.orcs ==> OrcStock(st, st.orcs[pid])
  }

  // ---------------------------------------------------------------------------
  // What a step leaves alone
  // ---------------------------------------------------------------------------

  /** The segment has at least its entities, and its copy, if any, is the same. */
  ghost predicate Grown(st: State, t: State, n: Name)
  {
    && t.wide == st.wide
    && (n in st.segs ==> n in t.segs && t.segs[n].def == st.segs[n].def && st.segs[n].rows.Keys <= t.segs[n].rows.Keys)
    && (SegOk(st, n) ==> SegOk(t, n))
    && (n in st.fill ==> n in t.fill && t.fill[n] == st.fill[n])
  }

  ghost predicate Same(st: State, t: State, n: Name)
  {
    && t.wide == st.wide
    && (n in st.segs ==> n in t.segs && t.segs[n] == st.segs[n])
    && (n in st.fill ==> n in t.fill && t.fill[n] == st.fill[n])
  }

  lemma SameGrown(st: State, t: State, n: Name)
    requires Same(st, t, n)
    ensures Grown(st, t, n)
  {
    hide RowsSized;
  }

  lemma FillCarried(st: State, t: State, a: Name, b: Name)
    requires FillOk(st, a, b) && Grown(st, t, a) && Grown(st, t, b)
    ensures FillOk(t, a, b) && (KeepsFill(st, b) ==> KeepsFill(t, b))
  {
    hide SegOk, RowsSized, TranslatedMap, Compatible, WidensFloats;
  }

  lemma PathCarried(st: State, t: State)
    requires PathStock(st) && t.path == st.path && forall n {:trigger n in st.path} :: n in st.path ==> Grown(st, t, n)
    ensures PathStock(t)
  {
    hide FillOk, KeepsFill, Grown, SegOk;
    forall i | 0 <= i < |t.path|
      ensures SegOk(t, t.path[i])
      ensures i > 0 ==> FillOk(t, t.path[i - 1], t.path[i]) && KeepsFill(t, t.path[i])
    {
      assert st.path[i] in st.path;
      SegCarried(st, t, st.path[i]);
      if i > 0 {
        assert st.path[i - 1] in st.path;
        FillCarried(st, t, st.path[i - 1], st.path[i]);
      }
    }
  }

  lemma SegCarried(st: State, t: State, n: Name)
    requires SegOk(st, n) && Grown(st, t, n)
    ensures SegOk(t, n)
  {
    hide RowsSized;
  }

  /** The orchestrator's segments are as it left them: the old one grown, the new one the same. */
  lemma OrcCarried(st: State, t: State, o: Orc)
    requires OrcStock(st, o)
    requires o.oldSeg.Just? ==> Grown(st, t, o.oldSeg.name)
    requires o.newSeg.Just? && o.stage in {Made, Filled} ==> Same(st, t, o.newSeg.name)
    ensures OrcStock(t, o)
  {
    hide FillOk, SegOk, Compatible;
    if o.stage.Filled? && o.oldSeg.Just? && o.newSeg.Just? {
      SameGrown(st, t, o.newSeg.name);
      FillCarried(st, t, o.oldSeg.name, o.newSeg.name);
      FillHas(st, o.oldSeg.name, o.newSeg.name);
    }
  }

  lemma FillHas(st: State, a: Name, b: Name)
    requires FillOk(st, a, b)
    ensures b in st.fill && b in st.segs
  {
  }

  /** What the protocol invariant says of an orchestrator's segments. */
  lemma OrcSegments(st: State, s: SchemaName, pid: Pid)
    requires Safe(st, s) && pid in st.orcs
    ensures var o := st.orcs[pid];
            && pid in st.w.alive
            && (o.oldSeg.Just? ==> o.oldSeg.name in st.path)
            && (o.newSeg.Just? && !o.stage.Swapped? ==> Private(st, s, pid, o.newSeg.name) && o.newSeg.name !in st.path)
            && (o.stage in {OldOpen, Verified, Made, Filled} ==> o.oldSeg.Just?)
            && (o.stage in {Made, Filled} ==> o.newSeg.Just?)
  {
    hide Inv, PathOk, HandleCount;
    assert OrcOk(st, s, pid);
  }

  lemma PathCreated(st: State, s: SchemaName)
    requires PathOk(st, s)
    ensures forall n {:trigger n in st.path} :: n in st.path ==> n in st.w.created
  {
  }

  /** Every orchestrator but those at work is carried when the path's segments have grown
      and no private segment has changed. */
  lemma OthersCarried(st: State, t: State, s: SchemaName, q: Pid)
    requires Safe(st, s) && Stocked(st) && q in st.orcs && q in t.orcs && t.orcs[q] == st.orcs[q]
    requires forall n {:trigger n in st.path} :: n in st.path ==> Grown(st, t, n)
    requires st.orcs[q].newSeg.Just? && st.orcs[q].stage in {Made, Filled} ==> Same(st, t, st.orcs[q].newSeg.name)
    ensures OrcStock(t, t.orcs[q])
  {
    hide Safe, PathStock, Grown, Same, OrcStock;
    OrcSegments(st, s, q);
    OrcCarried(st, t, st.orcs[q]);
  }

  // ---------------------------------------------------------------------------
  // Steps
  // ---------------------------------------------------------------------------

  predicate ShelfStep(step: Step)
  {
    step.Write? || step.TornWrite? || step.CreateNew? || step.CopyRows?
  }

  lemma ShelfSame(st: State, s: SchemaName, step: Step)
    requires CanStep(st, s, step) && !ShelfStep(step)
    ensures var t := After(st, s, step); t.segs == st.segs && t.fill == st.fill && t.wide == st.wide
    ensures forall n {:trigger Same(st, After(st, s, step), n)} :: Same(st, After(st, s, step), n)
  {
    hide Next, Enabled, OrphanDropped;
  }

  /** The orchestrator whose own step leaves the segments alone. */
  lemma StageStock(st: State, s: SchemaName, step: Step, q: Pid)
    requires CanStep(st, s, step) && !ShelfStep(step) && q in After(st, s, step).orcs
    requires q in st.orcs ==> OrcStock(st, st.orcs[q])
    ensures OrcStock(After(st, s, step), After(st, s, step).orcs[q])
  {
    hide Next, Enabled, OrphanDropped, FillOk, Compatible;
    var t := After(st, s, step);
    ShelfSame(st, s, step);
    if q in st.orcs && t.orcs[q] == st.orcs[q] {
      var o := st.orcs[q];
      hide OrcStock, After, CanStep;
      if o.oldSeg.Just? {
        SameGrown(st, t, o.oldSeg.name);
      }
      OrcCarried(st, t, o);
    }
  }

  lemma PathStep(st: State, s: SchemaName, step: Step)
    requires Safe(st, s) && CanStep(st, s, step)
    ensures var t := After(st, s, step);
            t.path ==
              if step.FlipCurrentKey? && CurrentUnmoved(st, s, step.pid) then st.path + [st.orcs[step.pid].newSeg.name]
              else st.path
  {
    hide Next, Enabled, OrphanDropped, Safe, Translation;
    if step.FlipCurrentKey? {
      OrcSegments(st, s, step.pid);
    }
  }

  lemma StockFlip(st: State, s: SchemaName, pid: Pid, at: nat)
    requires Safe(st, s) && Stocked(st) && CanStep(st, s, FlipCurrentKey(pid, at)) && CurrentUnmoved(st, s, pid)
    ensures PathStock(After(st, s, FlipCurrentKey(pid, at)))
  {
    var t := After(st, s, FlipCurrentKey(pid, at));
    var o := st.orcs[pid];
    PathStep(st, s, FlipCurrentKey(pid, at));
    ShelfSame(st, s, FlipCurrentKey(pid, at));
    assert st.path != [] && st.path[|st.path| - 1] == o.oldSeg.name by {
      hide Inv, OrcOk, FillOk, OrcStock;
    }
    assert OrcStock(st, o) && o.stage.Filled?;
    hide After, Safe, CanStep;
    FilledSeg(st, o);
    forall i | 0 <= i < |t.path|
      ensures SegOk(t, t.path[i])
      ensures i > 0 ==> FillOk(t, t.path[i - 1], t.path[i]) && KeepsFill(t, t.path[i])
    {
      if i < |st.path| {
        assert t.path[i] == st.path[i] && (i > 0 ==> t.path[i - 1] == st.path[i - 1]);
        assert SegOk(st, st.path[i]);
        StillStocked(st, t, if i > 0 then st.path[i - 1] else st.path[i], st.path[i]);
      } else {
        StillStocked(st, t, o.oldSeg.name, o.newSeg.name);
      }
    }
  }

  lemma StillStocked(st: State, t: State, a: Name, b: Name)
    requires t.segs == st.segs && t.fill == st.fill && t.wide == st.wide
    ensures FillOk(st, a, b) ==> FillOk(t, a, b)
    ensures KeepsFill(st, b) ==> KeepsFill(t, b)
    ensures SegOk(st, b) ==> SegOk(t, b)
  {
    hide RowsSized, Compatible, WidensFloats, TranslatedMap;
  }

  lemma FilledSeg(st: State, o: Orc)
    requires OrcStock(st, o) && o.stage.Filled? && o.oldSeg.Just? && o.newSeg.Just?
    ensures SegOk(st, o.newSeg.name) && FillOk(st, o.oldSeg.name, o.newSeg.name) && KeepsFill(st, o.newSeg.name)
  {
    hide Compatible, WidensFloats, RowsSized;
  }

  /** Steps that leave the segments alone. */
  lemma StockStage(st: State, s: SchemaName, step: Step)
    requires Safe(st, s) && Stocked(st) && CanStep(st, s, step) && !ShelfStep(step)
    ensures Stocked(After(st, s, step))
  {
    hide Safe, CanStep, After, OrcStock, PathStock;
    var t := After(st, s, step);
    ShelfSame(st, s, step);
    PathStep(st, s, step);
    if step.FlipCurrentKey? && CurrentUnmoved(st, s, step.pid) {
      StockFlip(st, s, step.pid, step.at);
    } else {
      forall n | n in st.path
        ensures Grown(st, t, n)
      {
        SameGrown(st, t, n);
      }
      PathCarried(st, t);
    }
    forall q | q in t.orcs
      ensures OrcStock(t, t.orcs[q])
    {
      StageStock(st, s, step, q);
    }
  }

  lemma WriteGrows(st: State, s: SchemaName, step: Step, n: Name)
    requires CanStep(st, s, step) && (step.Write? || step.TornWrite?)
    ensures Grown(st, After(st, s, step), n) && (n != step.n ==> Same(st, After(st, s, step), n))
    ensures var t := After(st, s, step);
            t.path == st.path && t.orcs == st.orcs && t.wide == st.wide && t.fill == st.fill
  {
    hide RowSize;
  }

  /** Nobody but its maker writes a private segment. */
  lemma WriteNotPrivate(st: State, s: SchemaName, pid: Pid, n: Name, q: Pid, m: Name)
    requires CanWrite(st, pid, n) && q in st.orcs && q in st.w.alive && Private(st, s, q, m)
    ensures n != m
  {
    hide HandleCount;
    if n == m {
      HolderIs(st.w.handles, HandleOn(st, q, m), pid);
    }
  }

  lemma StockWrite(st: State, s: SchemaName, step: Step)
    requires Safe(st, s) && Stocked(st) && CanStep(st, s, step) && (step.Write? || step.TornWrite?)
    ensures Stocked(After(st, s, step))
  {
    assert CanWrite(st, step.pid, step.n);
    hide Safe, CanStep, After, OrcStock, PathStock, Grown, Same, Private, CanWrite;
    var t := After(st, s, step);
    WriteGrows(st, s, step, step.n);
    forall n | n in st.path
      ensures Grown(st, t, n)
    {
      WriteGrows(st, s, step, n);
    }
    PathCarried(st, t);
    forall q | q in t.orcs
      ensures OrcStock(t, t.orcs[q])
    {
      OrcSegments(st, s, q);
      var o := st.orcs[q];
      if o.newSeg.Just? && o.stage in {Made, Filled} {
        WriteNotPrivate(st, s, step.pid, step.n, q, o.newSeg.name);
        WriteGrows(st, s, step, o.newSeg.name);
      }
      OthersCarried(st, t, s, q);
    }
  }

  lemma CreateSame(st: State, s: SchemaName, pid: Pid, n: Name)
    requires CanStep(st, s, CreateNew(pid, n))
    ensures n !in st.w.created && pid in st.orcs && st.orcs[pid].stage.Verified?
    ensures var t := After(st, s, CreateNew(pid, n));
            && t.path == st.path && t.wide == st.wide
            && t.orcs == st.orcs[pid := st.orcs[pid].(newSeg := Just(n), stage := Made)]
            && t.segs == st.segs[n := Seg(st.orcs[pid].target, map[], 0)] && t.fill == st.fill
            && forall m {:trigger Same(st, t, m)} :: m != n ==> Same(st, t, m)
  {
  }

  lemma StockCreate(st: State, s: SchemaName, pid: Pid, n: Name)
    requires Safe(st, s) && Stocked(st) && CanStep(st, s, CreateNew(pid, n))
    ensures Stocked(After(st, s, CreateNew(pid, n)))
  {
    assert Inv(st.w) && PathOk(st, s);
    hide *;
    CreateSame(st, s, pid, n);
    PathCreated(st, s);
    Shelved(st, After(st, s, CreateNew(pid, n)), s, pid, n);
  }

  lemma Shelved(st: State, t: State, s: SchemaName, pid: Pid, n: Name)
    requires Safe(st, s) && Stocked(st) && pid in st.orcs && st.orcs[pid].stage.Verified? && n !in st.w.created
    requires Inv(st.w)
    requires forall m {:trigger m in st.path} :: m in st.path ==> m in st.w.created
    requires t.path == st.path && t.wide == st.wide
    requires t.orcs == st.orcs[pid := st.orcs[pid].(newSeg := Just(n), stage := Made)]
    requires t.segs == st.segs[n := Seg(st.orcs[pid].target, map[], 0)]
    requires forall m {:trigger Same(st, t, m)} :: m != n ==> Same(st, t, m)
    ensures Stocked(t)
  {
    hide Safe, OrcStock, PathStock, Grown, Same, Private, Inv;
    forall m | m in st.path
      ensures Grown(st, t, m)
    {
      SameGrown(st, t, m);
    }
    PathCarried(st, t);
    forall q | q in t.orcs
      ensures OrcStock(t, t.orcs[q])
    {
      OrcSegments(st, s, q);
      var o := st.orcs[q];
      if q == pid {
        MadeStock(st, t, o, n);
      } else {
        if o.newSeg.Just? && o.stage in {Made, Filled} {
          MadeCreated(st, s, q, o.newSeg.name);
        }
        OthersCarried(st, t, s, q);
      }
    }
  }

  lemma MadeStock(st: State, t: State, o: Orc, n: Name)
    requires OrcStock(st, o) && o.stage.Verified? && (o.oldSeg.Just? ==> Grown(st, t, o.oldSeg.name))
    requires n in t.segs && t.segs[n].def == o.target
    ensures OrcStock(t, o.(newSeg := Just(n), stage := Made))
  {
    hide Compatible, FillOk, RowsSized;
  }

  lemma CopySame(st: State, s: SchemaName, pid: Pid)
    requires Safe(st, s) && CanStep(st, s, CopyRows(pid))
    ensures pid in st.orcs && st.orcs[pid].stage.Made? && st.orcs[pid].oldSeg.Just? && st.orcs[pid].newSeg.Just?
    ensures var t, o, n := After(st, s, CopyRows(pid)), st.orcs[pid].oldSeg.name, st.orcs[pid].newSeg.name;
            && o in st.segs && n in st.segs
            && t.path == st.path && t.wide == st.wide && t.orcs == st.orcs[pid := st.orcs[pid].(stage := Filled)]
            && (var rows := Translation(st.wide, st.segs[o].def, st.segs[n].def, st.segs[o].rows);
                t.segs == st.segs[n := st.segs[n].(rows := rows, cursor := |rows|)]
                && t.fill == st.fill[n := Fill(o, st.segs[o].rows, rows)])
            && forall m {:trigger Same(st, t, m)} :: m != n ==> Same(st, t, m)
  {
    hide Safe, Translation;
  }

  lemma FilledStock(st: State, t: State, o: Orc)
    requires OrcStock(st, o) && o.stage.Made? && o.oldSeg.Just? && o.newSeg.Just? && o.oldSeg.name != o.newSeg.name
    requires WidensFloats(st.wide) && t.wide == st.wide && SegOk(st, o.oldSeg.name)
    requires var rows := Translation(st.wide, st.segs[o.oldSeg.name].def, st.segs[o.newSeg.name].def,
               st.segs[o.oldSeg.name].rows);
             && t.segs == st.segs[o.newSeg.name := st.segs[o.newSeg.name].(rows := rows, cursor := |rows|)]
             && t.fill == st.fill[o.newSeg.name := Fill(o.oldSeg.name, st.segs[o.oldSeg.name].rows, rows)]
    ensures OrcStock(t, o.(stage := Filled))
  {
    hide Compatible, WidensFloats, RowsSized, TranslatedMap;
  }

  lemma StockCopy(st: State, s: SchemaName, pid: Pid)
    requires Safe(st, s) && Stocked(st) && CanStep(st, s, CopyRows(pid))
    ensures Stocked(After(st, s, CopyRows(pid)))
  {
    hide *;
    CopySame(st, s, pid);
    OrcSegments(st, s, pid);
    var o, n := st.orcs[pid].oldSeg.name, st.orcs[pid].newSeg.name;
    Copied(st, After(st, s, CopyRows(pid)), s, pid, n);
  }

  lemma Copied(st: State, t: State, s: SchemaName, pid: Pid, n: Name)
    requires Safe(st, s) && Stocked(st) && pid in st.orcs && st.orcs[pid].stage.Made?
    requires st.orcs[pid].oldSeg.Just? && st.orcs[pid].newSeg == Just(n) && pid in st.w.alive && Private(st, s, pid, n)
    requires st.orcs[pid].oldSeg.name in st.path && n !in st.path
    requires t.path == st.path && t.wide == st.wide && t.orcs == st.orcs[pid := st.orcs[pid].(stage := Filled)]
    requires var o := st.orcs[pid].oldSeg.name;
             && o in st.segs && n in st.segs
             && var rows := Translation(st.wide, st.segs[o].def, st.segs[n].def, st.segs[o].rows);
                t.segs == st.segs[n := st.segs[n].(rows := rows, cursor := |rows|)]
                && t.fill == st.fill[n := Fill(o, st.segs[o].rows, rows)]
    requires forall m {:trigger Same(st, t, m)} :: m != n ==> Same(st, t, m)
    ensures Stocked(t)
  {
    hide Safe, OrcStock, PathStock, Grown, Same, Private, SegOk, Translation;
    forall m | m in st.path
      ensures Grown(st, t, m)
    {
      SameGrown(st, t, m);
    }
    PathCarried(st, t);
    forall q | q in t.orcs
      ensures OrcStock(t, t.orcs[q])
    {
      var o := st.orcs[q];
      if q == pid {
        OldStocked(st, o.oldSeg.name);
        FilledStock(st, t, o);
      } else {
        OrcSegments(st, s, q);
        if o.newSeg.Just? && o.stage in {Made, Filled} {
          PrivateDiffer(st, s, pid, n, q, o.newSeg.name);
        }
        OthersCarried(st, t, s, q);
      }
    }
  }

  lemma OldStocked(st: State, n: Name)
    requires PathStock(st) && n in st.path
    ensures SegOk(st, n)
  {
    hide SegOk, FillOk, KeepsFill;
  }

  lemma StepKeepsStock(st: State, s: SchemaName, step: Step)
    requires Safe(st, s) && Stocked(st) && CanStep(st, s, step)
    ensures Stocked(After(st, s, step))
  {
    hide Safe, Stocked, CanStep, After;
    match step {
      case Write(_, _, _, _) => StockWrite(st, s, step);
      case TornWrite(_, _) => StockWrite(st, s, step);
      case CreateNew(pid, n) => StockCreate(st, s, pid, n);
      case CopyRows(pid) => StockCopy(st, s, pid);
      case _ => StockStage(st, s, step);
    }
  }

  // ---------------------------------------------------------------------------
  // Writes that keep out of a copy's way
  // ---------------------------------------------------------------------------

  /** A write to a segment of the path goes to its last one, and not between a copy from it
      and the flip: what pausing the writers is for. */
  ghost predicate WriteGuard(st: State, step: Step)
  {
    step.Write? && step.n in st.path ==>
      && step.n == st.path[|st.path| - 1]
      && forall pid {:trigger st.orcs[pid]} :: pid in st.orcs && st.orcs[pid].stage.Filled? ==>
           st.orcs[pid].oldSeg != Just(step.n)
  }

  /** Segment `a` still holds exactly what `b` was filled from. */
  ghost predicate Frozen(st: State, a: Name, b: Name)
  {
    a in st.segs && b in st.fill && st.segs[a].rows == st.fill[b].base
  }

  ghost predicate FilledFrozen(st: State, o: Orc)
  {
    o.stage.Filled? && o.oldSeg.Just? && o.newSeg.Just? ==> Frozen(st, o.oldSeg.name, o.newSeg.name)
  }

  ghost predicate AllFrozen(st: State)
  {
    && (forall i {:trigger st.path[i]} :: 0 < i < |st.path| ==> Frozen(st, st.path[i - 1], st.path[i]))
    && (forall pid {:trigger st.orcs[pid]} :: pid in st.orcs ==> FilledFrozen(st, st.orcs[pid]))
  }

  lemma SameFrozen(st: State, t: State, a: Name, b: Name)
    requires Frozen(st, a, b) && Same(st, t, a) && Same(st, t, b)
    ensures Frozen(t, a, b)
  {
  }

  lemma FrozenStage(st: State, s: SchemaName, step: Step)
    requires Safe(st, s) && Stocked(st) && AllFrozen(st) && CanStep(st, s, step) && !ShelfStep(step)
    ensures AllFrozen(After(st, s, step))
  {
    hide Stocked, Next, Enabled, OrphanDropped, Inv, Private, Translation;
    var t := After(st, s, step);
    ShelfSame(st, s, step);
    PathStep(st, s, step);
    forall q | q in t.orcs
      ensures FilledFrozen(t, t.orcs[q])
    {
      if t.orcs[q].stage.Filled? {
        assert q in st.orcs && t.orcs[q] == st.orcs[q];
      }
    }
    hide After, CanStep, Frozen;
    forall i | 0 < i < |t.path|
      ensures Frozen(t, t.path[i - 1], t.path[i])
    {
      FrozenAt(st, t, s, step, i);
    }
  }

  lemma FrozenAt(st: State, t: State, s: SchemaName, step: Step, i: nat)
    requires Safe(st, s) && AllFrozen(st) && CanStep(st, s, step) && !ShelfStep(step) && t == After(st, s, step)
    requires 0 < i < |t.path|
    requires t.path ==
               if step.FlipCurrentKey? && CurrentUnmoved(st, s, step.pid) then st.path + [st.orcs[step.pid].newSeg.name]
               else st.path
    ensures Frozen(t, t.path[i - 1], t.path[i])
  {
    ShelfSame(st, s, step);
    if i < |st.path| {
      assert t.path[i] == st.path[i] && t.path[i - 1] == st.path[i - 1];
      assert Frozen(st, st.path[i - 1], st.path[i]);
    } else {
      assert FilledFrozen(st, st.orcs[step.pid]) && st.orcs[step.pid].stage.Filled?;
      assert PathOk(st, s) && s in st.w.k.current;
    }
  }

  lemma WriteLeaves(st: State, s: SchemaName, step: Step, a: Name, b: Name)
    requires CanStep(st, s, step) && (step.Write? || step.TornWrite?) && Frozen(st, a, b)
    requires (step.Write? ==> a != step.n)
    ensures Frozen(After(st, s, step), a, b)
  {
  }

  lemma FrozenWrite(st: State, s: SchemaName, step: Step)
    requires Safe(st, s) && AllFrozen(st) && CanStep(st, s, step) && (step.Write? || step.TornWrite?)
    requires WriteGuard(st, step)
    ensures AllFrozen(After(st, s, step))
  {
    var t := After(st, s, step);
    assert PathOk(st, s);
    assert t.path == st.path && t.orcs == st.orcs by {
      WriteGrows(st, s, step, 0);
    }
    hide After, CanStep, Frozen, Inv, OrcOk;
    forall i | 0 < i < |t.path|
      ensures Frozen(t, t.path[i - 1], t.path[i])
    {
      assert Frozen(st, st.path[i - 1], st.path[i]);
      WriteLeaves(st, s, step, st.path[i - 1], st.path[i]);
    }
    forall q | q in t.orcs
      ensures FilledFrozen(t, t.orcs[q])
    {
      var o := st.orcs[q];
      assert FilledFrozen(st, o);
      if o.stage.Filled? && o.oldSeg.Just? && o.newSeg.Just? {
        OldOnPath(st, s, q);
        WriteLeaves(st, s, step, o.oldSeg.name, o.newSeg.name);
      }
    }
  }

  lemma OldOnPath(st: State, s: SchemaName, q: Pid)
    requires Safe(st, s) && q in st.orcs && st.orcs[q].oldSeg.Just?
    ensures st.orcs[q].oldSeg.name in st.path
  {
    OrcSegments(st, s, q);
  }

  /** A step that changes one segment off the path, and no other orchestrator's. */
  lemma FrozenElsewhere(st: State, t: State, s: SchemaName, pid: Pid, n: Name)
    requires Safe(st, s) && AllFrozen(st) && n !in st.path && t.path == st.path && pid in st.orcs
    requires t.orcs.Keys == st.orcs.Keys
    requires forall m {:trigger Same(st, t, m)} :: m != n ==> Same(st, t, m)
    requires forall q {:trigger t.orcs[q]} :: q in t.orcs && q != pid ==>
               t.orcs[q] == st.orcs[q] && (t.orcs[q].newSeg.Just? && t.orcs[q].stage.Filled? ==>
                 t.orcs[q].newSeg.name != n)
    requires FilledFrozen(t, t.orcs[pid])
    ensures AllFrozen(t)
  {
    hide Safe, Frozen, Same;
    forall i | 0 < i < |t.path|
      ensures Frozen(t, t.path[i - 1], t.path[i])
    {
      assert st.path[i - 1] in st.path && st.path[i] in st.path;
      SameFrozen(st, t, st.path[i - 1], st.path[i]);
    }
    forall q | q in t.orcs
      ensures FilledFrozen(t, t.orcs[q])
    {
      var o := t.orcs[q];
      if q != pid && o.stage.Filled? && o.oldSeg.Just? && o.newSeg.Just? {
        assert FilledFrozen(st, st.orcs[q]);
        OldOnPath(st, s, q);
        SameFrozen(st, t, o.oldSeg.name, o.newSeg.name);
      }
    }
  }

  lemma OthersNotFresh(st: State, s: SchemaName, pid: Pid, n: Name, q: Pid)
    requires Safe(st, s) && n !in st.w.created && q in st.orcs && st.orcs[q].newSeg.Just? && st.orcs[q].stage.Filled?
    ensures st.orcs[q].newSeg.name != n
  {
    hide Private, PathOk;
    OrcSegments(st, s, q);
    MadeCreated(st, s, q, st.orcs[q].newSeg.name);
  }

  lemma FrozenCreate(st: State, s: SchemaName, pid: Pid, n: Name)
    requires Safe(st, s) && AllFrozen(st) && CanStep(st, s, CreateNew(pid, n))
    ensures AllFrozen(After(st, s, CreateNew(pid, n)))
  {
    assert PathOk(st, s);
    hide *;
    CreateSame(st, s, pid, n);
    PathCreated(st, s);
    var t := After(st, s, CreateNew(pid, n));
    forall q | q in t.orcs && q != pid && t.orcs[q].newSeg.Just? && t.orcs[q].stage.Filled?
      ensures t.orcs[q].newSeg.name != n
    {
      OthersNotFresh(st, s, pid, n, q);
    }
    NotFilled(t, t.orcs[pid]);
    FrozenElsewhere(st, t, s, pid, n);
  }

  lemma NotFilled(t: State, o: Orc)
    requires !o.stage.Filled?
    ensures FilledFrozen(t, o)
  {
  }

  lemma OthersNotMine(st: State, s: SchemaName, pid: Pid, n: Name, q: Pid)
    requires Safe(st, s) && pid in st.w.alive && Private(st, s, pid, n) && q != pid
    requires q in st.orcs && st.orcs[q].newSeg.Just? && st.orcs[q].stage.Filled?
    ensures st.orcs[q].newSeg.name != n
  {
    hide Safe, Private;
    OrcSegments(st, s, q);
    PrivateDiffer(st, s, pid, n, q, st.orcs[q].newSeg.name);
  }

  lemma CopiedFrozen(st: State, t: State, o: Orc)
    requires o.oldSeg.Just? && o.newSeg.Just? && o.oldSeg.name != o.newSeg.name
    requires o.oldSeg.name in st.segs && o.newSeg.name in st.segs
    requires exists rows, cursor ::
               t.segs == st.segs[o.newSeg.name := st.segs[o.newSeg.name].(rows := rows, cursor := cursor)]
               && t.fill == st.fill[o.newSeg.name := Fill(o.oldSeg.name, st.segs[o.oldSeg.name].rows, rows)]
    ensures FilledFrozen(t, o.(stage := Filled))
  {
  }

  lemma FrozenCopy(st: State, s: SchemaName, pid: Pid)
    requires Safe(st, s) && AllFrozen(st) && CanStep(st, s, CopyRows(pid))
    ensures AllFrozen(After(st, s, CopyRows(pid)))
  {
    hide *;
    CopySame(st, s, pid);
    OrcSegments(st, s, pid);
    var t, n := After(st, s, CopyRows(pid)), st.orcs[pid].newSeg.name;
    forall q | q in t.orcs && q != pid && t.orcs[q].newSeg.Just? && t.orcs[q].stage.Filled?
      ensures t.orcs[q].newSeg.name != n
    {
      OthersNotMine(st, s, pid, n, q);
    }
    CopiedFrozen(st, t, st.orcs[pid]);
    FrozenElsewhere(st, t, s, pid, n);
  }

  lemma StepKeepsFrozen(st: State, s: SchemaName, step: Step)
    requires Safe(st, s) && Stocked(st) && AllFrozen(st) && CanStep(st, s, step) && WriteGuard(st, step)
    ensures AllFrozen(After(st, s, step))
  {
    hide Safe, Stocked, AllFrozen, CanStep, After, WriteGuard;
    match step {
      case Write(_, _, _, _) => FrozenWrite(st, s, step);
      case TornWrite(_, _) => FrozenWrite(st, s, step);
      case CreateNew(pid, n) => FrozenCreate(st, s, pid, n);
      case CopyRows(pid) => FrozenCopy(st, s, pid);
      case _ => FrozenStage(st, s, step);
    }
  }

  // ---------------------------------------------------------------------------
  // Runs
  // ---------------------------------------------------------------------------

  /** No upgrade under way, and the rows of the current segment, if any, fit its schema. */
  ghost predicate BeginStocked(st: State, s: SchemaName)
  {
    Begin(st, s) && WidensFloats(st.wide) && forall i {:trigger st.path[i]} :: 0 <= i < |st.path| ==>
      SegOk(st, st.path[i])
  }

  lemma StockedAtBegin(st: State, s: SchemaName)
    requires BeginStocked(st, s)
    ensures Safe(st, s) && Stocked(st) && AllFrozen(st)
  {
    hide Inv, SegOk, FillOk, KeepsFill, Frozen, WidensFloats;
    BeginSafe(st, s);
  }

  lemma {:induction false} RunKeepsStock(st: State, s: SchemaName, steps: seq<Step>)
    requires Safe(st, s) && Stocked(st) && Runs(st, s, steps)
    ensures Safe(Ran(st, s, steps), s) && Stocked(Ran(st, s, steps))
    decreases |steps|
  {
    hide Safe, Stocked, CanStep, After;
    if steps != [] {
      StepKeepsSafe(st, s, steps[0]);
      StepKeepsStock(st, s, steps[0]);
      RunKeepsStock(After(st, s, steps[0]), s, steps[1..]);
    }
  }

  /** Every write of the run keeps its guard. */
  ghost predicate GuardedRun(st: State, s: SchemaName, steps: seq<Step>)
    requires Runs(st, s, steps)
    decreases |steps|
  {
    steps == [] || (WriteGuard(st, steps[0]) && GuardedRun(After(st, s, steps[0]), s, steps[1..]))
  }

  lemma {:induction false} RunKeepsFrozen(st: State, s: SchemaName, steps: seq<Step>)
    requires Safe(st, s) && Stocked(st) && AllFrozen(st) && Runs(st, s, steps) && GuardedRun(st, s, steps)
    ensures AllFrozen(Ran(st, s, steps))
    decreases |steps|
  {
    hide Safe, Stocked, AllFrozen, CanStep, After, WriteGuard;
    if steps != [] {
      StepKeepsSafe(st, s, steps[0]);
      StepKeepsStock(st, s, steps[0]);
      StepKeepsFrozen(st, s, steps[0]);
      RunKeepsFrozen(After(st, s, steps[0]), s, steps[1..]);
    }
  }

  /** In every run, whatever is written meanwhile, each segment of the path after the first
      was filled with the translation of what the one before it held at the copy. */
  lemma PathIsTranslated(st: State, s: SchemaName, steps: seq<Step>, i: nat)
    requires BeginStocked(st, s) && Runs(st, s, steps)
    ensures var t := Ran(st, s, steps);
            0 < i < |t.path| ==>
              var a, b := t.path[i - 1], t.path[i];
              && a in t.segs && b in t.segs && b in t.fill && Compatible(t.segs[a].def, t.segs[b].def)
              && WidensFloats(t.wide) && RowsSized(t.segs[a].def, t.fill[b].base)
              && t.fill[b].filled == TranslatedMap(t.wide, t.segs[a].def, t.segs[b].def, t.fill[b].base)
              && t.fill[b].filled.Keys <= t.segs[b].rows.Keys
  {
    hide Safe, Begin, Runs, Ran, Compatible, WidensFloats, RowsSized, TranslatedMap, OrcStock;
    StockedAtBegin(st, s);
    RunKeepsStock(st, s, steps);
    var t := Ran(st, s, steps);
    if 0 < i < |t.path| {
      assert FillOk(t, t.path[i - 1], t.path[i]) && KeepsFill(t, t.path[i]);
    }
  }

  /** In a run whose writes keep out of the copies' way nothing is lost: each segment of the
      path has every entity of the one before it, filled with the translation of exactly
      the rows that one still holds. */
  lemma NothingIsLost(st: State, s: SchemaName, steps: seq<Step>, i: nat)
    requires BeginStocked(st, s) && Runs(st, s, steps) && GuardedRun(st, s, steps)
    ensures var t := Ran(st, s, steps);
            0 < i < |t.path| ==>
              var a, b := t.path[i - 1], t.path[i];
              && a in t.segs && b in t.segs && b in t.fill && Compatible(t.segs[a].def, t.segs[b].def)
              && WidensFloats(t.wide) && RowsSized(t.segs[a].def, t.segs[a].rows)
              && t.fill[b].filled == TranslatedMap(t.wide, t.segs[a].def, t.segs[b].def, t.segs[a].rows)
              && t.segs[a].rows.Keys <= t.segs[b].rows.Keys
  {
    hide Safe, Begin, Runs, Ran, GuardedRun, Compatible, WidensFloats, RowsSized, Stocked, AllFrozen;
    PathIsTranslated(st, s, steps, i);
    StockedAtBegin(st, s);
    RunKeepsStock(st, s, steps);
    RunKeepsFrozen(st, s, steps);
    var t := Ran(st, s, steps);
    if 0 < i < |t.path| {
      FrozenOnPath(t, i);
    }
  }

  lemma FrozenOnPath(t: State, i: nat)
    requires AllFrozen(t) && 0 < i < |t.path|
    ensures Frozen(t, t.path[i - 1], t.path[i])
  {
    hide Frozen;
  }

  // ---------------------------------------------------------------------------
  // Runs without writes
  // ---------------------------------------------------------------------------

  /** The segments of the path hold what they began with or were filled with. */
  ghost predicate Unwritten(st: State, first: Rows)
  {
    && (forall i {:trigger st.path[i]} :: 0 < i < |st.path| ==>
          st.path[i] in st.segs && st.path[i] in st.fill && st.segs[st.path[i]].rows == st.fill[st.path[i]].filled)
    && (st.path != [] ==> st.path[0] in st.segs && st.segs[st.path[0]].rows == first)
  }

  lemma SameOnPath(st: State, s: SchemaName, step: Step, n: Name)
    requires Safe(st, s) && CanStep(st, s, step) && !step.Write? && n in st.path
    ensures n in st.segs ==> n in After(st, s, step).segs && After(st, s, step).segs[n].rows == st.segs[n].rows
    ensures n in st.fill ==> n in After(st, s, step).fill && After(st, s, step).fill[n] == st.fill[n]
  {
    assert PathOk(st, s);
    if step.TornWrite? {
      hide Safe;
    } else {
      hide Safe, After, CanStep, PathOk;
      DefSame(st, s, step, n);
    }
  }

  /** Segment `n` of the path holds what it was filled with, or, the first one, `first`. */
  ghost predicate AsFilled(st: State, n: Name, isFirst: bool, first: Rows)
  {
    n in st.segs && if isFirst then st.segs[n].rows == first else n in st.fill && st.segs[n].rows == st.fill[n].filled
  }

  lemma UnwrittenAt(st: State, first: Rows, i: nat)
    requires Unwritten(st, first) && i < |st.path|
    ensures AsFilled(st, st.path[i], i == 0, first)
  {
  }

  lemma AllAsFilled(st: State, first: Rows)
    requires forall i {:trigger st.path[i]} :: 0 <= i < |st.path| ==> AsFilled(st, st.path[i], i == 0, first)
    ensures Unwritten(st, first)
  {
  }

  lemma StepKeepsUnwritten(st: State, s: SchemaName, step: Step, first: Rows)
    requires Safe(st, s) && Stocked(st) && CanStep(st, s, step) && !step.Write? && Unwritten(st, first)
    requires st.path != []
    ensures Unwritten(After(st, s, step), first) && After(st, s, step).path != []
  {
    hide *;
    var t := After(st, s, step);
    PathStep(st, s, step);
    forall i | 0 <= i < |t.path|
      ensures AsFilled(t, t.path[i], i == 0, first)
    {
      if i < |st.path| {
        assert t.path[i] == st.path[i];
        UnwrittenAt(st, first, i);
        KeptAsFilled(st, s, step, st.path[i], i == 0, first);
      } else {
        FlipFillsLast(st, s, step, first);
      }
    }
    AllAsFilled(t, first);
  }

  lemma KeptAsFilled(st: State, s: SchemaName, step: Step, n: Name, isFirst: bool, first: Rows)
    requires Safe(st, s) && CanStep(st, s, step) && !step.Write? && n in st.path && AsFilled(st, n, isFirst, first)
    ensures AsFilled(After(st, s, step), n, isFirst, first)
  {
    hide Safe, CanStep, After;
    SameOnPath(st, s, step, n);
  }

  lemma FlipFillsLast(st: State, s: SchemaName, step: Step, first: Rows)
    requires Safe(st, s) && Stocked(st) && CanStep(st, s, step) && step.FlipCurrentKey?
    ensures step.pid in st.orcs && AsFilled(After(st, s, step), st.orcs[step.pid].newSeg.name, false, first)
  {
    assert step.pid in st.orcs;
    hide Safe, Stocked, CanStep, After;
    ShelfSame(st, s, step);
    FlippedUnwritten(st, s, step.pid, step.at);
  }

  lemma FlippedUnwritten(st: State, s: SchemaName, pid: Pid, at: nat)
    requires Safe(st, s) && Stocked(st) && CanStep(st, s, FlipCurrentKey(pid, at))
    ensures var n := st.orcs[pid].newSeg.name; n in st.segs && n in st.fill && st.segs[n].rows == st.fill[n].filled
  {
    hide Safe, PathStock, Compatible, RowsSized, WidensFloats;
    assert OrcStock(st, st.orcs[pid]);
  }

  lemma {:induction false} RunKeepsUnwritten(st: State, s: SchemaName, steps: seq<Step>, first: Rows)
    requires Safe(st, s) && Stocked(st) && Runs(st, s, steps) && Unwritten(st, first) && st.path != []
    requires forall k {:trigger steps[k]} :: 0 <= k < |steps| ==> !steps[k].Write?
    ensures Unwritten(Ran(st, s, steps), first) && Ran(st, s, steps).path != []
    decreases |steps|
  {
    hide Safe, Stocked, CanStep, After, Unwritten;
    if steps != [] {
      StepKeepsSafe(st, s, steps[0]);
      StepKeepsStock(st, s, steps[0]);
      StepKeepsUnwritten(st, s, steps[0], first);
      RunKeepsUnwritten(After(st, s, steps[0]), s, steps[1..], first);
    }
  }

  lemma {:induction false} UnguardedAreGuarded(st: State, s: SchemaName, steps: seq<Step>)
    requires Runs(st, s, steps) && forall k {:trigger steps[k]} :: 0 <= k < |steps| ==> !steps[k].Write?
    ensures GuardedRun(st, s, steps)
    decreases |steps|
  {
    hide CanStep, After;
    if steps != [] {
      UnguardedAreGuarded(After(st, s, steps[0]), s, steps[1..]);
    }
  }

  lemma NextOnPath(t: State, first: Rows, i: nat)
    requires Stocked(t) && AllFrozen(t) && Unwritten(t, first) && 0 < i < |t.path|
    ensures var a, b := t.path[i - 1], t.path[i];
            && a in t.segs && b in t.segs && WidensFloats(t.wide) && Compatible(t.segs[a].def, t.segs[b].def)
            && RowsSized(t.segs[a].def, t.segs[a].rows)
            && t.segs[b].rows == TranslatedMap(t.wide, t.segs[a].def, t.segs[b].def, t.segs[a].rows)
  {
    hide OrcStock, Compatible, WidensFloats, RowsSized, TranslatedMap;
    assert FillOk(t, t.path[i - 1], t.path[i]);
    FrozenOnPath(t, i);
  }

  /** Along the path, segment after segment, the rows are those of the first segment
      translated to the schema reached in one step. */
  lemma {:induction false} AlongPath(t: State, first: Rows, i: nat)
    requires Stocked(t) && AllFrozen(t) && Unwritten(t, first) && 0 < i < |t.path|
    ensures var a, b := t.path[0], t.path[i];
            && a in t.segs && b in t.segs && WidensFloats(t.wide) && Compatible(t.segs[a].def, t.segs[b].def)
            && RowsSized(t.segs[a].def, first) && t.segs[a].rows == first
            && t.segs[b].rows == TranslatedMap(t.wide, t.segs[a].def, t.segs[b].def, first)
    decreases i
  {
    NextOnPath(t, first, i);
    if i > 1 {
      AlongPath(t, first, i - 1);
      hide Stocked, AllFrozen, Compatible, WidensFloats, RowsSized, TranslatedMap;
      TranslatedMapCompose(t.wide, t.segs[t.path[0]].def, t.segs[t.path[i - 1]].def, t.segs[t.path[i]].def, first);
    } else {
      hide Stocked, AllFrozen, Compatible, WidensFloats, RowsSized, TranslatedMap;
    }
  }

  /** Atomic visibility with contents: in every run without writes, however many upgrades,
      failures and crashes, the current key is absent or names a segment that holds exactly
      the rows the run began with, translated to that segment's schema. */
  lemma CurrentHoldsTranslation(st: State, s: SchemaName, steps: seq<Step>)
    requires BeginStocked(st, s) && Runs(st, s, steps) && s in st.w.k.current
    requires forall k {:trigger steps[k]} :: 0 <= k < |steps| ==> !steps[k].Write?
    ensures var t, o := Ran(st, s, steps), st.w.k.current[s];
            s in t.w.k.current ==>
              var n := t.w.k.current[s];
              && o in st.segs && n in t.segs && RowsSized(st.segs[o].def, st.segs[o].rows)
              && (n == o ==> t.segs[n].rows == st.segs[o].rows)
              && (n != o ==> WidensFloats(t.wide) && Compatible(st.segs[o].def, t.segs[n].def)
                             && t.segs[n].rows == TranslatedMap(t.wide, st.segs[o].def, t.segs[n].def, st.segs[o].rows))
  {
    StockedAtBegin(st, s);
    var o := st.w.k.current[s];
    assert st.path == [o] && SegOk(st, o);
    var first := st.segs[o].rows;
    assert Unwritten(st, first);
    hide Safe, Begin, BeginStocked, Runs, Ran, Stocked, AllFrozen, CanStep, After;
    hide Compatible, WidensFloats, RowsSized, TranslatedMap, GuardedRun;
    UnguardedAreGuarded(st, s, steps);
    RunKeepsStock(st, s, steps);
    RunKeepsFrozen(st, s, steps);
    RunKeepsUnwritten(st, s, steps, first);
    RootKept(st, s, steps, o);
    var t := Ran(st, s, steps);
    if s in t.w.k.current {
      CurrentIsLast(t, s);
      if |t.path| > 1 {
        AlongPath(t, first, |t.path| - 1);
      }
    }
  }

  lemma CurrentIsLast(t: State, s: SchemaName)
    requires Safe(t, s) && s in t.w.k.current
    ensures t.path != [] && t.w.k.current[s] == t.path[|t.path| - 1]
    ensures |t.path| > 1 ==> t.path[0] != t.path[|t.path| - 1]
  {
    hide Inv, OrcOk;
  }

  lemma DefKept(st: State, s: SchemaName, step: Step, n: Name)
    requires Safe(st, s) && CanStep(st, s, step) && n in st.path && n in st.segs
    ensures var t := After(st, s, step); n in t.segs && t.segs[n].def == st.segs[n].def
  {
    assert PathOk(st, s);
    if step.Write? || step.TornWrite? {
      hide Safe;
      WriteGrows(st, s, step, n);
      hide After, CanStep;
    } else {
      hide *;
      DefSame(st, s, step, n);
      SameDef(st, After(st, s, step), n);
    }
  }

  lemma SameDef(st: State, t: State, n: Name)
    requires Same(st, t, n) && n in st.segs
    ensures n in t.segs && t.segs[n].def == st.segs[n].def
  {
  }

  lemma DefSame(st: State, s: SchemaName, step: Step, n: Name)
    requires Safe(st, s) && PathOk(st, s) && CanStep(st, s, step) && n in st.path && !step.Write? && !step.TornWrite?
    ensures Same(st, After(st, s, step), n)
  {
    hide *;
    PathCreated(st, s);
    if step.CreateNew? {
      CreateSame(st, s, step.pid, step.n);
    } else if step.CopyRows? {
      CopySame(st, s, step.pid);
      OrcSegments(st, s, step.pid);
    } else {
      NotShelf(step);
      ShelfSame(st, s, step);
    }
  }

  lemma NotShelf(step: Step)
    requires !step.Write? && !step.TornWrite? && !step.CreateNew? && !step.CopyRows?
    ensures !ShelfStep(step)
  {
  }

  /** The path keeps its first segment, and that its schema. */
  lemma {:induction false} RootKept(st: State, s: SchemaName, steps: seq<Step>, o: Name)
    requires Safe(st, s) && Stocked(st) && Runs(st, s, steps) && st.path != [] && st.path[0] == o && o in st.segs
    ensures var t := Ran(st, s, steps); t.path != [] && t.path[0] == o && o in t.segs && t.segs[o].def == st.segs[o].def
    decreases |steps|
  {
    hide Safe, Stocked, CanStep, After;
    if steps != [] {
      StepKeepsSafe(st, s, steps[0]);
      StepKeepsStock(st, s, steps[0]);
      PathStep(st, s, steps[0]);
      DefKept(st, s, steps[0], o);
      RootKept(After(st, s, steps[0]), s, steps[1..], o);
    }
  }
}
