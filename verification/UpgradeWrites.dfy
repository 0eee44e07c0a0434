/** Which writes an upgrade loses: exactly those to the old segment that come between the
    copy and the flip and that the copy did not already have, whatever else happens there. */
module UpgradeWrites {
  import opened Bytes
  import opened Lifecycle
  import opened Schema
  import opened SchemaUpgrade
  import opened RowTranslation
  import opened UpgradeProtocol
  import opened UpgradeContents

  /** A call of `upgrade_schema` has copied `n` into `m` and has not flipped. */
  predicate CopiedTo(st: State, pid: Pid, n: Name, m: Name)
  {
    && pid in st.orcs && st.orcs[pid].stage.Filled?
    && st.orcs[pid].oldSeg == Just(n) && st.orcs[pid].newSeg == Just(m)
  }

  /** `m` exists, and `pid` is not about to fill or install it. */
  predicate Gone(st: State, pid: Pid, m: Name)
  {
    && m in st.w.created
    && (pid in st.orcs ==> st.orcs[pid].newSeg != Just(m) || st.orcs[pid].stage !in {Made, Filled})
  }

  lemma CreatedStays(st: State, s: SchemaName, step: Step)
    requires CanStep(st, s, step)
    ensures st.w.created <= After(st, s, step).w.created
  {
    hide Translation;
  }

  /** An orchestrator comes to be filling or installing a segment by creating it. */
  lemma OrcMoves(st: State, s: SchemaName, step: Step, pid: Pid)
    requires CanStep(st, s, step) && pid in After(st, s, step).orcs
    ensures var o := After(st, s, step).orcs[pid];
            o.stage in {Made, Filled} ==>
              || (step.CreateNew? && o.newSeg == Just(step.n))
              || (pid in st.orcs
                && (o == st.orcs[pid] || (st.orcs[pid].stage.Made? && o.newSeg == st.orcs[pid].newSeg)))
  {
    hide Translation, Next, Enabled, OrphanDropped, Compatible, CanCopy;
  }

  /** A segment is created once, so nobody comes back to it. */
  lemma GoneStays(st: State, s: SchemaName, step: Step, pid: Pid, m: Name)
    requires CanStep(st, s, step) && Gone(st, pid, m)
    ensures Gone(After(st, s, step), pid, m)
  {
    hide CanStep, After;
    CreatedStays(st, s, step);
    if pid in After(st, s, step).orcs {
      OrcMoves(st, s, step, pid);
    }
    if step.CreateNew? {
      CreateSame(st, s, step.pid, step.n);
    }
  }

  lemma {:induction false} GoneRun(st: State, s: SchemaName, steps: seq<Step>, pid: Pid, m: Name)
    requires Runs(st, s, steps) && Gone(st, pid, m)
    ensures Gone(Ran(st, s, steps), pid, m)
    decreases |steps|
  {
    hide CanStep, After, Gone;
    if steps != [] {
      GoneStays(st, s, steps[0], pid, m);
      GoneRun(After(st, s, steps[0]), s, steps[1..], pid, m);
    }
  }

  lemma WaitsOrGoes(st: State, s: SchemaName, step: Step, pid: Pid, n: Name, m: Name)
    requires CanStep(st, s, step) && CopiedTo(st, pid, n, m) && m in st.w.created
    ensures CopiedTo(After(st, s, step), pid, n, m) || Gone(After(st, s, step), pid, m)
  {
    hide CanStep, After;
    CreatedStays(st, s, step);
    if pid in After(st, s, step).orcs {
      OrcMoves(st, s, step, pid);
    }
    if step.CreateNew? {
      CreateSame(st, s, step.pid, step.n);
    }
  }

  lemma CopiedPrivate(st: State, s: SchemaName, pid: Pid, n: Name, m: Name)
    requires Safe(st, s) && Stocked(st) && CopiedTo(st, pid, n, m)
    ensures pid in st.w.alive && Private(st, s, pid, m) && n in st.path && m in st.w.created && m in st.fill && n != m
  {
    assert OrcStock(st, st.orcs[pid]);
    OrcSegments(st, s, pid);
    hide Private, HandleCount, PathStock, OrcOk, PathOk, OrcStock;
    MadeCreated(st, s, pid, m);
    FilledSeg(st, st.orcs[pid]);
  }

  /** While the copy waits to be flipped nothing overwrites what it recorded. */
  lemma FillStays(st: State, s: SchemaName, step: Step, pid: Pid, n: Name, m: Name)
    requires Safe(st, s) && Stocked(st) && CanStep(st, s, step) && CopiedTo(st, pid, n, m)
    ensures m in st.fill && m in After(st, s, step).fill && After(st, s, step).fill[m] == st.fill[m]
  {
    hide Safe, Stocked, CanStep, After, Private;
    CopiedPrivate(st, s, pid, n, m);
    if step.CopyRows? {
      CopySame(st, s, step.pid);
      OrcSegments(st, s, step.pid);
      PrivateDiffer(st, s, pid, m, step.pid, st.orcs[step.pid].newSeg.name);
    } else if step.Write? || step.TornWrite? {
      WriteGrows(st, s, step, m);
    } else if step.CreateNew? {
      CreateSame(st, s, step.pid, step.n);
    } else {
      ShelfSame(st, s, step);
    }
  }

  predicate Rewrites(step: Step, n: Name, id: Buffer)
  {
    step.Write? && step.n == n && step.id == id
  }

  predicate HasRow(st: State, n: Name, id: Buffer, row: Buffer)
  {
    n in st.segs && id in st.segs[n].rows && st.segs[n].rows[id] == row
  }

  lemma RowStays(st: State, s: SchemaName, step: Step, n: Name, id: Buffer, row: Buffer)
    requires Safe(st, s) && CanStep(st, s, step) && n in st.path && HasRow(st, n, id, row) && !Rewrites(step, n, id)
    ensures HasRow(After(st, s, step), n, id, row)
  {
    if step.Write? {
      hide Safe, RowSize;
    } else {
      hide Safe, CanStep, After;
      SameOnPath(st, s, step, n);
    }
  }

  lemma OnPathStays(st: State, s: SchemaName, step: Step, n: Name)
    requires Safe(st, s) && CanStep(st, s, step) && n in st.path
    ensures n in After(st, s, step).path
  {
    hide Safe, CanStep, After, CurrentUnmoved;
    PathStep(st, s, step);
  }

  predicate NoneRewrites(steps: seq<Step>, n: Name, id: Buffer)
  {
    forall k {:trigger steps[k]} :: 0 <= k < |steps| ==> !Rewrites(steps[k], n, id)
  }

  /** From a write after the copy to the flip of that copy. */
  lemma {:induction false} WaitingRun(st: State, s: SchemaName, steps: seq<Step>, pid: Pid, n: Name, m: Name,
                                      id: Buffer, row: Buffer)
    requires Safe(st, s) && Stocked(st) && Runs(st, s, steps) && NoneRewrites(steps, n, id)
    requires CopiedTo(st, pid, n, m) && HasRow(st, n, id, row) && CopiedTo(Ran(st, s, steps), pid, n, m)
    ensures var v := Ran(st, s, steps);
            && Safe(v, s) && Stocked(v) && HasRow(v, n, id, row) && v.segs[n].def == st.segs[n].def
            && m in st.fill && m in v.fill && v.fill[m] == st.fill[m]
    decreases |steps|
  {
    hide Safe, Stocked, CanStep, After, Private;
    CopiedPrivate(st, s, pid, n, m);
    if steps != [] {
      var t := After(st, s, steps[0]);
      assert !Rewrites(steps[0], n, id);
      StepKeepsSafe(st, s, steps[0]);
      StepKeepsStock(st, s, steps[0]);
      WaitsOrGoes(st, s, steps[0], pid, n, m);
      if Gone(t, pid, m) {
        GoneRun(t, s, steps[1..], pid, m);
      }
      FillStays(st, s, steps[0], pid, n, m);
      RowStays(st, s, steps[0], n, id, row);
      DefKept(st, s, steps[0], n);
      WaitingRun(t, s, steps[1..], pid, n, m, id, row);
    }
  }

  lemma WrittenNow(st: State, s: SchemaName, writer: Pid, n: Name, id: Buffer, row: Buffer, pid: Pid, m: Name)
    requires Safe(st, s) && Stocked(st) && CanStep(st, s, Write(writer, n, id, row)) && CopiedTo(st, pid, n, m)
    ensures var u := After(st, s, Write(writer, n, id, row));
            && Safe(u, s) && Stocked(u) && CopiedTo(u, pid, n, m) && HasRow(u, n, id, row)
            && n in st.segs && u.segs[n].def == st.segs[n].def && |row| == RowSize(st.segs[n].def.fields)
            && m in st.fill && m in u.fill && u.fill[m] == st.fill[m]
  {
    var w := Write(writer, n, id, row);
    assert n in st.segs && |row| == RowSize(st.segs[n].def.fields);
    WriteGrows(st, s, w, n);
    assert HasRow(After(st, s, w), n, id, row);
    assert After(st, s, w).segs[n].def == st.segs[n].def;
    hide Safe, Stocked, CanStep, After, RowSize;
    StepKeepsSafe(st, s, w);
    StepKeepsStock(st, s, w);
    FillStays(st, s, w, pid, n, m);
  }

  /** Segment `m` has the translation of `row` for `id`. */
  ghost predicate HasTranslation(st: State, n: Name, m: Name, rows: Rows, id: Buffer, row: Buffer)
  {
    && n in st.segs && m in st.segs && WidensFloats(st.wide) && Compatible(st.segs[n].def, st.segs[m].def)
    && |row| == RowSize(st.segs[n].def.fields)
    && id in rows && rows[id] == TranslateRow(st.wide, st.segs[n].def, st.segs[m].def, row)
  }

  /** The copy already had a row for `id` that becomes the same new row as `row`. */
  ghost predicate CopyHad(st: State, n: Name, m: Name, base: Rows, id: Buffer, row: Buffer)
  {
    && n in st.segs && m in st.segs && WidensFloats(st.wide) && Compatible(st.segs[n].def, st.segs[m].def)
    && RowsSized(st.segs[n].def, base) && |row| == RowSize(st.segs[n].def.fields)
    && id in base
    && TranslateRow(st.wide, st.segs[n].def, st.segs[m].def, base[id])
       == TranslateRow(st.wide, st.segs[n].def, st.segs[m].def, row)
  }

  /** A flip of a finished copy: the new segment is current and holds the row's translation
      if and only if the copy had it. */
  lemma FlipShows(v: State, s: SchemaName, pid: Pid, at: nat, n: Name, m: Name, id: Buffer, row: Buffer)
    requires Safe(v, s) && Stocked(v) && CopiedTo(v, pid, n, m) && n in v.segs && |row| == RowSize(v.segs[n].def.fields)
    requires CanStep(v, s, FlipCurrentKey(pid, at)) && CurrentUnmoved(v, s, pid)
    ensures var t := After(v, s, FlipCurrentKey(pid, at));
            && s in t.w.k.current && t.w.k.current[s] == m && m in v.fill && m in t.segs
            && (HasTranslation(t, n, m, t.segs[m].rows, id, row) <==> CopyHad(t, n, m, v.fill[m].base, id, row))
  {
    assert OrcStock(v, v.orcs[pid]);
    var step := FlipCurrentKey(pid, at);
    FlipWins(v, s, pid, at);
    hide Safe, Stocked, After, CanStep, Private, RowSize, Compatible, TranslateRow, WidensFloats, RowsSized;
    ShelfSame(v, s, step);
  }

  /** A write to the old segment after the copy, followed by any steps that do not write that
      entity there again, and then by the flip: the write survives the flip if and only if
      the copy already had a row for the entity with the same translation. */
  lemma WriteSurvivesIff(st: State, s: SchemaName, writer: Pid, n: Name, id: Buffer, row: Buffer,
                         between: seq<Step>, pid: Pid, m: Name, at: nat)
    requires Safe(st, s) && Stocked(st) && CopiedTo(st, pid, n, m)
    requires CanStep(st, s, Write(writer, n, id, row))
    requires Runs(After(st, s, Write(writer, n, id, row)), s, between) && NoneRewrites(between, n, id)
    requires var v := Ran(After(st, s, Write(writer, n, id, row)), s, between);
             CopiedTo(v, pid, n, m) && CanStep(v, s, FlipCurrentKey(pid, at)) && CurrentUnmoved(v, s, pid)
    ensures var v := Ran(After(st, s, Write(writer, n, id, row)), s, between);
            var t := After(v, s, FlipCurrentKey(pid, at));
            && s in t.w.k.current && t.w.k.current[s] == m && m in st.fill && m in t.segs
            && HasRow(v, n, id, row)
            && (HasTranslation(t, n, m, t.segs[m].rows, id, row) <==> CopyHad(t, n, m, st.fill[m].base, id, row))
  {
    hide Safe, Stocked, CanStep, After, Runs, Ran, HasTranslation, CopyHad, NoneRewrites, RowSize;
    WrittenNow(st, s, writer, n, id, row, pid, m);
    var u := After(st, s, Write(writer, n, id, row));
    WaitingRun(u, s, between, pid, n, m, id, row);
    FlipShows(Ran(u, s, between), s, pid, at, n, m, id, row);
  }
}
