/** The WAL consumer with deferred acknowledgement, as a state machine over the stream,
    the pending-entries list, the online map, the offline buffer and files, and the
    consumer's own memory. Messages are named by their position in the stream. */
module Wal {
  import opened Bytes

  // ---------------------------------------------------------------------------
  // Messages
  // ---------------------------------------------------------------------------

  datatype Key = Key(schema: nat, id: Buffer)

  /** How far `_apply` gets: nothing; `layout.insert` only, because parsing the event time
      or the offline append raises afterwards; or everything. */
  datatype Outcome = Rejected | HalfApplied | Applied

  datatype Msg = Msg(key: Key, row: Buffer, outcome: Outcome)

  type Stream = seq<Msg>

  type Online = map<Key, Buffer>

  // ---------------------------------------------------------------------------
  // State
  // ---------------------------------------------------------------------------

  /** A `_flush_and_ack` call past its flush: the ids it will acknowledge, and whether the
      XACK has been executed. */
  datatype Flight = NoFlight | Flight(snapshot: seq<nat>, sent: bool)

  /** Where the run coroutine is. `Applying` is `_process_batch`: message `k` of `ids` is
      next, `applied` collects the ids to mark, and `next` is where reading resumes. */
  datatype Phase =
    | Down
    | Draining(from: nat)
    | Reading
    | Parked
    | Applying(ids: seq<nat>, k: nat, applied: seq<nat>, next: nat, drain: bool)
    | Stopping(pos: nat)

  datatype State = State(
    delivered: nat,
    acked: set<nat>,
    processed: set<nat>,
    online: Online,
    inserted: set<nat>,
    disk: set<nat>,
    buffered: set<nat>,
    pending: seq<nat>,
    phase: Phase,
    task: Flight,
    main: Flight)

  /** One call of the offline writer's flush: rows written and dropped from the buffer,
      rows written but restored to the buffer, and whether it returned normally. */
  datatype Flush = Flush(wrote: set<nat>, restored: set<nat>, ok: bool)

  datatype Torn = Clean | Torn(value: Buffer)

  datatype Event =
    | Start
    | ReadPel(count: nat)
    | ReadNew(count: nat, paused: bool)
    | Apply(outcome: Outcome)
    | SetKeys(n: nat)
    | FinishBatch
    | TaskFlush(flush: Flush)
    | MainFlush(flush: Flush)
    | Xack(byMain: bool)
    | Trim(byMain: bool)
    | Drop(byMain: bool)
    | Unpark(reopened: Online)
    | Stop
    | Close(flush: Flush)
    | Exit
    | Crash(wrote: set<nat>, torn: Torn)

  ghost function Elems(s: seq<nat>): set<nat>
  {
    set i | i in s
  }

  /** The first `count` unacknowledged deliveries at or after `from`. */
  function PelPage(acked: set<nat>, from: nat, delivered: nat, count: nat): (ids: seq<nat>)
    ensures forall k :: 0 <= k < |ids| ==> from <= ids[k] < delivered && ids[k] !in acked
    decreases delivered - from
  {
    if from >= delivered || count == 0 then []
    else if from in acked then PelPage(acked, from + 1, delivered, count)
    else [from] + PelPage(acked, from + 1, delivered, count - 1)
  }

  function Upto(lo: nat, hi: nat): (ids: seq<nat>)
    requires lo <= hi
    ensures |ids| == hi - lo && forall k :: 0 <= k < |ids| ==> ids[k] == lo + k
  {
    seq(hi - lo, k requires 0 <= k < hi - lo => lo + k)
  }

  function Smaller(a: nat, b: nat): nat
  {
    if a < b then a else b
  }

  predicate InMainLoop(p: Phase)
  {
    p.Reading? || p.Parked? || (p.Applying? && !p.drain)
  }

  predicate LegalFlush(s: State, f: Flush)
  {
    f.wrote + f.restored <= s.buffered && (f.ok ==> f.wrote == s.buffered)
  }

  function FlightOf(s: State, byMain: bool): Flight
  {
    if byMain then s.main else s.task
  }

  function WithFlight(s: State, byMain: bool, f: Flight): State
  {
    if byMain then s.(main := f) else s.(task := f)
  }

  /** The message `_apply` works on. */
  predicate AtMessage(w: Stream, s: State)
  {
    s.phase.Applying? && s.phase.k < |s.phase.ids| && s.phase.ids[s.phase.k] < |w|
  }

  predicate Enabled(w: Stream, s: State, ev: Event)
  {
    match ev
    case Start => s.phase.Down?
    case ReadPel(count) => s.phase.Draining? && count > 0
    case ReadNew(count, paused) => s.phase.Reading?
    case Apply(outcome) => AtMessage(w, s)
    case SetKeys(n) => s.phase.Applying? && s.phase.k == |s.phase.ids| && n <= |s.phase.applied|
    case FinishBatch =>
      s.phase.Applying? && s.phase.k == |s.phase.ids| && forall i :: i in s.phase.applied ==> i in s.processed
    case TaskFlush(f) => InMainLoop(s.phase) && s.task.NoFlight? && s.pending != [] && LegalFlush(s, f)
    case MainFlush(f) =>
      (s.phase.Parked? || s.phase.Stopping?) && s.main.NoFlight? && s.pending != [] && LegalFlush(s, f)
    case Xack(m) => FlightOf(s, m).Flight? && !FlightOf(s, m).sent
    case Trim(m) => FlightOf(s, m).Flight? && FlightOf(s, m).sent
    case Drop(m) => FlightOf(s, m).Flight?
    case Unpark(_) => s.phase.Parked? && s.main.NoFlight?
    case Stop => !s.phase.Down? && !s.phase.Stopping?
    case Close(f) => s.phase.Stopping? && s.main.NoFlight? && LegalFlush(s, f)
    case Exit => s.phase.Stopping? && s.main.NoFlight?
    case Crash(wrote, torn) => !s.phase.Down? && wrote <= s.buffered && (torn.Torn? ==> AtMessage(w, s))
  }

  function Flushed(s: State, f: Flush): State
  {
    s.(disk := s.disk + f.wrote + f.restored, buffered := s.buffered - f.wrote)
  }

  function Applied1(w: Stream, s: State, outcome: Outcome): State
    requires AtMessage(w, s)
  {
    var i := s.phase.ids[s.phase.k];
    var p := s.phase.(k := s.phase.k + 1);
    match outcome
    case Rejected => s.(phase := p)
    case HalfApplied => s.(phase := p, online := s.online[w[i].key := w[i].row], inserted := s.inserted + {i})
    case Applied =>
      s.(phase := p.(applied := p.applied + [i]), online := s.online[w[i].key := w[i].row],
         inserted := s.inserted + {i}, buffered := s.buffered + {i})
  }

  function TrimPending(pending: seq<nat>, n: nat): seq<nat>
  {
    if n <= |pending| then pending[n..] else []
  }

  /** Every delivery below this position has been dealt with by the current pass. */
  function Pos(p: Phase, delivered: nat): nat
  {
    match p
    case Down => 0
    case Draining(from) => from
    case Reading => delivered
    case Parked => delivered
    case Applying(ids, k, applied, next, drain) => if k < |ids| then ids[k] else next
    case Stopping(pos) => pos
  }

  function Next(w: Stream, s: State, ev: Event): State
    requires Enabled(w, s, ev)
  {
    match ev
    case Start => s.(phase := Draining(0))
    case ReadPel(count) =>
      var ids := PelPage(s.acked, s.phase.from, s.delivered, count);
      s.(phase := if ids == [] then Reading else Applying(ids, 0, [], ids[|ids| - 1] + 1, true))
    case ReadNew(count, paused) =>
      var hi := Smaller(s.delivered + count, |w|);
      if hi <= s.delivered then s.(phase := if paused then Parked else Reading)
      else s.(delivered := hi, phase := if paused then Parked else Applying(Upto(s.delivered, hi), 0, [], hi, false))
    case Apply(outcome) => Applied1(w, s, outcome)
    case SetKeys(n) => s.(processed := s.processed + (set i | i in s.phase.applied[..n]))
    case FinishBatch =>
      s.(pending := s.pending + s.phase.applied,
         phase := if s.phase.drain then Draining(s.phase.next) else Reading)
    case TaskFlush(f) =>
      if f.ok then Flushed(s, f).(task := Flight(s.pending, false)) else Flushed(s, f)
    case MainFlush(f) =>
      if f.ok then Flushed(s, f).(main := Flight(s.pending, false)) else Flushed(s, f)
    case Xack(m) =>
      var f := FlightOf(s, m);
      WithFlight(s.(acked := s.acked + (set i | i in f.snapshot)), m, f.(sent := true))
    case Trim(m) =>
      WithFlight(s.(pending := TrimPending(s.pending, |FlightOf(s, m).snapshot|)), m, NoFlight)
    case Drop(m) => WithFlight(s, m, NoFlight)
    case Unpark(reopened) => s.(phase := Reading, online := reopened)
    case Stop => s.(phase := Stopping(Pos(s.phase, s.delivered)), task := NoFlight, main := NoFlight)
    case Close(f) => Flushed(s, f)
    case Exit => s.(phase := Down)
    case Crash(wrote, torn) =>
      s.(phase := Down, task := NoFlight, main := NoFlight, pending := [],
         disk := s.disk + wrote, buffered := {},
         online := if torn.Clean? then s.online else s.online[w[s.phase.ids[s.phase.k]].key := torn.value])
  }

  function Initial(m0: Online): State
  {
    State(0, {}, {}, m0, {}, {}, {}, [], Down, NoFlight, NoFlight)
  }

  // ---------------------------------------------------------------------------
  // Runs
  // ---------------------------------------------------------------------------

  ghost predicate Legal(w: Stream, s: State, evs: seq<Event>)
    decreases |evs|
  {
    evs == [] || (Enabled(w, s, evs[0]) && Legal(w, Next(w, s, evs[0]), evs[1..]))
  }

  ghost function Exec(w: Stream, s: State, evs: seq<Event>): State
    requires Legal(w, s, evs)
    decreases |evs|
  {
    if evs == [] then s else Exec(w, Next(w, s, evs[0]), evs[1..])
  }

  // ---------------------------------------------------------------------------
  // Acknowledged implies durable, in every run
  // ---------------------------------------------------------------------------

  ghost predicate Stored(s: State, i: nat)
  {
    i in s.inserted && (i in s.disk || i in s.buffered)
  }

  ghost predicate FlightDurable(s: State, f: Flight)
  {
    f.Flight? ==> forall i {:trigger i in f.snapshot} :: i in f.snapshot ==> Durable(s, i)
  }

  /** Inserted online, marked processed, and in a finalized offline file. */
  ghost predicate Durable(s: State, i: nat)
  {
    i in s.inserted && i in s.processed && i in s.disk
  }

  ghost predicate SafeInv(s: State)
  {
    && (forall i {:trigger i in s.acked} :: i in s.acked ==> Durable(s, i))
    && (forall i {:trigger i in s.pending} :: i in s.pending ==> Stored(s, i) && i in s.processed)
    && (s.phase.Applying? ==> forall i {:trigger i in s.phase.applied} :: i in s.phase.applied ==> Stored(s, i))
    && FlightDurable(s, s.task) && FlightDurable(s, s.main)
  }

  predicate FlushEvent(ev: Event)
  {
    ev.TaskFlush? || ev.MainFlush? || ev.Xack? || ev.Trim? || ev.Drop? || ev.Close?
  }

  lemma SafeFlush(w: Stream, s: State, ev: Event)
    requires SafeInv(s) && Enabled(w, s, ev) && FlushEvent(ev)
    ensures SafeInv(Next(w, s, ev))
  {
    if ev.Trim? {
      assert forall i :: i in Next(w, s, ev).pending ==> i in s.pending;
    }
  }

  predicate BatchEvent(ev: Event)
  {
    ev.Apply? || ev.SetKeys? || ev.FinishBatch?
  }

  lemma SafeBatch(w: Stream, s: State, ev: Event)
    requires SafeInv(s) && Enabled(w, s, ev) && BatchEvent(ev)
    ensures SafeInv(Next(w, s, ev))
  {
    if ev.FinishBatch? {
      assert forall i :: i in Next(w, s, ev).pending ==> i in s.pending || i in s.phase.applied;
    }
  }

  lemma SafeRest(w: Stream, s: State, ev: Event)
    requires SafeInv(s) && Enabled(w, s, ev) && !FlushEvent(ev) && !BatchEvent(ev)
    ensures SafeInv(Next(w, s, ev))
  {
    hide PelPage;
  }

  lemma SafeStep(w: Stream, s: State, ev: Event)
    requires SafeInv(s) && Enabled(w, s, ev)
    ensures SafeInv(Next(w, s, ev))
  {
    hide SafeInv, Next;
    if FlushEvent(ev) {
      SafeFlush(w, s, ev);
    } else if BatchEvent(ev) {
      SafeBatch(w, s, ev);
    } else {
      SafeRest(w, s, ev);
    }
  }

  lemma {:induction false} SafeRun(w: Stream, s: State, evs: seq<Event>)
    requires SafeInv(s) && Legal(w, s, evs)
    ensures SafeInv(Exec(w, s, evs))
    decreases |evs|
  {
    if evs != [] {
      SafeStep(w, s, evs[0]);
      SafeRun(w, Next(w, s, evs[0]), evs[1..]);
    }
  }

  /** Whatever fails and whatever overlaps, an id passed to XACK has been inserted online
      and its row is in a finalized offline file. */
  lemma AckImpliesDurable(w: Stream, m0: Online, evs: seq<Event>, i: nat)
    requires Legal(w, Initial(m0), evs)
    ensures var s := Exec(w, Initial(m0), evs); i in s.acked ==> i in s.inserted && i in s.processed && i in s.disk
  {
    SafeRun(w, Initial(m0), evs);
  }
}
