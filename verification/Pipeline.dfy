// The telemetry pipeline as one machine: watcher, bounded queue, overflow map, batching
// writer and store, in every interleaving. Submitting and receiving are single steps, so
// the watcher and the writer may alternate at every event.
module Pipeline {
  import opened Wrappers
  import opened Telemetry
  import opened Runtime
  import opened RuntimeInvariants
  import opened RuntimeRuns
  import opened Coalescing
  import opened Watcher

  datatype Config = Config(capacity: nat, batchSize: nat)

  // The writer's loop serves until it is told to stop, then empties the channel, then
  // stores what it collected, while the watcher may go on submitting.
  datatype Phase = Serving | Stopping | Closing | Ended

  // submitted, applied and overflowed are history: what was handed to the writer, what
  // reached the store (in order), and which connections ever went through the overflow.
  datatype Pipe = Pipe(
    active: map<string, Feature>,
    pending: seq<Event>,
    queue: seq<Event>,
    overflow: map<string, Event>,
    batch: seq<Event>,
    db: Db,
    phase: Phase,
    failed: bool,
    submitted: seq<Event>,
    applied: seq<Event>,
    overflowed: set<string>)

  datatype Step =
    | Snapshot(current: map<string, Feature>, events: seq<Event>, now: int)
    | Submit
    | Receive
    | Flush(drained: seq<Event>, now: int)
    | Stop
    | SeeEmpty
    | Shutdown(drained: seq<Event>, now: int)
    | FlushFails(drained: seq<Event>)
    | ShutdownFails(drained: seq<Event>)

  // ---- the pieces the writer class is verified against ----

  // A full queue diverts the event to the overflow map, newest per connection.
  function Enqueue(c: Config, queue: seq<Event>, overflow: map<string, Event>, e: Event): (seq<Event>, map<string, Event>) {
    if IdOf(e) == "" then (queue, overflow)
    else if |queue| < c.capacity then (queue + [e], overflow)
    else (queue, overflow[IdOf(e) := e])
  }

  // The overflow's events, each once, in any order.
  ghost predicate IsDrain(overflow: map<string, Event>, drained: seq<Event>) {
    && DistinctIds(drained)
    && (forall i :: 0 <= i < |drained| ==> IdOf(drained[i]) in overflow && overflow[IdOf(drained[i])] == drained[i])
    && (forall id :: id in overflow ==> exists i :: 0 <= i < |drained| && IdOf(drained[i]) == id)
  }

  // One store transaction for everything collected, coalesced. Nothing to flush is no
  // transaction.
  function Stored(db: Db, events: seq<Event>, now: int): Db {
    if events == [] then db else ApplyBatch(db, Coalesced(events), now)
  }

  // ---- steps ----

  ghost predicate Enabled(c: Config, s: Pipe, step: Step) {
    match step
    case Snapshot(current, events, now) => s.pending == [] && WellFormedMap(current) && IsDiff(s.active, current, now, events)
    case Submit => s.pending != []
    case Receive => s.queue != [] && ((s.phase.Serving? && |s.batch| < c.batchSize) || s.phase.Stopping?)
    case Flush(drained, now) => s.phase.Serving? && IsDrain(s.overflow, drained) && AllAcceptable(Coalesced(s.batch + drained))
    case Stop => s.phase.Serving?
    case SeeEmpty => s.phase.Stopping? && s.queue == []
    case Shutdown(drained, now) => s.phase.Closing? && IsDrain(s.overflow, drained) && AllAcceptable(Coalesced(s.batch + drained))
    case FlushFails(drained) => s.phase.Serving? && IsDrain(s.overflow, drained)
    case ShutdownFails(drained) => s.phase.Closing? && IsDrain(s.overflow, drained)
  }

  function Do(c: Config, s: Pipe, step: Step): Pipe {
    match step
    case Snapshot(current, events, now) => s.(active := current, pending := events)
    case Submit =>
      if s.pending == [] then s
      else
        var e := s.pending[0];
        var (queue, overflow) := Enqueue(c, s.queue, s.overflow, e);
        s.(pending := s.pending[1..], queue := queue, overflow := overflow,
           submitted := if IdOf(e) == "" then s.submitted else s.submitted + [e],
           overflowed := if overflow == s.overflow then s.overflowed else s.overflowed + {IdOf(e)})
    case Receive => if s.queue == [] then s else s.(queue := s.queue[1..], batch := s.batch + [s.queue[0]])
    case Flush(drained, now) =>
      var events := s.batch + drained;
      s.(batch := [], overflow := map[], db := Stored(s.db, events, now), applied := s.applied + Coalesced(events))
    case Stop => s.(phase := Stopping)
    case SeeEmpty => s.(phase := Closing)
    case Shutdown(drained, now) =>
      var events := s.batch + drained;
      s.(batch := [], overflow := map[], db := Stored(s.db, events, now), applied := s.applied + Coalesced(events), phase := Ended)
    case FlushFails(drained) => s.(batch := s.batch + drained, overflow := map[], phase := Ended, failed := true)
    case ShutdownFails(drained) => s.(batch := s.batch + drained, overflow := map[], phase := Ended, failed := true)
  }

  ghost predicate Legal(c: Config, s: Pipe, steps: seq<Step>) {
    steps == [] ||
    (Legal(c, s, steps[..|steps| - 1]) && Enabled(c, Run(c, s, steps[..|steps| - 1]), steps[|steps| - 1]))
  }

  function Run(c: Config, s: Pipe, steps: seq<Step>): Pipe {
    if steps == [] then s else Do(c, Run(c, s, steps[..|steps| - 1]), steps[|steps| - 1])
  }

  // The steps are legal and lead from start to s.
  ghost predicate RunsTo(c: Config, start: Pipe, steps: seq<Step>, s: Pipe) {
    forall xs {:trigger Named(xs)} :: xs == steps ==> Legal(c, start, xs) && Run(c, start, xs) == s
  }

  lemma RunsToIsRun(c: Config, start: Pipe, steps: seq<Step>, s: Pipe)
    requires RunsTo(c, start, steps, s)
    ensures Legal(c, start, steps) && Run(c, start, steps) == s
  {
    assert Named(steps);
  }

  lemma RunsOn(c: Config, start: Pipe, steps: seq<Step>, s: Pipe, step: Step)
    requires RunsTo(c, start, steps, s) && Enabled(c, s, step)
    ensures RunsTo(c, start, steps + [step], Do(c, s, step))
  {
    RunsToIsRun(c, start, steps, s);
    assert (steps + [step])[..|steps|] == steps;
    assert Legal(c, start, steps + [step]) && Run(c, start, steps + [step]) == Do(c, s, step);
  }

  // A start whose store and watcher agree: after the startup cleanup both are empty.
  ghost predicate Start(s: Pipe) {
    && s.pending == [] && s.queue == [] && s.batch == [] && s.overflow == map[]
    && s.submitted == [] && s.applied == [] && s.overflowed == {} && !s.failed && s.phase.Serving?
    && WellFormedMap(s.active) && ForeignKeys(s.db) && OpenPairs(s.db) == PairsOf(s.active)
  }

  // ---- what every run keeps ----

  ghost predicate AllSound(events: seq<Event>) {
    forall i :: 0 <= i < |events| ==> Acceptable(events[i]) && IdOf(events[i]) != ""
  }

  // Only acceptable events travel, and the overflow is keyed by connection.
  ghost predicate Sound(s: Pipe) {
    && AllSound(s.pending) && AllSound(s.queue) && AllSound(s.batch)
    && WellFormedMap(s.active) && ForeignKeys(s.db)
    && (forall id :: id in s.overflow ==> id != "" && IdOf(s.overflow[id]) == id && Acceptable(s.overflow[id]))
    && s.overflow.Keys <= s.overflowed
  }

  lemma SoundAcceptable(events: seq<Event>)
    requires AllSound(events)
    ensures AllAcceptable(events)
  {
  }

  lemma DrainSound(s: Pipe, drained: seq<Event>)
    requires Sound(s) && IsDrain(s.overflow, drained)
    ensures AllSound(drained)
  {
  }

  lemma StoredKeepsForeignKeys(db: Db, events: seq<Event>, now: int)
    requires ForeignKeys(db) && AllAcceptable(events)
    ensures ForeignKeys(Stored(db, events, now))
    ensures OpenPairs(Stored(db, events, now)) == Effects(OpenPairs(db), events)
  {
    if events != [] {
      CoalescedEffects(OpenPairs(db), events);
      BatchHasEffects(db, Coalesced(events), now);
    }
  }

  lemma AppendSound(xs: seq<Event>, ys: seq<Event>)
    requires AllSound(xs) && AllSound(ys)
    ensures AllSound(xs + ys)
  {
  }

  lemma StepKeepsSound(c: Config, s: Pipe, step: Step)
    requires Sound(s) && Enabled(c, s, step)
    ensures Sound(Do(c, s, step))
  {
    match step {
      case Snapshot(current, events, now) => DiffAcceptable(s.active, current, now, events);
      case Submit =>
      case Receive =>
      case Flush(drained, now) =>
        DrainSound(s, drained);
        AppendSound(s.batch, drained);
        StoredKeepsForeignKeys(s.db, s.batch + drained, now);
      case Stop =>
      case SeeEmpty =>
      case Shutdown(drained, now) =>
        DrainSound(s, drained);
        AppendSound(s.batch, drained);
        StoredKeepsForeignKeys(s.db, s.batch + drained, now);
      case FlushFails(drained) =>
        DrainSound(s, drained);
        AppendSound(s.batch, drained);
      case ShutdownFails(drained) =>
        DrainSound(s, drained);
        AppendSound(s.batch, drained);
    }
  }

  // Everything under way, applied to the store in order, leaves the watcher's pairs.
  ghost predicate Converging(s: Pipe) {
    Effects(OpenPairs(s.db), s.batch + s.queue + s.pending) == PairsOf(s.active)
  }

  lemma DrainOfEmpty(overflow: map<string, Event>, drained: seq<Event>)
    requires IsDrain(overflow, drained)
    ensures overflow == map[] ==> drained == []
  {
    if drained != [] {
      assert IdOf(drained[0]) in overflow;
    }
  }

  lemma FlushConverges(db: Db, events: seq<Event>, rest: seq<Event>, now: int)
    requires ForeignKeys(db) && AllAcceptable(events)
    ensures Effects(OpenPairs(Stored(db, events, now)), rest) == Effects(OpenPairs(db), events + rest)
  {
    StoredKeepsForeignKeys(db, events, now);
    EffectsAppend(OpenPairs(db), events, rest);
  }

  lemma SnapshotConverges(c: Config, s: Pipe, current: map<string, Feature>, events: seq<Event>, now: int)
    requires Sound(s) && Converging(s) && Enabled(c, s, Snapshot(current, events, now))
    ensures Converging(Do(c, s, Snapshot(current, events, now)))
  {
    var before := s.batch + s.queue;
    assert s.batch + s.queue + s.pending == before;
    EffectsAppend(OpenPairs(s.db), before, events);
    DiffEffects(s.active, current, now, events);
  }

  // Without overflow, submitting and receiving only move events along.
  lemma SubmitMoves(c: Config, s: Pipe)
    requires s.pending != [] && IdOf(s.pending[0]) != "" && s.overflow == map[] == Do(c, s, Submit).overflow
    ensures Do(c, s, Submit).queue == s.queue + [s.pending[0]]
  {
    var e := s.pending[0];
    assert IdOf(e) in s.overflow[IdOf(e) := e];
  }

  lemma MoveConverges(c: Config, s: Pipe, step: Step)
    requires Sound(s) && Converging(s) && s.overflow == map[] && Enabled(c, s, step)
    requires step.Submit? || step.Receive?
    requires Do(c, s, step).overflow == map[]
    ensures Converging(Do(c, s, step))
  {
    var s' := Do(c, s, step);
    if step.Submit? {
      SubmitMoves(c, s);
      Regroup(s.batch, s.queue, s.pending);
    } else {
      assert s.queue == [s.queue[0]] + s.queue[1..];
    }
    assert s'.batch + s'.queue + s'.pending == s.batch + s.queue + s.pending;
  }

  lemma Regroup(xs: seq<Event>, ys: seq<Event>, zs: seq<Event>)
    requires zs != []
    ensures xs + (ys + [zs[0]]) + zs[1..] == xs + ys + zs
  {
  }

  lemma FlushTakes(c: Config, s: Pipe, step: Step)
    requires s.overflow == map[] && Enabled(c, s, step) && (step.Flush? || step.Shutdown?)
    ensures var s' := Do(c, s, step);
      && s'.db == Stored(s.db, s.batch, step.now) && s'.active == s.active
      && s.batch + s.queue + s.pending == s.batch + (s'.batch + s'.queue + s'.pending)
  {
    DrainOfEmpty(s.overflow, step.drained);
    assert step.drained == [] && s.batch + step.drained == s.batch;
  }

  lemma FlushStepConverges(c: Config, s: Pipe, step: Step)
    requires Sound(s) && Converging(s) && s.overflow == map[] && Enabled(c, s, step)
    requires step.Flush? || step.Shutdown?
    ensures Converging(Do(c, s, step))
  {
    var s' := Do(c, s, step);
    SoundAcceptable(s.batch);
    FlushTakes(c, s, step);
    FlushConverges(s.db, s.batch, s'.batch + s'.queue + s'.pending, step.now);
  }

  lemma StepConverges(c: Config, s: Pipe, step: Step)
    requires Sound(s) && Converging(s) && s.overflow == map[] && Enabled(c, s, step)
    requires !Do(c, s, step).failed && Do(c, s, step).overflow == map[]
    ensures Converging(Do(c, s, step))
  {
    match step {
      case Snapshot(current, events, now) => SnapshotConverges(c, s, current, events, now);
      case Submit => MoveConverges(c, s, step);
      case Receive => MoveConverges(c, s, step);
      case Flush(drained, now) => FlushStepConverges(c, s, step);
      case Stop =>
      case SeeEmpty =>
      case Shutdown(drained, now) => FlushStepConverges(c, s, step);
      case FlushFails(drained) =>
      case ShutdownFails(drained) =>
    }
  }

  // ---- the theorem ----

  ghost predicate NeverOverflows(c: Config, s: Pipe, steps: seq<Step>) {
    Run(c, s, steps).overflow == map[] && (steps != [] ==> NeverOverflows(c, s, steps[..|steps| - 1]))
  }

  lemma {:induction false} RunKeepsSound(c: Config, s: Pipe, steps: seq<Step>)
    requires Start(s) && Legal(c, s, steps)
    ensures Sound(Run(c, s, steps))
  {
    if steps != [] {
      RunKeepsSound(c, s, steps[..|steps| - 1]);
      StepKeepsSound(c, Run(c, s, steps[..|steps| - 1]), steps[|steps| - 1]);
    }
  }

  lemma {:induction false} RunConverges(c: Config, s: Pipe, steps: seq<Step>)
    requires Start(s) && Legal(c, s, steps) && NeverOverflows(c, s, steps) && !Run(c, s, steps).failed
    ensures Converging(Run(c, s, steps))
  {
    if steps == [] {
      assert s.batch + s.queue + s.pending == [];
    } else {
      var front := steps[..|steps| - 1];
      RunConverges(c, s, front);
      RunKeepsSound(c, s, front);
      StepConverges(c, Run(c, s, front), steps[|steps| - 1]);
    }
  }

  // For every sequence of snapshots and every schedule of submissions, receptions, size
  // or timer flushes and the shutdown drain, in which the queue never fills and no flush
  // fails: once nothing is under way, the open samples with their device-applications
  // are exactly the normalised connections of the last snapshot.
  lemma FlushedPipelineMirrorsSnapshot(c: Config, s: Pipe, steps: seq<Step>)
    requires Start(s) && Legal(c, s, steps) && NeverOverflows(c, s, steps)
    requires var end := Run(c, s, steps); !end.failed && end.pending == [] && end.queue == [] && end.batch == []
    ensures OpenPairs(Run(c, s, steps).db) == PairsOf(Run(c, s, steps).active)
  {
    RunConverges(c, s, steps);
    var end := Run(c, s, steps);
    assert end.batch + end.queue + end.pending == [];
  }

  // Only a snapshot changes what the watcher remembers.
  lemma StepSetsActive(c: Config, s: Pipe, step: Step)
    ensures Do(c, s, step).active == if step.Snapshot? then step.current else s.active
  {
  }

  lemma {:induction false} ActiveIsLastSnapshot(c: Config, s: Pipe, steps: seq<Step>, k: nat)
    requires k < |steps| && steps[k].Snapshot? && forall j :: k < j < |steps| ==> !steps[j].Snapshot?
    ensures Run(c, s, steps).active == steps[k].current
  {
    var front := steps[..|steps| - 1];
    StepSetsActive(c, Run(c, s, front), steps[|steps| - 1]);
    if k < |front| {
      assert forall j :: k <= j < |front| ==> front[j] == steps[j];
      ActiveIsLastSnapshot(c, s, front, k);
    }
  }

  // The same in terms of the controller's own connections, however they are normalised.
  lemma StoreMirrorsConnections<C>(c: Config, s: Pipe, steps: seq<Step>, k: nat, normalize: C -> Option<Feature>, connections: seq<C>)
    requires Start(s) && Legal(c, s, steps) && NeverOverflows(c, s, steps)
    requires var end := Run(c, s, steps); !end.failed && end.pending == [] && end.queue == [] && end.batch == []
    requires k < |steps| && steps[k].Snapshot? && steps[k].current == Current(normalize, connections)
    requires forall j :: k < j < |steps| ==> !steps[j].Snapshot?
    ensures OpenPairs(Run(c, s, steps).db) == PairsOf(Current(normalize, connections))
  {
    FlushedPipelineMirrorsSnapshot(c, s, steps);
    ActiveIsLastSnapshot(c, s, steps, k);
  }
}
