// When the newest event of a connection wins although the queue overflowed: exactly when
// no flush misordered it, and which flushes do.
module PipelineOrder {
  import opened Wrappers
  import opened Telemetry
  import opened Runtime
  import opened RuntimeInvariants
  import opened RuntimeRuns
  import opened Coalescing
  import opened Watcher
  import opened Pipeline
  import opened PipelineOverflow

  predicate Flushes(step: Step) {
    step.Flush? || step.Shutdown?
  }

  // A flush puts the overflow's event of a connection behind the batch and before the
  // channel. That is wrong in two ways: the event is the newest, and older ones of the
  // connection still wait in the channel; or the newest is taken together with it.
  ghost predicate Misorders(s: Pipe, step: Step, id: string) {
    && Flushes(step) && id in s.overflow
    && var newest, waiting := Newest(s.submitted, id), Newest(s.queue, id);
       if newest == Some(s.overflow[id]) then waiting.Some? && waiting != newest else waiting.None?
  }

  predicate Submits(s: Pipe, step: Step, id: string) {
    step.Submit? && s.pending != [] && IdOf(s.pending[0]) == id
  }

  // Some flush of the run misordered the connection, and nothing was submitted for it since.
  ghost predicate Misordered(c: Config, s: Pipe, steps: seq<Step>, id: string) {
    steps != [] &&
    var front, step := steps[..|steps| - 1], steps[|steps| - 1];
    Misorders(Pipeline.Run(c, s, front), step, id) ||
    (Misordered(c, s, front, id) && !Submits(Pipeline.Run(c, s, front), step, id))
  }

  // ---- one step ----

  // late says whether the newest event of the connection has been overtaken for good.
  ghost predicate Ordered(s: Pipe, id: string, late: bool) {
    Placed(Newest(s.submitted, id), s.overflow, Newest(s.batch + s.queue, id), Newest(Stream(s), id), id, late)
  }

  predicate Placed(newest: Option<Event>, overflow: map<string, Event>, waiting: Option<Event>, last: Option<Event>, id: string, late: bool) {
    if id in overflow
    then !late && newest.Some? && (newest == Some(overflow[id]) || newest == waiting)
    else late <==> last != newest
  }

  lemma NewestSnoc(events: seq<Event>, e: Event, id: string)
    ensures Newest(events + [e], id) == if id != "" && IdOf(e) == id then Some(e) else Newest(events, id)
  {
    LatestSnoc(events, e);
  }

  // What a submission does to the newest events of a connection.
  lemma SubmitNewests(c: Config, s: Pipe, id: string)
    requires Sound(s) && s.pending != []
    ensures var e, s' := s.pending[0], Do(c, s, Submit);
      var hit, room := id != "" && IdOf(e) == id, |s.queue| < c.capacity;
      && IdOf(e) != ""
      && s'.overflow == (if room then s.overflow else s.overflow[IdOf(e) := e])
      && Newest(s'.submitted, id) == (if hit then Some(e) else Newest(s.submitted, id))
      && Newest(s'.batch + s'.queue, id) == (if room && hit then Some(e) else Newest(s.batch + s.queue, id))
      && Newest(Stream(s'), id) == (if room && hit then Some(e) else Newest(Stream(s), id))
  {
    var e, s' := s.pending[0], Do(c, s, Submit);
    SubmitShape(c, s);
    NewestSnoc(s.submitted, e, id);
    NewestSnoc(s.batch + s.queue, e, id);
    NewestSnoc(Stream(s), e, id);
    SubmitRegroups(s.applied, s.batch, s.queue, e);
  }

  lemma SubmitRegroups(applied: seq<Event>, batch: seq<Event>, queue: seq<Event>, e: Event)
    ensures batch + (queue + [e]) == (batch + queue) + [e]
    ensures applied + batch + (queue + [e]) == (applied + batch + queue) + [e]
  {
  }

  lemma SubmitOrders(c: Config, s: Pipe, id: string, late: bool)
    requires Sound(s) && Ordered(s, id, late) && s.pending != []
    ensures Ordered(Do(c, s, Submit), id, late && !Submits(s, Submit, id))
  {
    SubmitNewests(c, s, id);
  }

  lemma ReceiveOrders(c: Config, s: Pipe, id: string, late: bool)
    requires Ordered(s, id, late) && s.queue != []
    ensures Ordered(Do(c, s, Receive), id, late)
  {
    ReceiveMoves(c, s);
    ReceiveRegroups(s.applied, s.batch, s.queue);
  }

  lemma ReceiveRegroups(applied: seq<Event>, batch: seq<Event>, queue: seq<Event>)
    requires queue != []
    ensures (batch + [queue[0]]) + queue[1..] == batch + queue
    ensures applied + (batch + [queue[0]]) + queue[1..] == applied + batch + queue
  {
  }

  // The newest event after coalescing and storing what was taken, before what waits.
  lemma NewestStored(applied: seq<Event>, taken: seq<Event>, drained: seq<Event>, id: string)
    requires AllSound(taken + drained)
    ensures Newest(applied + Coalesced(taken + drained), id) ==
      if Newest(drained, id).Some? then Newest(drained, id) else Newest(applied + taken, id)
  {
    CoalescedAccounts(taken + drained);
    NewestAppend(taken, drained, id);
    NewestAppend(applied, taken, id);
    NewestAppend(applied, Coalesced(taken + drained), id);
  }

  // Where the newest event comes from once a flush is through.
  lemma NewestAfterFlush(s: Pipe, s': Pipe, drained: seq<Event>, id: string)
    requires Flushed(s, s', drained)
    ensures Newest(Stream(s'), id) ==
      if Newest(s.queue, id).Some? then Newest(s.queue, id)
      else if id in s.overflow then Some(s.overflow[id])
      else Newest(s.applied + s.batch, id)
    ensures Newest(s.batch + s.queue, id) == if Newest(s.queue, id).Some? then Newest(s.queue, id) else Newest(s.batch, id)
    ensures Newest(Stream(s), id) == if Newest(s.queue, id).Some? then Newest(s.queue, id) else Newest(s.applied + s.batch, id)
  {
    DrainedNewest(s, s', drained, id);
    NewestStored(s.applied, s.batch, drained, id);
    var stored := s.applied + Coalesced(s.batch + drained);
    NewestAppend(stored, s.queue, id);
    assert Stream(s') == stored + s.queue;
    NewestAppend(s.batch, s.queue, id);
    NewestAppend(s.applied + s.batch, s.queue, id);
  }

  lemma DrainedNewest(s: Pipe, s': Pipe, drained: seq<Event>, id: string)
    requires Flushed(s, s', drained)
    ensures Newest(drained, id) == if id in s.overflow then Some(s.overflow[id]) else None
  {
    LatestMembers(drained);
    if id in s.overflow {
      var e :| e in drained && IdOf(e) == id;
      var i :| 0 <= i < |drained| && drained[i] == e;
      assert (s.batch + drained)[|s.batch| + i] == e;
      assert id != "";
    }
  }

  lemma FlushOrders(c: Config, s: Pipe, step: Step, id: string, late: bool)
    requires Sound(s) && Enabled(c, s, step) && Flushes(step) && Ordered(s, id, late)
    ensures Ordered(Do(c, s, step), id, late || Misorders(s, step, id))
  {
    FlushFlushes(c, s, step);
    NewestAfterFlush(s, Do(c, s, step), step.drained, id);
  }

  // ---- every run ----

  lemma {:induction false} RunOrders(c: Config, s: Pipe, steps: seq<Step>, id: string)
    requires Start(s) && Legal(c, s, steps) && !Pipeline.Run(c, s, steps).failed
    ensures Ordered(Pipeline.Run(c, s, steps), id, Misordered(c, s, steps, id))
  {
    if steps != [] {
      var front, step := steps[..|steps| - 1], steps[|steps| - 1];
      RunOrders(c, s, front, id);
      RunKeepsSound(c, s, front);
      StepOrders(c, Pipeline.Run(c, s, front), step, id, Misordered(c, s, front, id));
    }
  }

  lemma StepOrders(c: Config, s: Pipe, step: Step, id: string, late: bool)
    requires Sound(s) && Enabled(c, s, step) && Ordered(s, id, late) && !Do(c, s, step).failed
    ensures Ordered(Do(c, s, step), id, Misorders(s, step, id) || (late && !Submits(s, step, id)))
  {
    match step {
      case Snapshot(_, _, _) =>
      case Submit => SubmitOrders(c, s, id, late);
      case Receive => ReceiveOrders(c, s, id, late);
      case Flush(_, _) => FlushOrders(c, s, step, id, late);
      case Stop =>
      case SeeEmpty =>
      case Shutdown(_, _) => FlushOrders(c, s, step, id, late);
      case FlushFails(_) =>
      case ShutdownFails(_) =>
    }
  }

  // Once everything is flushed without failure, the last event applied for a connection
  // is the last one submitted for it if and only if no flush misordered it after that
  // submission. Nothing is asked of the queue, the schedule or the events.
  lemma NewestWinsIff(c: Config, s: Pipe, steps: seq<Step>, id: string)
    requires Start(s) && Legal(c, s, steps)
    requires var end := Pipeline.Run(c, s, steps); !end.failed && end.queue == [] && end.batch == [] && end.overflow == map[]
    ensures var end := Pipeline.Run(c, s, steps);
      Newest(end.applied, id) == Newest(end.submitted, id) <==> !Misordered(c, s, steps, id)
  {
    RunOrders(c, s, steps, id);
    assert Stream(Pipeline.Run(c, s, steps)) == Pipeline.Run(c, s, steps).applied;
  }

  lemma OverflowedGrows(c: Config, s: Pipe, step: Step)
    ensures s.overflowed <= Do(c, s, step).overflowed
  {
  }

  // A connection that never overflowed was never misordered.
  lemma {:induction false} MisorderedHasOverflowed(c: Config, s: Pipe, steps: seq<Step>, id: string)
    requires Start(s) && Legal(c, s, steps) && Misordered(c, s, steps, id)
    ensures id in Pipeline.Run(c, s, steps).overflowed
  {
    var front, step := steps[..|steps| - 1], steps[|steps| - 1];
    RunKeepsSound(c, s, front);
    OverflowedGrows(c, Pipeline.Run(c, s, front), step);
    if !Misorders(Pipeline.Run(c, s, front), step, id) {
      MisorderedHasOverflowed(c, s, front, id);
    }
  }

  // ---- what the store holds ----

  // What the newest event of a connection makes of its pair.
  function Decided(pairs: map<string, FlowKey>, newest: Option<Event>, id: string): Option<FlowKey> {
    match newest
    case None => Find(pairs, id)
    case Some(e) => if e.kind.Observed? then Some(KeyOf(e.feature)) else None
  }

  lemma NewestDecides(pairs: map<string, FlowKey>, events: seq<Event>, id: string)
    requires AllAcceptable(events)
    ensures Find(Effects(pairs, events), id) == Decided(pairs, Newest(events, id), id)
  {
    EffectsAreOverlay(pairs, events);
  }

  // The applied events made the store, and the submitted ones with those still to be
  // submitted make the watcher's view.
  ghost predicate Explained(pairs: map<string, FlowKey>, s: Pipe) {
    && AllSound(s.submitted) && AllSound(s.applied)
    && OpenPairs(s.db) == Effects(pairs, s.applied)
    && PairsOf(s.active) == Effects(pairs, s.submitted + s.pending)
  }

  lemma SnapshotExplains(pairs: map<string, FlowKey>, c: Config, s: Pipe, step: Step)
    requires Sound(s) && Explained(pairs, s) && step.Snapshot? && Enabled(c, s, step)
    ensures Explained(pairs, Do(c, s, step))
  {
    assert s.submitted + s.pending == s.submitted;
    EffectsAppend(pairs, s.submitted, step.events);
    DiffEffects(s.active, step.current, step.now, step.events);
  }

  lemma SubmitExplains(pairs: map<string, FlowKey>, c: Config, s: Pipe)
    requires Sound(s) && Explained(pairs, s) && s.pending != []
    ensures Explained(pairs, Do(c, s, Submit))
  {
    var e := s.pending[0];
    SubmitShape(c, s);
    assert s.submitted + s.pending == (s.submitted + [e]) + s.pending[1..];
  }

  lemma FlushExplains(pairs: map<string, FlowKey>, c: Config, s: Pipe, step: Step)
    requires Sound(s) && Explained(pairs, s) && Flushes(step) && Enabled(c, s, step)
    ensures Explained(pairs, Do(c, s, step))
  {
    var s', events := Do(c, s, step), s.batch + step.drained;
    FlushFlushes(c, s, step);
    SoundAcceptable(events);
    StoredKeepsForeignKeys(s.db, events, step.now);
    CoalescedEffects(OpenPairs(s.db), events);
    EffectsAppend(pairs, s.applied, Coalesced(events));
    CoalescedAccounts(events);
    AppendSound(s.applied, Coalesced(events));
    FlushStores(c, s, step);
  }

  lemma FlushStores(c: Config, s: Pipe, step: Step)
    requires Flushes(step)
    ensures var s', events := Do(c, s, step), s.batch + step.drained;
      && s'.db == Stored(s.db, events, step.now) && s'.applied == s.applied + Coalesced(events)
      && s'.active == s.active && s'.pending == s.pending && s'.submitted == s.submitted
  {
  }

  lemma {:induction false} RunExplains(c: Config, s: Pipe, steps: seq<Step>)
    requires Start(s) && Legal(c, s, steps) && !Pipeline.Run(c, s, steps).failed
    ensures Explained(OpenPairs(s.db), Pipeline.Run(c, s, steps))
  {
    if steps == [] {
      assert s.submitted + s.pending == [];
    } else {
      var front, step := steps[..|steps| - 1], steps[|steps| - 1];
      var before := Pipeline.Run(c, s, front);
      RunExplains(c, s, front);
      RunKeepsSound(c, s, front);
      match step {
        case Snapshot(_, _, _) => SnapshotExplains(OpenPairs(s.db), c, before, step);
        case Submit => SubmitExplains(OpenPairs(s.db), c, before);
        case Receive =>
        case Flush(_, _) => FlushExplains(OpenPairs(s.db), c, before, step);
        case Stop =>
        case SeeEmpty =>
        case Shutdown(_, _) => FlushExplains(OpenPairs(s.db), c, before, step);
        case FlushFails(_) =>
        case ShutdownFails(_) =>
      }
    }
  }

  predicate SameEffect(a: Option<Event>, b: Option<Event>) {
    && a.Some? && b.Some?
    && a.value.kind.Observed? == b.value.kind.Observed?
    && (a.value.kind.Observed? ==> KeyOf(a.value.feature) == KeyOf(b.value.feature))
  }

  // With overflow or without: once everything is flushed without failure, the store and
  // the last snapshot agree on a connection exactly if it was not misordered, or the event
  // that was applied last happens to say the same as the one submitted last.
  lemma StoreMirrorsConnectionIff(c: Config, s: Pipe, steps: seq<Step>, id: string)
    requires Start(s) && Legal(c, s, steps)
    requires var end := Pipeline.Run(c, s, steps);
      !end.failed && end.pending == [] && end.queue == [] && end.batch == [] && end.overflow == map[]
    ensures var end := Pipeline.Run(c, s, steps);
      Find(OpenPairs(end.db), id) == Find(PairsOf(end.active), id) <==>
        !Misordered(c, s, steps, id) || SameEffect(Newest(end.applied, id), Newest(end.submitted, id))
  {
    var end := Pipeline.Run(c, s, steps);
    RunExplains(c, s, steps);
    assert end.submitted + end.pending == end.submitted;
    SoundAcceptable(end.applied);
    SoundAcceptable(end.submitted);
    NewestDecides(OpenPairs(s.db), end.applied, id);
    NewestDecides(OpenPairs(s.db), end.submitted, id);
    NewestWinsIff(c, s, steps, id);
    if Misordered(c, s, steps, id) {
      MisorderedWasApplied(c, s, steps, id);
    }
  }

  // Both sides of a misordering exist.
  lemma MisorderedWasApplied(c: Config, s: Pipe, steps: seq<Step>, id: string)
    requires Start(s) && Legal(c, s, steps) && Misordered(c, s, steps, id)
    requires var end := Pipeline.Run(c, s, steps); !end.failed && end.queue == [] && end.batch == [] && end.overflow == map[]
    ensures var end := Pipeline.Run(c, s, steps); Newest(end.applied, id).Some? && Newest(end.submitted, id).Some?
  {
    var end := Pipeline.Run(c, s, steps);
    NewestWinsIff(c, s, steps, id);
    NothingLostNothingInvented(c, s, steps);
    RunExplains(c, s, steps);
    IdsOfLatest(end.applied);
    IdsOfLatest(end.submitted);
  }

  // So a run that misorders nothing mirrors the last snapshot, whether or not it overflowed.
  lemma UnmisorderedRunMirrorsSnapshot(c: Config, s: Pipe, steps: seq<Step>)
    requires Start(s) && Legal(c, s, steps) && forall id :: !Misordered(c, s, steps, id)
    requires var end := Pipeline.Run(c, s, steps);
      !end.failed && end.pending == [] && end.queue == [] && end.batch == [] && end.overflow == map[]
    ensures OpenPairs(Pipeline.Run(c, s, steps).db) == PairsOf(Pipeline.Run(c, s, steps).active)
  {
    var end := Pipeline.Run(c, s, steps);
    forall id ensures !Differ(OpenPairs(end.db), PairsOf(end.active), id) {
      StoreMirrorsConnectionIff(c, s, steps, id);
    }
    DifferSomewhere(OpenPairs(end.db), PairsOf(end.active));
  }

  // ---- which flushes misorder ----

  // An event only overflows behind a full channel, so what is submitted for its connection
  // later is at least a channel's length away from the front of the batch.
  ghost predicate Backlogged(c: Config, s: Pipe) {
    && (s.phase.Serving? ==> |s.batch| <= c.batchSize)
    && (s.overflow != map[] ==> |s.batch + s.queue| >= c.capacity)
    && forall id :: id in s.overflow ==> Behind(c, s, id)
  }

  ghost predicate Behind(c: Config, s: Pipe, id: string)
    requires id in s.overflow
  {
    && |s.batch + s.queue| >= c.capacity
    && var newest := Newest(s.submitted, id);
       newest.Some? && (newest == Some(s.overflow[id]) || newest == Newest((s.batch + s.queue)[c.capacity..], id))
  }

  lemma SubmitBacklogs(c: Config, s: Pipe)
    requires Sound(s) && Backlogged(c, s) && s.pending != []
    ensures Backlogged(c, Do(c, s, Submit))
  {
    var e, s' := s.pending[0], Do(c, s, Submit);
    SubmitShape(c, s);
    forall id | id in s'.overflow ensures Behind(c, s', id) {
      NewestSnoc(s.submitted, e, id);
      if |s.queue| < c.capacity {
        assert (s'.batch + s'.queue)[c.capacity..] == (s.batch + s.queue)[c.capacity..] + [e];
        NewestSnoc((s.batch + s.queue)[c.capacity..], e, id);
      } else {
        assert s'.batch + s'.queue == s.batch + s.queue;
      }
    }
  }

  lemma StepBacklogs(c: Config, s: Pipe, step: Step)
    requires Sound(s) && Backlogged(c, s) && Enabled(c, s, step) && !Do(c, s, step).failed
    ensures Backlogged(c, Do(c, s, step))
  {
    if step.Submit? {
      SubmitBacklogs(c, s);
    } else if step.Receive? {
      var s' := Do(c, s, step);
      assert s.queue == [s.queue[0]] + s.queue[1..];
      assert s'.batch + s'.queue == s.batch + s.queue;
      forall id | id in s'.overflow ensures Behind(c, s', id) {
        assert Behind(c, s, id);
      }
    } else if step.Snapshot? {
      forall id | id in s.overflow ensures Behind(c, Do(c, s, step), id) {
        assert Behind(c, s, id);
      }
    }
  }

  lemma {:induction false} RunBacklogs(c: Config, s: Pipe, steps: seq<Step>)
    requires Start(s) && Legal(c, s, steps) && !Pipeline.Run(c, s, steps).failed
    ensures Backlogged(c, Pipeline.Run(c, s, steps))
  {
    if steps != [] {
      var front := steps[..|steps| - 1];
      RunBacklogs(c, s, front);
      RunKeepsSound(c, s, front);
      StepBacklogs(c, Pipeline.Run(c, s, front), steps[|steps| - 1]);
    }
  }

  // With batches no longer than the channel, which is what the configuration admits, a
  // flush before shutdown misorders a connection exactly when its newest event overflowed
  // and older ones of it still wait.
  lemma FlushMisordersIff(c: Config, s: Pipe, steps: seq<Step>, step: Step, id: string)
    requires Start(s) && Legal(c, s, steps) && !Pipeline.Run(c, s, steps).failed
    requires c.batchSize <= c.capacity && step.Flush? && Enabled(c, Pipeline.Run(c, s, steps), step)
    ensures var at := Pipeline.Run(c, s, steps);
      Misorders(at, step, id) <==>
        && id in at.overflow
        && var newest := Newest(at.submitted, id);
           newest == Some(at.overflow[id]) && Newest(at.queue, id) !in {None, newest}
  {
    var at := Pipeline.Run(c, s, steps);
    RunBacklogs(c, s, steps);
    if id in at.overflow {
      assert Behind(c, at, id);
      var n := c.capacity - |at.batch|;
      assert (at.batch + at.queue)[c.capacity..] == at.queue[n..];
      assert at.queue == at.queue[..n] + at.queue[n..];
      NewestAppend(at.queue[..n], at.queue[n..], id);
    }
  }

  // The shutdown flush comes when the channel has been emptied; if it still is empty, the
  // flush misorders a connection exactly when its newest event did not overflow while an
  // older one did.
  lemma ShutdownMisordersIff(s: Pipe, step: Step, id: string)
    requires step.Shutdown? && s.queue == []
    ensures Misorders(s, step, id) <==> id in s.overflow && Newest(s.submitted, id) != Some(s.overflow[id])
  {
  }
}
