// What survives when the queue does overflow. In which order it survives is the subject
// of PipelineOrder.dfy.
module PipelineOverflow {
  import opened Wrappers
  import opened Telemetry
  import opened Runtime
  import opened RuntimeInvariants
  import opened RuntimeRuns
  import opened Coalescing
  import opened Watcher
  import opened Pipeline

  function Newest(events: seq<Event>, id: string): Option<Event> {
    if id in Latest(events) then Some(Latest(events)[id]) else None
  }

  ghost predicate Within(events: seq<Event>, all: seq<Event>) {
    forall e :: e in events ==> e in all
  }

  function Stream(s: Pipe): seq<Event> {
    s.applied + s.batch + s.queue
  }

  // Every connection handed over is accounted for, and nothing else is.
  ghost predicate IdsAccounted(s: Pipe) {
    IdSet(s.submitted) == IdSet(s.applied) + IdSet(s.batch) + IdSet(s.queue) + s.overflow.Keys
  }

  // No event was made up.
  ghost predicate EventsAccounted(s: Pipe) {
    && Within(s.applied, s.submitted) && Within(s.batch, s.submitted) && Within(s.queue, s.submitted)
    && (forall id :: id in s.overflow ==> s.overflow[id] in s.submitted)
  }

  // A connection that never overflowed keeps its newest event.
  ghost predicate NewestAccounted(s: Pipe) {
    forall id :: id !in s.overflowed ==> Newest(Stream(s), id) == Newest(s.submitted, id)
  }

  ghost predicate Accounted(s: Pipe) {
    IdsAccounted(s) && EventsAccounted(s) && NewestAccounted(s)
  }

  lemma IdSetAppend(xs: seq<Event>, ys: seq<Event>)
    ensures IdSet(xs + ys) == IdSet(xs) + IdSet(ys)
  {
    forall id | id in IdSet(xs) + IdSet(ys) ensures id in IdSet(xs + ys) {
      if id in IdSet(xs) {
        var e :| e in xs && IdOf(e) == id;
        assert e in xs + ys;
      } else {
        var e :| e in ys && IdOf(e) == id;
        assert e in xs + ys;
      }
    }
  }

  lemma NewestAppend(xs: seq<Event>, ys: seq<Event>, id: string)
    ensures Newest(xs + ys, id) == if Newest(ys, id).Some? then Newest(ys, id) else Newest(xs, id)
  {
    LatestAppend(xs, ys);
  }

  lemma IdsOfLatest(events: seq<Event>)
    requires AllSound(events)
    ensures IdSet(events) == Latest(events).Keys
  {
    LatestMembers(events);
    forall id | id in Latest(events) ensures id in IdSet(events) {
      assert Latest(events)[id] in events;
    }
  }

  lemma CoalescedAccounts(events: seq<Event>)
    requires AllSound(events)
    ensures AllSound(Coalesced(events))
    ensures IdSet(Coalesced(events)) == IdSet(events) && Within(Coalesced(events), events)
    ensures forall id :: Newest(Coalesced(events), id) == Newest(events, id)
  {
    LatestOfCoalesced(events);
    forall i | 0 <= i < |Coalesced(events)| ensures Acceptable(Coalesced(events)[i]) && IdOf(Coalesced(events)[i]) != "" {
      assert Coalesced(events)[i] in events;
    }
    IdsOfLatest(events);
    IdsOfLatest(Coalesced(events));
  }

  lemma DrainAccounts(overflow: map<string, Event>, drained: seq<Event>)
    requires IsDrain(overflow, drained)
    ensures IdSet(drained) == overflow.Keys
    ensures forall e :: e in drained ==> IdOf(e) in overflow && overflow[IdOf(e)] == e
  {
    forall id | id in overflow ensures id in IdSet(drained) {
      var i :| 0 <= i < |drained| && IdOf(drained[i]) == id;
      assert drained[i] in drained;
    }
  }

  lemma NotNewest(events: seq<Event>, id: string)
    ensures id !in IdSet(events) ==> Newest(events, id) == None
  {
    LatestMembers(events);
    if id in Latest(events) {
      assert Latest(events)[id] in events;
    }
  }

  lemma IdSetOne(e: Event)
    ensures IdSet([e]) == {IdOf(e)}
  {
  }

  lemma SubmitIds(c: Config, s: Pipe)
    requires Sound(s) && IdsAccounted(s) && s.pending != []
    ensures IdsAccounted(Do(c, s, Submit))
  {
    var e := s.pending[0];
    IdSetAppend(s.submitted, [e]);
    IdSetAppend(s.queue, [e]);
    IdSetOne(e);
    SubmitShape(c, s);
  }

  // Where a submitted event goes.
  lemma SubmitShape(c: Config, s: Pipe)
    requires s.pending != []
    ensures var e, s' := s.pending[0], Do(c, s, Submit);
      && s'.submitted == (if IdOf(e) == "" then s.submitted else s.submitted + [e])
      && (if IdOf(e) != "" && |s.queue| < c.capacity then s'.queue == s.queue + [e] else s'.queue == s.queue)
      && (if IdOf(e) != "" && |s.queue| >= c.capacity then s'.overflow == s.overflow[IdOf(e) := e] else s'.overflow == s.overflow)
      && s'.batch == s.batch && s'.applied == s.applied
  {
  }

  lemma SubmitEvents(c: Config, s: Pipe)
    requires Sound(s) && EventsAccounted(s) && s.pending != []
    ensures EventsAccounted(Do(c, s, Submit))
  {
    var s' := Do(c, s, Submit);
    assert forall x :: x in s'.submitted <==> x in s.submitted || x == s.pending[0];
  }

  lemma SubmitNewest(c: Config, s: Pipe)
    requires Sound(s) && NewestAccounted(s) && s.pending != []
    ensures NewestAccounted(Do(c, s, Submit))
  {
    var e, s' := s.pending[0], Do(c, s, Submit);
    SubmitShape(c, s);
    assert IdOf(e) != "";
    assert Stream(s') == if |s.queue| < c.capacity then Stream(s) + [e] else Stream(s);
    forall id | id !in s'.overflowed ensures Newest(Stream(s'), id) == Newest(s'.submitted, id) {
      assert Newest(Stream(s), id) == Newest(s.submitted, id);
      NewestAppend(s.submitted, [e], id);
      if |s.queue| < c.capacity {
        NewestAppend(Stream(s), [e], id);
      } else {
        assert IdOf(e) in s'.overflow && IdOf(e) in s'.overflowed;
        IdSetOne(e);
        NotNewest([e], id);
      }
    }
  }

  // One event moved from the queue to the batch.
  ghost predicate Moved(s: Pipe, s': Pipe) {
    && s.queue != [] && s'.queue == s.queue[1..] && s'.batch == s.batch + [s.queue[0]]
    && s'.applied == s.applied && s'.submitted == s.submitted && s'.overflow == s.overflow && s'.overflowed == s.overflowed
  }

  lemma MoveAccounts(s: Pipe, s': Pipe)
    requires Accounted(s) && Moved(s, s')
    ensures Accounted(s')
  {
    var e := s.queue[0];
    assert s.queue == [e] + s.queue[1..];
    assert e in s.queue;
    IdSetAppend([e], s.queue[1..]);
    IdSetAppend(s.batch, [e]);
    assert Stream(s') == Stream(s);
  }

  lemma ReceiveMoves(c: Config, s: Pipe)
    requires s.queue != []
    ensures Moved(s, Do(c, s, Receive))
  {
  }

  // The batch and the drained overflow went to the store.
  ghost predicate Flushed(s: Pipe, s': Pipe, drained: seq<Event>) {
    && AllSound(s.batch + drained)
    && IdSet(drained) == s.overflow.Keys
    && (forall e :: e in drained ==> IdOf(e) in s.overflow && s.overflow[IdOf(e)] == e)
    && s'.queue == s.queue
    && s'.applied == s.applied + Coalesced(s.batch + drained) && s'.batch == [] && s'.overflow == map[]
    && s'.submitted == s.submitted && s'.overflowed == s.overflowed
  }

  lemma FlushFlushes(c: Config, s: Pipe, step: Step)
    requires Sound(s) && Enabled(c, s, step) && (step.Flush? || step.Shutdown?)
    ensures Flushed(s, Do(c, s, step), step.drained)
  {
    DrainSound(s, step.drained);
    DrainAccounts(s.overflow, step.drained);
    AppendSound(s.batch, step.drained);
  }

  lemma FlushIds(s: Pipe, s': Pipe, drained: seq<Event>)
    requires Flushed(s, s', drained) && IdsAccounted(s)
    ensures IdsAccounted(s')
  {
    CoalescedAccounts(s.batch + drained);
    IdSetAppend(s.batch, drained);
    IdSetAppend(s.applied, Coalesced(s.batch + drained));
    assert IdSet(s'.batch) == {};
    Regroup(IdSet(s.applied), IdSet(s.batch), IdSet(s.queue), s.overflow.Keys);
  }

  lemma Regroup(applied: set<string>, batch: set<string>, queue: set<string>, overflow: set<string>)
    ensures applied + batch + queue + overflow == (applied + (batch + overflow)) + {} + queue + {}
  {
  }

  lemma FlushEvents(s: Pipe, s': Pipe, drained: seq<Event>)
    requires Flushed(s, s', drained) && EventsAccounted(s)
    ensures EventsAccounted(s')
  {
    CoalescedAccounts(s.batch + drained);
  }

  lemma FlushNewest(s: Pipe, s': Pipe, drained: seq<Event>)
    requires Flushed(s, s', drained) && NewestAccounted(s) && s.overflow.Keys <= s.overflowed
    ensures NewestAccounted(s')
  {
    assert Stream(s') == s.applied + Coalesced(s.batch + drained) + s.queue;
    forall id | id !in s'.overflowed ensures Newest(Stream(s'), id) == Newest(s'.submitted, id) {
      NotNewest(drained, id);
      NewestThrough(s.applied, s.batch, drained, s.queue, id);
    }
  }

  lemma FlushAccounts(c: Config, s: Pipe, step: Step)
    requires Sound(s) && Accounted(s) && Enabled(c, s, step) && (step.Flush? || step.Shutdown?)
    ensures Accounted(Do(c, s, step))
  {
    FlushFlushes(c, s, step);
    FlushIds(s, Do(c, s, step), step.drained);
    FlushEvents(s, Do(c, s, step), step.drained);
    FlushNewest(s, Do(c, s, step), step.drained);
  }

  // Coalescing in the middle of a stream, with events of other connections appended.
  lemma NewestThrough(applied: seq<Event>, taken: seq<Event>, drained: seq<Event>, rest: seq<Event>, id: string)
    requires AllSound(taken + drained) && Newest(drained, id).None?
    ensures Newest(applied + Coalesced(taken + drained) + rest, id) == Newest(applied + taken + rest, id)
  {
    CoalescedAccounts(taken + drained);
    NewestAppend(applied + Coalesced(taken + drained), rest, id);
    NewestAppend(applied, Coalesced(taken + drained), id);
    NewestAppend(taken, drained, id);
    NewestAppend(applied + taken, rest, id);
    NewestAppend(applied, taken, id);
  }

  lemma {:induction false} RunAccounts(c: Config, s: Pipe, steps: seq<Step>)
    requires Start(s) && Legal(c, s, steps) && !Pipeline.Run(c, s, steps).failed
    ensures Accounted(Pipeline.Run(c, s, steps))
  {
    if steps == [] {
      assert Stream(s) == [];
    } else {
      var front, step := steps[..|steps| - 1], steps[|steps| - 1];
      RunAccounts(c, s, front);
      RunKeepsSound(c, s, front);
      var before := Pipeline.Run(c, s, front);
      match step {
        case Snapshot(current, events, now) =>
        case Submit =>
          SubmitIds(c, before);
          SubmitEvents(c, before);
          SubmitNewest(c, before);
        case Receive =>
          ReceiveMoves(c, before);
          MoveAccounts(before, Do(c, before, Receive));
        case Flush(drained, now) => FlushAccounts(c, before, step);
        case Stop =>
        case SeeEmpty =>
        case Shutdown(drained, now) => FlushAccounts(c, before, step);
        case FlushFails(drained) =>
        case ShutdownFails(drained) =>
      }
    }
  }

  // With overflow allowed: once queue, batch and overflow are empty and no flush failed,
  // every connection submitted has been applied, with events submitted for it and nothing
  // else, and the last event applied for a connection that never overflowed is the last
  // submitted for it.
  lemma NothingLostNothingInvented(c: Config, s: Pipe, steps: seq<Step>)
    requires Start(s) && Legal(c, s, steps)
    requires var end := Pipeline.Run(c, s, steps); !end.failed && end.queue == [] && end.batch == [] && end.overflow == map[]
    ensures var end := Pipeline.Run(c, s, steps);
      && IdSet(end.applied) == IdSet(end.submitted)
      && Within(end.applied, end.submitted)
      && forall id :: id !in end.overflowed ==> Newest(end.applied, id) == Newest(end.submitted, id)
  {
    RunAccounts(c, s, steps);
    var end := Pipeline.Run(c, s, steps);
    assert Stream(end) == end.applied;
    assert IdSet([]) == {};
  }
}
