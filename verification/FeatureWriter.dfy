// The batching writer between the watcher and the store: a bounded queue, an overflow map
// and the branches of its select loop, verified to perform runs of the pipeline.
module FeatureWriter {
  import opened Wrappers
  import opened Telemetry
  import opened Runtime
  import opened RuntimeInvariants
  import opened RuntimeRuns
  import opened RuntimeStore
  import opened Coalescing
  import opened Watcher
  import opened Pipeline
  import PipelineOrder

  const DEFAULT_CAPACITY := 8192
  const DEFAULT_BATCH_SIZE := 256

  class FeatureWriter {
    const config: Config
    const store: Store
    var queue: seq<Event>
    var overflow: map<string, Event>
    var batch: seq<Event>
    var batches: nat
    var applied: nat
    var applyErrors: nat
    // How often the onApply callback has run.
    var notified: nat
    // The run of the pipeline this object, its watcher and its store have performed.
    ghost const start: Pipe
    ghost var pipe: Pipe
    ghost var steps: seq<Pipeline.Step>

    ghost predicate Shows(s: Pipe)
      reads this, store
    {
      s.queue == queue && s.overflow == overflow && s.batch == batch && s.db == store.Tables()
    }

    // The channel never holds more than its capacity, the overflow is keyed by the
    // connection of each event, and all that happened so far is a run of the pipeline.
    ghost predicate Valid()
      reads this, store
    {
      && |queue| <= config.capacity
      && Keyed(overflow)
      && RunsTo(config, start, steps, pipe) && Shows(pipe)
    }

    // The loop is running, and its batch has room.
    ghost predicate Ready()
      reads this, store
    {
      Valid() && pipe.phase.Serving? && |batch| < config.batchSize
    }

    // Sizes that are not positive are replaced by defaults.
    constructor (capacity: int, batchSize: int, store: Store)
      ensures Ready() && this.store == store
      ensures config == Config(if capacity <= 0 then DEFAULT_CAPACITY else capacity, if batchSize <= 0 then DEFAULT_BATCH_SIZE else batchSize)
      ensures queue == [] && overflow == map[] && batch == []
      ensures batches == applied == applyErrors == notified == 0
      ensures start == pipe == Pipe(map[], [], [], map[], [], store.Tables(), Serving, false, [], [], {}) && steps == []
    {
      this.config := Config(if capacity <= 0 then DEFAULT_CAPACITY else capacity, if batchSize <= 0 then DEFAULT_BATCH_SIZE else batchSize);
      this.store := store;
      queue, overflow, batch := [], map[], [];
      batches, applied, applyErrors, notified := 0, 0, 0, 0;
      start, pipe, steps :=
        Pipe(map[], [], [], map[], [], store.Tables(), Serving, false, [], [], {}),
        Pipe(map[], [], [], map[], [], store.Tables(), Serving, false, [], [], {}), [];
      new;
      assert Legal(config, start, steps) && Pipeline.Run(config, start, steps) == pipe;
    }

    // Accounts for one step of the pipeline.
    ghost method Account(step: Pipeline.Step)
      requires RunsTo(config, start, steps, pipe) && Enabled(config, pipe, step)
      modifies this`pipe, this`steps
      ensures RunsTo(config, start, steps, pipe)
      ensures pipe == Do(config, old(pipe), step) && steps == old(steps) + [step]
    {
      RunsOn(config, start, steps, pipe, step);
      pipe, steps := Do(config, pipe, step), steps + [step];
    }

    // A snapshot arrived: the watcher is about to submit its events.
    ghost method Report(current: map<string, Feature>, events: seq<Event>, now: int)
      requires Valid() && pipe.pending == []
      requires WellFormedMap(current) && IsDiff(pipe.active, current, now, events)
      modifies this`pipe, this`steps
      ensures Valid() && pipe == old(pipe).(active := current, pending := events)
      ensures steps == old(steps) + [Pipeline.Step.Snapshot(current, events, now)]
    {
      Account(Pipeline.Step.Snapshot(current, events, now));
    }

    // Called by the watcher; never blocks. Each event is one submission.
    method ApplyFeatureEvents(events: seq<Event>)
      requires Valid() && pipe.pending == events
      modifies this`queue, this`overflow, this`pipe, this`steps
      ensures Valid() && pipe == Submitted(config, old(pipe), |events|) && old(steps) <= steps
      ensures (queue, overflow) == EnqueueAll(config, old(queue), old(overflow), events)
    {
      SubmissionsAreOneCall(config, pipe, 0);
      for i := 0 to |events|
        invariant Valid() && old(steps) <= steps
        invariant pipe == Submitted(config, old(pipe), i)
        invariant pipe.pending == events[i..]
      {
        SubmitOne(events[i]);
      }
      SubmissionsAreOneCall(config, old(pipe), |events|);
      assert events[..|events|] == events;
    }

    method SubmitOne(event: Event)
      requires Valid() && pipe.pending != [] && pipe.pending[0] == event
      modifies this`queue, this`overflow, this`pipe, this`steps
      ensures Valid() && pipe == Do(config, old(pipe), Submit) && steps == old(steps) + [Submit]
    {
      Account(Submit);
      if IdOf(event) == "" {
        return;
      }
      if |queue| < config.capacity {
        queue := queue + [event];
      } else {
        overflow := overflow[IdOf(event) := event];
      }
    }

    // Empties the overflow map; its iteration order is arbitrary.
    method DrainOverflow() returns (events: seq<Event>)
      requires Keyed(overflow)
      modifies this`overflow
      ensures overflow == map[] && IsDrain(old(overflow), events)
    {
      events := [];
      var todo := overflow.Keys;
      while todo != {}
        invariant overflow == old(overflow) && todo <= overflow.Keys && DrainedSoFar(overflow, todo, events)
      {
        var id :| id in todo;
        DrainOneMore(overflow, todo, events, id);
        events := events + [overflow[id]];
        todo := todo - {id};
      }
      overflow := map[];
    }

    // Takes everything the channel holds.
    method DrainChannel() returns (events: seq<Event>)
      modifies this`queue
      ensures events == old(queue) && queue == []
    {
      events := [];
      while queue != []
        invariant events + queue == old(queue)
        decreases |queue|
      {
        events := events + [queue[0]];
        queue := queue[1..];
      }
    }

    // Accounts for emptying the channel after the stop, one reception at a time.
    ghost method AccountReceptions()
      requires RunsTo(config, start, steps, pipe) && pipe.phase.Stopping?
      modifies this`pipe, this`steps
      ensures RunsTo(config, start, steps, pipe)
      ensures pipe == old(pipe).(batch := old(pipe).batch + old(pipe).queue, queue := [])
      ensures steps == old(steps) + Receptions(|old(pipe).queue|)
    {
      ghost var all := pipe.queue;
      while pipe.queue != []
        invariant RunsTo(config, start, steps, pipe) && |pipe.queue| <= |all|
        invariant pipe == old(pipe).(batch := pipe.batch, queue := pipe.queue)
        invariant pipe.batch + pipe.queue == old(pipe).batch + all
        invariant steps == old(steps) + Receptions(|all| - |pipe.queue|)
        decreases |pipe.queue|
      {
        ghost var n := |all| - |pipe.queue|;
        Account(Receive);
        assert Receptions(n) + [Receive] == Receptions(n + 1);
      }
    }

    // One coalesced transaction. storeFails stands for a failing database.
    method Apply(events: seq<Event>, now: int, storeFails: bool) returns (result: Option<Tally>, count: nat)
      requires events != []
      modifies store
      ensures count == |Coalesced(events)|
      ensures result.Some? <==> !storeFails && AllAcceptable(Coalesced(events))
      ensures store.Tables() == if result.Some? then Stored(old(store.Tables()), events, now) else old(store.Tables())
      ensures result.Some? ==> result.value == TallyBatch(old(store.Tables()), Coalesced(events), now)
    {
      var coalesced := CoalesceEvents(events);
      count := |coalesced|;
      if storeFails {
        return None, count;
      }
      var r := store.ApplyFeatureEvents(coalesced, now);
      result := if r.Ok? then Some(r.value) else None;
    }

    // The counters after the events went to the store, or did not.
    ghost predicate Counted(events: seq<Event>, now: int, ok: bool, db: Db, batches0: nat, applied0: nat, errors0: nat, notified0: nat)
      reads this
    {
      if ok && events != [] then
        && batches == batches0 + 1 && applied == applied0 + |Coalesced(events)| && applyErrors == errors0
        && notified == notified0 + if TallyBatch(db, Coalesced(events), now).changed then 1 else 0
      else batches == batches0 && applied == applied0 && notified == notified0 && applyErrors == errors0 + if ok then 0 else 1
    }

    // The batch and the overflow go to the store: a flush of the pipeline, or, when the
    // store refuses them, a failed one, after which the writer stops with the batch kept.
    method Flush(now: int, storeFails: bool) returns (ok: bool, ghost drained: seq<Event>)
      requires Valid() && pipe.phase.Serving?
      modifies this`overflow, this`batch, this`batches, this`applied, this`applyErrors, this`notified, this`pipe, this`steps, store
      ensures Valid() && IsDrain(old(overflow), drained)
      ensures ok <==> old(batch) + drained == [] || (!storeFails && AllAcceptable(Coalesced(old(batch) + drained)))
      ensures steps == old(steps) + [FlushStep(drained, now, ok, false)] && pipe == Do(config, old(pipe), FlushStep(drained, now, ok, false))
      ensures Counted(old(batch) + drained, now, ok, old(store.Tables()), old(batches), old(applied), old(applyErrors), old(notified))
    {
      var extra := DrainOverflow();
      drained := extra;
      batch := batch + extra;
      ok := true;
      if batch != [] {
        ok := ApplyBatched(now, storeFails);
      }
      if ok {
        batch := [];
      }
      AccountFlush(extra, now, ok, false);
    }

    // Accounts for a flush once its effects are there.
    ghost method AccountFlush(drained: seq<Event>, now: int, ok: bool, last: bool)
      requires RunsTo(config, start, steps, pipe) && IsDrain(pipe.overflow, drained) && |queue| <= config.capacity
      requires if last then pipe.phase.Closing? else pipe.phase.Serving?
      requires ok ==> pipe.batch + drained == [] || AllAcceptable(Coalesced(pipe.batch + drained))
      requires queue == pipe.queue && overflow == map[] && batch == if ok then [] else pipe.batch + drained
      requires store.Tables() == if ok then Stored(pipe.db, pipe.batch + drained, now) else pipe.db
      modifies this`pipe, this`steps
      ensures Valid() && pipe == Do(config, old(pipe), FlushStep(drained, now, ok, last))
      ensures steps == old(steps) + [FlushStep(drained, now, ok, last)]
    {
      FlushStepDoes(config, pipe, drained, now, ok, last);
      Account(FlushStep(drained, now, ok, last));
    }

    method ApplyBatched(now: int, storeFails: bool) returns (ok: bool)
      requires batch != []
      modifies this`batches, this`applied, this`applyErrors, this`notified, store
      ensures ok <==> !storeFails && AllAcceptable(Coalesced(batch))
      ensures store.Tables() == if ok then Stored(old(store.Tables()), batch, now) else old(store.Tables())
      ensures Counted(batch, now, ok, old(store.Tables()), old(batches), old(applied), old(applyErrors), old(notified))
    {
      var result, count := Apply(batch, now, storeFails);
      ok := result.Some?;
      if !ok {
        applyErrors := applyErrors + 1;
        return;
      }
      batches, applied := batches + 1, applied + count;
      if result.value.changed {
        notified := notified + 1;
      }
    }

    // The queue branch: one event, and a flush when the batch is full. The timer branch is
    // a flush alone.
    method OnEvent(now: int, storeFails: bool) returns (ok: bool, ghost drained: seq<Event>)
      requires Ready() && queue != []
      modifies this, store
      ensures Valid() && (ok ==> Ready())
      ensures if |old(batch)| + 1 < config.batchSize then
          && ok && steps == old(steps) + [Receive] && pipe == Do(config, old(pipe), Receive)
          && (batches, applied, applyErrors, notified) == old((batches, applied, applyErrors, notified))
        else
          && IsDrain(old(overflow), drained)
          && steps == old(steps) + [Receive] + [FlushStep(drained, now, ok, false)]
          && pipe == Do(config, Do(config, old(pipe), Receive), FlushStep(drained, now, ok, false))
          && (ok <==> !storeFails && AllAcceptable(Coalesced(old(batch) + [old(queue)[0]] + drained)))
          && Counted(old(batch) + [old(queue)[0]] + drained, now, ok, old(store.Tables()), old(batches), old(applied), old(applyErrors), old(notified))
    {
      batch := batch + [queue[0]];
      queue := queue[1..];
      Account(Receive);
      ok, drained := true, [];
      if |batch| >= config.batchSize {
        ok, drained := Flush(now, storeFails);
      }
    }

    // The shutdown branch: everything already received goes into one last transaction, and
    // the loop ends.
    method OnDone(now: int, storeFails: bool) returns (ok: bool, ghost drained: seq<Event>)
      requires Valid() && pipe.phase.Serving?
      modifies this`queue, this`overflow, this`batch, this`pipe, this`steps, store
      ensures Valid() && IsDrain(old(overflow), drained)
      ensures var events := old(batch) + old(queue) + drained;
        ok <==> events == [] || (!storeFails && AllAcceptable(Coalesced(events)))
      ensures pipe == Do(config, Collected(old(pipe)), FlushStep(drained, now, ok, true))
      ensures steps == old(steps) + [Stop] + Receptions(|old(queue)|) + [SeeEmpty] + [FlushStep(drained, now, ok, true)]
    {
      var waiting := DrainChannel();
      batch := batch + waiting;
      AccountCollection();
      var extra := DrainOverflow();
      drained := extra;
      batch := batch + extra;
      ok := true;
      if batch != [] {
        var result, count := Apply(batch, now, storeFails);
        ok := result.Some?;
      }
      if ok {
        batch := [];
      }
      AccountFlush(extra, now, ok, true);
    }

    // Accounts for the stop and for emptying the channel.
    ghost method AccountCollection()
      requires RunsTo(config, start, steps, pipe) && pipe.phase.Serving?
      modifies this`pipe, this`steps
      ensures RunsTo(config, start, steps, pipe)
      ensures pipe == Collected(old(pipe))
      ensures steps == old(steps) + [Stop] + Receptions(|old(pipe).queue|) + [SeeEmpty]
    {
      Account(Stop);
      AccountReceptions();
      Account(SeeEmpty);
    }
  }

  function Receptions(n: nat): seq<Pipeline.Step> {
    seq(n, _ => Receive)
  }

  // The pipeline once the writer has stopped and emptied the channel.
  function Collected(s: Pipe): Pipe {
    s.(batch := s.batch + s.queue, queue := [], phase := Closing)
  }

  // The flush of a serving loop or the last one, successful or not.
  function FlushStep(drained: seq<Event>, now: int, ok: bool, last: bool): Pipeline.Step {
    if last then if ok then Shutdown(drained, now) else ShutdownFails(drained)
    else if ok then Pipeline.Step.Flush(drained, now) else FlushFails(drained)
  }

  lemma FlushStepDoes(c: Config, s: Pipe, drained: seq<Event>, now: int, ok: bool, last: bool)
    requires IsDrain(s.overflow, drained) && if last then s.phase.Closing? else s.phase.Serving?
    requires ok ==> s.batch + drained == [] || AllAcceptable(Coalesced(s.batch + drained))
    ensures Enabled(c, s, FlushStep(drained, now, ok, last))
    ensures var s' := Do(c, s, FlushStep(drained, now, ok, last));
      && s'.queue == s.queue && s'.overflow == map[] && s'.phase == (if ok && !last then Serving else Ended)
      && s'.batch == (if ok then [] else s.batch + drained)
      && s'.db == (if ok then Stored(s.db, s.batch + drained, now) else s.db)
  {
  }

  ghost predicate Keyed(overflow: map<string, Event>) {
    forall id :: id in overflow ==> IdOf(overflow[id]) == id && id != ""
  }

  ghost predicate DrainedSoFar(overflow: map<string, Event>, todo: set<string>, events: seq<Event>) {
    && DistinctIds(events)
    && (forall i :: 0 <= i < |events| ==>
          IdOf(events[i]) in overflow && IdOf(events[i]) !in todo && overflow[IdOf(events[i])] == events[i])
    && (forall id :: id in overflow && id !in todo ==> exists i :: 0 <= i < |events| && IdOf(events[i]) == id)
  }

  lemma DrainOneMore(overflow: map<string, Event>, todo: set<string>, events: seq<Event>, id: string)
    requires DrainedSoFar(overflow, todo, events) && id in todo && id in overflow && Keyed(overflow)
    ensures DrainedSoFar(overflow, todo - {id}, events + [overflow[id]])
  {
    var more := events + [overflow[id]];
    forall x | x in overflow && x !in todo - {id} ensures exists i :: 0 <= i < |more| && IdOf(more[i]) == x {
      if x == id {
        assert IdOf(more[|events|]) == id;
      } else {
        var i :| 0 <= i < |events| && IdOf(events[i]) == x;
        assert IdOf(more[i]) == x;
      }
    }
  }

  // ---- a call of the watcher as submissions ----

  // What a run of submissions leaves in the queue and in the overflow.
  function EnqueueAll(c: Config, queue: seq<Event>, overflow: map<string, Event>, events: seq<Event>)
    : (seq<Event>, map<string, Event>)
  {
    if events == [] then (queue, overflow)
    else
      var (q, o) := EnqueueAll(c, queue, overflow, events[..|events| - 1]);
      Enqueue(c, q, o, events[|events| - 1])
  }

  function Submitted(c: Config, s: Pipe, n: nat): Pipe {
    if n == 0 then s else Do(c, Submitted(c, s, n - 1), Submit)
  }

  // Submitting events one at a time, as the pipeline does, is one call.
  lemma {:induction false} SubmissionsAreOneCall(c: Config, s: Pipe, n: nat)
    requires n <= |s.pending|
    ensures var after := Submitted(c, s, n);
      && (after.queue, after.overflow) == EnqueueAll(c, s.queue, s.overflow, s.pending[..n])
      && after.pending == s.pending[n..]
      && after.batch == s.batch && after.db == s.db && after.active == s.active && after.phase == s.phase
  {
    if n > 0 {
      SubmissionsAreOneCall(c, s, n - 1);
      assert s.pending[..n][..n - 1] == s.pending[..n - 1];
      assert s.pending[n - 1..][1..] == s.pending[n..];
    }
  }

  // ---- whatever the writer did was a run of the pipeline ----

  // A writer created after the startup cleanup starts where the theorems start.
  lemma CleanedStoreStarts(db: Db, at: int, s: Pipe)
    requires ForeignKeys(db)
    requires s == Pipe(map[], [], [], map[], [], MarkInactive(db, at), Serving, false, [], [], {})
    ensures Start(s)
  {
    StartupRestoresExact(db, at);
    assert PairsOf(s.active) == map[];
  }

  // So once it is drained without failure, its store agrees with the last snapshot on
  // every connection that was not misordered.
  lemma WriterMirrorsSnapshot(w: FeatureWriter, id: string)
    requires w.Valid() && Start(w.start) && !PipelineOrder.Misordered(w.config, w.start, w.steps, id)
    requires !w.pipe.failed && w.pipe.pending == [] && w.queue == [] && w.batch == [] && w.overflow == map[]
    ensures Find(OpenPairs(w.store.Tables()), id) == Find(PairsOf(w.pipe.active), id)
  {
    RunsToIsRun(w.config, w.start, w.steps, w.pipe);
    PipelineOrder.StoreMirrorsConnectionIff(w.config, w.start, w.steps, id);
  }

  // ---- what a call leaves ----

  // The events that name a connection.
  function Naming(events: seq<Event>): seq<Event> {
    if events == [] then []
    else
      var front, e := Naming(events[..|events| - 1]), events[|events| - 1];
      if e.feature.connectionId == "" then front else front + [e]
  }

  function Room(c: Config, queue: seq<Event>, n: nat): nat
    requires |queue| <= c.capacity
  {
    if n <= c.capacity - |queue| then n else c.capacity - |queue|
  }

  ghost function Placed(c: Config, queue: seq<Event>, overflow: map<string, Event>, named: seq<Event>): (seq<Event>, map<string, Event>)
    requires |queue| <= c.capacity
  {
    var k := Room(c, queue, |named|);
    (queue + named[..k], overflow + Latest(named[k..]))
  }

  // As many events as there is room for are queued, in order; of the rest the newest of
  // each connection is in the overflow.
  lemma {:induction false} CallSays(c: Config, queue: seq<Event>, overflow: map<string, Event>, events: seq<Event>)
    requires |queue| <= c.capacity
    ensures EnqueueAll(c, queue, overflow, events) == Placed(c, queue, overflow, Naming(events))
  {
    if events == [] {
      NothingPlaced(c, queue, overflow);
    } else {
      var front, e := events[..|events| - 1], events[|events| - 1];
      CallSays(c, queue, overflow, front);
      if IdOf(e) != "" {
        PlacedOneMore(c, queue, overflow, Naming(front), e);
      }
    }
  }

  lemma NothingPlaced(c: Config, queue: seq<Event>, overflow: map<string, Event>)
    requires |queue| <= c.capacity
    ensures Placed(c, queue, overflow, []) == (queue, overflow)
  {
    assert overflow + map[] == overflow && queue + [] == queue;
  }

  lemma PlacedOneMore(c: Config, queue: seq<Event>, overflow: map<string, Event>, before: seq<Event>, e: Event)
    requires |queue| <= c.capacity && IdOf(e) != ""
    ensures var (q, o) := Placed(c, queue, overflow, before);
      Placed(c, queue, overflow, before + [e]) == Enqueue(c, q, o, e)
  {
    var k, named := Room(c, queue, |before|), before + [e];
    if |before| < c.capacity - |queue| {
      assert Room(c, queue, |named|) == |named| && k == |before|;
      assert named[..|named|] == named && before[..k] == before;
      assert named[|named|..] == [] && before[k..] == [];
      assert queue + named == (queue + before) + [e];
    } else {
      assert named[..k] == before[..k] && named[k..] == before[k..] + [e];
      LatestSnoc(before[k..], e);
      var kept := Latest(before[k..]);
      assert (overflow + kept)[IdOf(e) := e] == overflow + kept[IdOf(e) := e];
    }
  }
}
