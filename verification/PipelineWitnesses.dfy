// Runs in which the overflow does misorder a connection, for every capacity of the
// channel: a connection the watcher saw close stays open in the store.
module PipelineWitnesses {
  import opened Wrappers
  import opened Telemetry
  import opened Runtime
  import opened RuntimeInvariants
  import opened RuntimeRuns
  import opened Coalescing
  import opened Watcher
  import opened Pipeline
  import opened PipelineOverflow
  import opened PipelineOrder

  const FRESH := Pipe(map[], [], [], map[], [], EMPTY_DB, Serving, false, [], [], {})

  lemma FreshStarts()
    ensures Start(FRESH)
  {
    assert OpenPairs(EMPTY_DB) == PairsOf(FRESH.active);
  }

  lemma FreshRuns(c: Config)
    ensures RunsTo(c, FRESH, [], FRESH)
  {
    assert Legal(c, FRESH, []) && Pipeline.Run(c, FRESH, []) == FRESH;
  }

  // ---- the moves of the witnesses ----

  function Opened(f: Feature): Event {
    Event(Observed, f)
  }

  function Gone(f: Feature): Event {
    Event(Closed, f.(observedAt := Some(2)))
  }

  function Copies(e: Event, n: nat): (r: seq<Event>)
    ensures |r| == n
  {
    seq(n, _ => e)
  }

  // What one submission of e, reported by one snapshot, leaves.
  function Polled(c: Config, s: Pipe, current: map<string, Feature>, e: Event): Pipe {
    if |s.queue| < c.capacity
    then s.(active := current, queue := s.queue + [e], submitted := s.submitted + [e])
    else s.(active := current, overflow := s.overflow[IdOf(e) := e], submitted := s.submitted + [e],
            overflowed := if s.overflow[IdOf(e) := e] == s.overflow then s.overflowed else s.overflowed + {IdOf(e)})
  }

  lemma PollOne(c: Config, steps: seq<Step>, at: Pipe, current: map<string, Feature>, e: Event) returns (more: seq<Step>)
    requires RunsTo(c, FRESH, steps, at) && at.pending == [] && IdOf(e) != ""
    requires WellFormedMap(current) && IsDiff(at.active, current, 2, [e])
    ensures RunsTo(c, FRESH, more, Polled(c, at, current, e))
  {
    var reported := at.(active := current, pending := [e]);
    RunsOn(c, FRESH, steps, at, Snapshot(current, [e], 2));
    RunsOn(c, FRESH, steps + [Snapshot(current, [e], 2)], reported, Submit);
    assert Do(c, reported, Submit) == Polled(c, at, current, e);
    more := steps + [Snapshot(current, [e], 2)] + [Submit];
  }

  lemma DiffOpens(f: Feature, active: map<string, Feature>)
    requires WellFormed(f) && active.Keys <= {f.connectionId}
    ensures IsDiff(active, map[f.connectionId := f], 2, [Opened(f)]) && WellFormedMap(map[f.connectionId := f])
  {
    assert IdOf([Opened(f)][0]) == f.connectionId;
  }

  lemma DiffCloses(f: Feature)
    requires WellFormed(f)
    ensures IsDiff(map[f.connectionId := f], map[], 2, [Gone(f)])
  {
    assert IdOf([Gone(f)][0]) == f.connectionId;
  }

  // The same connection, polled n times while the writer does not get to run.
  function Stalled(f: Feature, n: nat): Pipe {
    FRESH.(active := if n == 0 then map[] else map[f.connectionId := f],
           queue := Copies(Opened(f), n), submitted := Copies(Opened(f), n))
  }

  lemma {:induction false} StallFor(c: Config, f: Feature, n: nat) returns (steps: seq<Step>)
    requires WellFormed(f) && n <= c.capacity
    ensures RunsTo(c, FRESH, steps, Stalled(f, n))
  {
    if n == 0 {
      FreshRuns(c);
      steps := [];
      assert Stalled(f, 0) == FRESH;
    } else {
      var before := StallFor(c, f, n - 1);
      DiffOpens(f, Stalled(f, n - 1).active);
      steps := PollOne(c, before, Stalled(f, n - 1), map[f.connectionId := f], Opened(f));
      assert Copies(Opened(f), n - 1) + [Opened(f)] == Copies(Opened(f), n);
    }
  }

  lemma DrainsOne(e: Event)
    ensures IsDrain(map[IdOf(e) := e], [e])
  {
    assert IdOf([e][0]) == IdOf(e);
  }

  lemma OneMoreKey(e: Event)
    ensures var none: map<string, Event> := map[]; none[IdOf(e) := e] == map[IdOf(e) := e] != none
  {
    assert IdOf(e) in map[IdOf(e) := e];
  }

  // Storing events that end in an observation leaves the connection open.
  lemma LastOpens(db: Db, events: seq<Event>, f: Feature, now: int)
    requires ForeignKeys(db) && AllSound(events) && events != [] && WellFormed(f) && events[|events| - 1] == Opened(f)
    ensures ForeignKeys(Stored(db, events, now)) && f.connectionId in OpenPairs(Stored(db, events, now))
  {
    SoundAcceptable(events);
    StoredKeepsForeignKeys(db, events, now);
    assert Effects(OpenPairs(db), events) == Effect(Effects(OpenPairs(db), events[..|events| - 1]), Opened(f));
  }

  // ---- the newest event overflows ahead of what waits ----

  // A drained state in which f is open for the store alone.
  ghost predicate LeftOpen(s: Pipe, f: Feature) {
    && !s.failed && s.pending == [] && s.queue == [] && s.batch == [] && s.overflow == map[]
    && s.active == map[] && f.connectionId in OpenPairs(s.db)
  }

  // Waiting: nothing but copies of an observation, and the close already stored.
  ghost predicate Waiting(s: Pipe, f: Feature, n: nat) {
    && s.queue == Copies(Opened(f), n) && s.batch == [] && s.overflow == map[] && s.pending == []
    && s.phase.Serving? && !s.failed && s.active == map[] && ForeignKeys(s.db)
    && (n == 0 ==> f.connectionId in OpenPairs(s.db))
  }

  lemma TakeOne(c: Config, steps: seq<Step>, at: Pipe, f: Feature, n: nat) returns (more: seq<Step>, end: Pipe)
    requires WellFormed(f) && c.batchSize > 0 && RunsTo(c, FRESH, steps, at) && Waiting(at, f, n + 1)
    ensures RunsTo(c, FRESH, more, end) && Waiting(end, f, n) && f.connectionId in OpenPairs(end.db)
  {
    var e := Opened(f);
    var taken := at.(queue := Copies(e, n), batch := [e]);
    RunsOn(c, FRESH, steps, at, Receive);
    assert Copies(e, n + 1)[1..] == Copies(e, n) && [] + [e] == [e];
    assert Do(c, at, Receive) == taken;
    LastOpens(at.db, [e], f, 4);
    assert [e] + [] == [e];
    StoresOne(e);
    RunsOn(c, FRESH, steps + [Receive], taken, Flush([], 4));
    more, end := steps + [Receive] + [Flush([], 4)], Do(c, taken, Flush([], 4));
  }

  lemma StoresOne(e: Event)
    requires Acceptable(e) && IdOf(e) != ""
    ensures AllAcceptable(Coalesced([e]))
  {
    CoalescedEffects(map[], [e]);
  }

  lemma {:induction false} TakeAll(c: Config, steps: seq<Step>, at: Pipe, f: Feature, n: nat) returns (more: seq<Step>, end: Pipe)
    requires WellFormed(f) && c.batchSize > 0 && RunsTo(c, FRESH, steps, at) && Waiting(at, f, n)
    ensures RunsTo(c, FRESH, more, end) && Waiting(end, f, 0)
    decreases n
  {
    if n == 0 {
      more, end := steps, at;
    } else {
      var one, next := TakeOne(c, steps, at, f, n - 1);
      more, end := TakeAll(c, one, next, f, n - 1);
    }
  }

  lemma CloseOvertakes(c: Config, f: Feature) returns (steps: seq<Step>, at: Pipe)
    requires WellFormed(f) && c.capacity > 0
    ensures RunsTo(c, FRESH, steps, at) && Waiting(at, f, c.capacity)
  {
    var close := Gone(f);
    var stalled := StallFor(c, f, c.capacity);
    DiffCloses(f);
    var polled := PollOne(c, stalled, Stalled(f, c.capacity), map[], close);
    OneMoreKey(close);
    var over := Polled(c, Stalled(f, c.capacity), map[], close);
    DrainsOne(close);
    StoresOne(close);
    assert over.batch + [close] == [close];
    RunsOn(c, FRESH, polled, over, Flush([close], 3));
    SoundAcceptable([close]);
    StoredKeepsForeignKeys(EMPTY_DB, [close], 3);
    steps, at := polled + [Flush([close], 3)], Do(c, over, Flush([close], 3));
  }

  // Any connection, any capacity, any batch size: observations of it wait in a full
  // channel, its close overflows and is flushed first, and once the rest is flushed too
  // the store keeps the connection open.
  lemma OverflowReordersEvents(f: Feature, c: Config)
    requires WellFormed(f) && c.capacity > 0 && c.batchSize > 0
    ensures Start(FRESH)
    ensures exists steps ::
      && Legal(c, FRESH, steps) && LeftOpen(Pipeline.Run(c, FRESH, steps), f) && Pipeline.Run(c, FRESH, steps).phase.Serving?
      && Misordered(c, FRESH, steps, f.connectionId)
  {
    FreshStarts();
    var overtaken, at := CloseOvertakes(c, f);
    var steps, end := TakeAll(c, overtaken, at, f, c.capacity);
    RunsToIsRun(c, FRESH, steps, end);
    LeftOpenIsMisordered(c, steps, f);
  }

  lemma LeftOpenIsMisordered(c: Config, steps: seq<Step>, f: Feature)
    requires Legal(c, FRESH, steps) && LeftOpen(Pipeline.Run(c, FRESH, steps), f)
    ensures Misordered(c, FRESH, steps, f.connectionId)
  {
    FreshStarts();
    StoreMirrorsConnectionIff(c, FRESH, steps, f.connectionId);
  }

  // ---- the overflow's event is flushed after a newer one ----

  // An observation overflowed behind a full channel, a place got free, and the close went
  // into the channel.
  function Overtaking(c: Config, f: Feature): Pipe
    requires c.capacity > 0
  {
    FRESH.(queue := Copies(Opened(f), c.capacity - 1) + [Gone(f)], batch := [Opened(f)],
           overflow := map[f.connectionId := Opened(f)], overflowed := {f.connectionId},
           submitted := Copies(Opened(f), c.capacity) + [Opened(f)] + [Gone(f)])
  }

  lemma ObservationOverflows(c: Config, f: Feature) returns (steps: seq<Step>)
    requires WellFormed(f) && c.capacity > 0 && c.batchSize > 0
    ensures RunsTo(c, FRESH, steps, Overtaking(c, f))
  {
    var open, n := Opened(f), c.capacity;
    var stalled := StallFor(c, f, n);
    DiffOpens(f, Stalled(f, n).active);
    var polled := PollOne(c, stalled, Stalled(f, n), map[f.connectionId := f], open);
    OneMoreKey(open);
    var over := Polled(c, Stalled(f, n), map[f.connectionId := f], open);
    RunsOn(c, FRESH, polled, over, Receive);
    var room := over.(queue := Copies(open, n - 1), batch := [open]);
    assert Copies(open, n)[1..] == Copies(open, n - 1) && over.batch + [open] == [open];
    assert Do(c, over, Receive) == room;
    DiffCloses(f);
    steps := PollOne(c, polled + [Receive], room, map[], Gone(f));
    assert Polled(c, room, map[], Gone(f)) == Overtaking(c, f);
  }

  lemma OvertakingSound(c: Config, f: Feature)
    requires WellFormed(f) && c.capacity > 0
    ensures var s := Overtaking(c, f); AllSound(s.batch + s.queue + [Opened(f)]) && IsDrain(s.overflow, [Opened(f)])
  {
    DrainsOne(Opened(f));
  }

  // The last flush, when the observation of the overflow comes after everything else.
  lemma LastFlushOpens(c: Config, s: Pipe, step: Step, f: Feature)
    requires WellFormed(f) && s.queue == []
    requires (step == Shutdown([Opened(f)], 3) && s.phase.Closing?) || (step == Flush([Opened(f)], 3) && s.phase.Serving?)
    requires !s.failed && s.pending == [] && s.active == map[] && s.db == EMPTY_DB
    requires AllSound(s.batch + [Opened(f)]) && IsDrain(s.overflow, [Opened(f)])
    ensures Enabled(c, s, step) && LeftOpen(Do(c, s, step), f)
  {
    var events := s.batch + [Opened(f)];
    SoundAcceptable(events);
    CoalescedEffects(map[], events);
    LastOpens(EMPTY_DB, events, f, 3);
  }

  lemma {:induction false} ReceiveAll(c: Config, steps: seq<Step>, at: Pipe) returns (more: seq<Step>)
    requires RunsTo(c, FRESH, steps, at)
    requires at.phase.Stopping? || (at.phase.Serving? && |at.batch| + |at.queue| <= c.batchSize)
    ensures RunsTo(c, FRESH, more, at.(batch := at.batch + at.queue, queue := []))
    decreases |at.queue|
  {
    if at.queue == [] {
      more := steps;
      assert at.batch + at.queue == at.batch;
    } else {
      RunsOn(c, FRESH, steps, at, Receive);
      var next := at.(queue := at.queue[1..], batch := at.batch + [at.queue[0]]);
      more := ReceiveAll(c, steps + [Receive], next);
      assert next.batch + next.queue == at.batch + at.queue;
    }
  }

  // Any connection, any capacity, any batch size: the shutdown flush stores the newer
  // close before the observation that overflowed earlier.
  lemma ShutdownReordersEvents(f: Feature, c: Config)
    requires WellFormed(f) && c.capacity > 0 && c.batchSize > 0
    ensures exists steps ::
      Legal(c, FRESH, steps) && LeftOpen(Pipeline.Run(c, FRESH, steps), f) && Misordered(c, FRESH, steps, f.connectionId)
  {
    var s := Overtaking(c, f);
    var before := ObservationOverflows(c, f);
    RunsOn(c, FRESH, before, s, Stop);
    var received := ReceiveAll(c, before + [Stop], s.(phase := Stopping));
    var full := s.(batch := s.batch + s.queue, queue := [], phase := Stopping);
    RunsOn(c, FRESH, received, full, SeeEmpty);
    StoresLast(c, received + [SeeEmpty], full.(phase := Closing), Shutdown([Opened(f)], 3), f);
  }

  lemma StoresLast(c: Config, steps: seq<Step>, full: Pipe, step: Step, f: Feature)
    requires WellFormed(f) && c.capacity > 0 && RunsTo(c, FRESH, steps, full)
    requires var s := Overtaking(c, f); full == s.(batch := s.batch + s.queue, queue := [], phase := full.phase)
    requires (step == Shutdown([Opened(f)], 3) && full.phase.Closing?) || (step == Flush([Opened(f)], 3) && full.phase.Serving?)
    ensures Legal(c, FRESH, steps + [step]) && LeftOpen(Pipeline.Run(c, FRESH, steps + [step]), f)
    ensures Misordered(c, FRESH, steps + [step], f.connectionId)
    ensures Pipeline.Run(c, FRESH, steps + [step]).phase == if step.Shutdown? then Ended else Serving
  {
    OvertakingSound(c, f);
    LastFlushOpens(c, full, step, f);
    RunsOn(c, FRESH, steps, full, step);
    RunsToIsRun(c, FRESH, steps + [step], Do(c, full, step));
    LeftOpenIsMisordered(c, steps + [step], f);
  }

  // With batches longer than the channel, which the configuration refuses, an ordinary
  // flush can do the same.
  lemma LongBatchReordersEvents(f: Feature, c: Config)
    requires WellFormed(f) && 0 < c.capacity < c.batchSize
    ensures exists steps ::
      && Legal(c, FRESH, steps) && LeftOpen(Pipeline.Run(c, FRESH, steps), f) && Pipeline.Run(c, FRESH, steps).phase.Serving?
      && Misordered(c, FRESH, steps, f.connectionId)
  {
    var s := Overtaking(c, f);
    var before := ObservationOverflows(c, f);
    var received := ReceiveAll(c, before, s);
    StoresLast(c, received, s.(batch := s.batch + s.queue, queue := []), Flush([Opened(f)], 3), f);
  }
}
