// What the derived columns are worth: exact formulas for one batch and invariants of
// every run of batches, topology refreshes and startup cleanups.
module RuntimeInvariants {
  import opened Wrappers
  import opened Telemetry
  import opened Runtime

  // ---- counting open samples ----

  lemma MoveOut(samples: map<string, Sample>, c: string, s: Sample, d: FlowKey)
    requires c in samples && samples[c].flow == d && (s.flow != d || s.closedAt.Some?)
    ensures |OpenSamples(samples[c := s], d)| == |OpenSamples(samples, d)| - if samples[c].closedAt.None? then 1 else 0
  {
    assert OpenSamples(samples[c := s], d) == OpenSamples(samples, d) - {c};
  }

  lemma Unrelated(samples: map<string, Sample>, c: string, s: Sample, d: FlowKey)
    requires s.flow != d && (c in samples ==> samples[c].flow != d)
    ensures OpenSamples(samples[c := s], d) == OpenSamples(samples, d)
  {
  }

  lemma {:induction false} Fewer(small: set<string>, big: set<string>)
    requires small <= big
    ensures |small| <= |big|
  {
    if small != {} {
      var x :| x in small;
      Fewer(small - {x}, big - {x});
    }
  }

  // ---- one batch ----

  // The latest event of the batch that moved a sample away from d, and whether that
  // sample was open at that moment.
  function LastExit(db: Db, events: seq<Event>, now: int, d: FlowKey): Option<bool> {
    if events == [] then None
    else
      var front, e := events[..|events| - 1], events[|events| - 1];
      var before := Steps(db, front, now);
      if e.kind.Observed? && IdOf(e) in before.samples && before.samples[IdOf(e)].flow == d && KeyOf(e.feature) != d
      then Some(before.samples[IdOf(e)].closedAt.None?)
      else LastExit(db, front, now, d)
  }

  ghost predicate RowConsistent(f: Flow) {
    && (f.active <==> f.count > 0)
    && (f.inactiveAt.None? <==> f.active)
  }

  // A row no event of the batch put on the reconcile list: either untouched, or left at
  // the count taken just before its last sample moved away.
  ghost predicate Trails(db: Db, cur: Db, d: FlowKey, exit: Option<bool>) {
    && (d in cur.flows <==> d in db.flows)
    && (d in cur.flows ==>
          match exit
          case None => cur.flows[d] == db.flows[d] && OpenSamples(cur.samples, d) == OpenSamples(db.samples, d)
          case Some(wasOpen) =>
            && RowConsistent(cur.flows[d])
            && cur.flows[d].count == OpenCount(cur, d) + (if wasOpen then 1 else 0)
            && cur.flows[d].count <= OpenCount(db, d))
    && OpenSamples(cur.samples, d) <= OpenSamples(db.samples, d)
  }

  // What observing a feature of another device-application does to d.
  lemma ObserveElsewhere(db: Db, f: Feature, now: int, d: FlowKey)
    requires KeyOf(f) != d
    ensures var after := Observe(db, f, now);
      && (d in after.flows <==> d in db.flows)
      && if f.connectionId in db.samples && db.samples[f.connectionId].flow == d then
           && (d in db.flows ==> after.flows[d] == RecountedFlow(db.samples, d, EventTime(f, now)))
           && OpenSamples(after.samples, d) == OpenSamples(db.samples, d) - {f.connectionId}
         else
           && (d in db.flows ==> after.flows[d] == db.flows[d])
           && OpenSamples(after.samples, d) == OpenSamples(db.samples, d)
  {
  }

  lemma TrailsObserve(db: Db, before: Db, f: Feature, now: int, d: FlowKey, exit: Option<bool>)
    requires Trails(db, before, d, exit) && KeyOf(f) != d
    ensures Trails(db, Observe(before, f, now), d,
      if f.connectionId in before.samples && before.samples[f.connectionId].flow == d
      then Some(before.samples[f.connectionId].closedAt.None?) else exit)
  {
    ObserveElsewhere(before, f, now, d);
    if f.connectionId in before.samples && before.samples[f.connectionId].flow == d {
      MoveOut(before.samples, f.connectionId, Sample(KeyOf(f), None), d);
      Fewer(OpenSamples(before.samples, d), OpenSamples(db.samples, d));
    }
  }

  lemma TrailsClose(db: Db, before: Db, f: Feature, now: int, d: FlowKey, exit: Option<bool>)
    requires Trails(db, before, d, exit)
    requires Closes(before, f) ==> before.samples[f.connectionId].flow != d
    ensures Trails(db, Close(before, f, now), d, exit)
  {
    var after := Close(before, f, now);
    if after != before {
      Unrelated(before.samples, f.connectionId, after.samples[f.connectionId], d);
    }
  }

  lemma {:induction false} UnaffectedTrails(db: Db, events: seq<Event>, now: int, d: FlowKey)
    requires d !in Affected(db, events, now)
    ensures Trails(db, Steps(db, events, now), d, LastExit(db, events, now, d))
  {
    if events != [] {
      var front, e := events[..|events| - 1], events[|events| - 1];
      UnaffectedTrails(db, front, now, d);
      var before, exit := Steps(db, front, now), LastExit(db, front, now, d);
      match e.kind {
        case Observed => TrailsObserve(db, before, e.feature, now, d, exit);
        case Closed => TrailsClose(db, before, e.feature, now, d, exit);
        case Unsupported =>
      }
    }
  }

  // Every row the batch touches is known to it.
  lemma {:induction false} AffectedRowsExist(db: Db, events: seq<Event>, now: int)
    ensures db.flows.Keys <= Steps(db, events, now).flows.Keys
    ensures Affected(db, events, now) <= Steps(db, events, now).flows.Keys
    ensures Steps(db, events, now).flows.Keys <= db.flows.Keys + Affected(db, events, now)
  {
    if events != [] {
      AffectedRowsExist(db, events[..|events| - 1], now);
    }
  }

  // By how much active_connections exceeds the open samples after a batch: a reconciled
  // row is exact, an unaffected one keeps its excess unless samples left it, and then
  // the excess is one exactly when the last to leave was still open.
  lemma ExcessAfterBatch(db: Db, events: seq<Event>, now: int, d: FlowKey)
    requires d in ApplyBatch(db, events, now).flows
    ensures d in Affected(db, events, now) || d in db.flows
    ensures var after := ApplyBatch(db, events, now);
            after.flows[d].count - OpenCount(after, d) ==
            if d in Affected(db, events, now) then 0
            else match LastExit(db, events, now, d)
                 case None => db.flows[d].count - OpenCount(db, d)
                 case Some(wasOpen) => if wasOpen then 1 else 0
  {
    AffectedRowsExist(db, events, now);
    if d !in Affected(db, events, now) {
      UnaffectedTrails(db, events, now, d);
    }
  }

  // ---- invariants of every commit ----

  // Foreign keys of the schema.
  ghost predicate ForeignKeys(db: Db) {
    && (forall c :: c in db.samples ==> db.samples[c].flow in db.flows)
    && (forall d :: d in db.flows ==> d.device in db.devices && d.app in db.apps)
  }

  ghost predicate RowsConsistent(db: Db) {
    forall d :: d in db.flows ==> RowConsistent(db.flows[d])
  }

  // The count never misses an open sample and never invents more than one.
  ghost predicate NearlyExact(db: Db) {
    forall d :: d in db.flows ==> OpenCount(db, d) <= db.flows[d].count <= OpenCount(db, d) + 1
  }

  ghost predicate Exact(db: Db) {
    forall d :: d in db.flows ==> db.flows[d].count == OpenCount(db, d)
  }

  ghost predicate DeviceLive(db: Db, d: FlowKey) {
    d.device in db.devices && db.devices[d.device].state == Active
  }

  ghost predicate AppLive(db: Db, d: FlowKey) {
    d.app in db.apps && db.apps[d.app].active
  }

  // A device-application with connections has a live device and a live application.
  ghost predicate OwnersLive(db: Db) {
    forall d :: d in db.flows && db.flows[d].count > 0 ==> DeviceLive(db, d) && AppLive(db, d)
  }

  // No application is active without an active device-application.
  ghost predicate AppsJustified(db: Db) {
    forall a :: a in db.apps && db.apps[a].active ==> HasActiveFlow(db.flows, a)
  }

  ghost predicate Invariant(db: Db) {
    ForeignKeys(db) && RowsConsistent(db) && NearlyExact(db) && OwnersLive(db)
  }

  // ---- batches keep them ----

  lemma {:induction false} StepsKeepForeignKeys(db: Db, events: seq<Event>, now: int)
    requires ForeignKeys(db)
    ensures ForeignKeys(Steps(db, events, now))
  {
    if events != [] {
      StepsKeepForeignKeys(db, events[..|events| - 1], now);
    }
  }

  ghost predicate OpenSamplesLive(db: Db) {
    forall c :: c in db.samples && db.samples[c].closedAt.None? ==> DeviceLive(db, db.samples[c].flow)
  }

  lemma StepKeepsOwners(db: Db, e: Event, now: int)
    requires OpenSamplesLive(db)
    ensures OpenSamplesLive(Step(db, e, now))
    ensures forall d :: DeviceLive(db, d) ==> DeviceLive(Step(db, e, now), d)
    ensures forall d :: AppLive(db, d) ==> AppLive(Step(db, e, now), d)
  {
    var after := Step(db, e, now);
    if e.kind.Observed? {
      var f := e.feature;
      assert after.samples == db.samples[f.connectionId := Sample(KeyOf(f), None)];
      assert after.devices == db.devices[f.sourceIP := Device(Active, EventTime(f, now))];
      assert after.apps == db.apps[f.host := Application(true)];
    }
  }

  // Liveness of owners only grows while events are applied, and every open sample has a
  // live device throughout.
  lemma {:induction false} StepsKeepOwners(db: Db, events: seq<Event>, now: int)
    requires OpenSamplesLive(db)
    ensures OpenSamplesLive(Steps(db, events, now))
    ensures forall d :: DeviceLive(db, d) ==> DeviceLive(Steps(db, events, now), d)
    ensures forall d :: AppLive(db, d) ==> AppLive(Steps(db, events, now), d)
  {
    if events != [] {
      StepsKeepOwners(db, events[..|events| - 1], now);
      StepKeepsOwners(Steps(db, events[..|events| - 1], now), events[|events| - 1], now);
    }
  }

  lemma OpenHasMember(db: Db, d: FlowKey) returns (c: string)
    requires OpenCount(db, d) > 0
    ensures c in db.samples && db.samples[c] == Sample(d, None)
  {
    c :| c in OpenSamples(db.samples, d);
  }

  lemma OpenDevicesLive(db: Db)
    requires Invariant(db)
    ensures OpenSamplesLive(db)
  {
    forall c | c in db.samples && db.samples[c].closedAt.None?
      ensures DeviceLive(db, db.samples[c].flow)
    {
      assert c in OpenSamples(db.samples, db.samples[c].flow);
    }
  }

  lemma BatchKeepsRow(db: Db, events: seq<Event>, now: int, d: FlowKey)
    requires Invariant(db)
    requires d in ApplyBatch(db, events, now).flows
    ensures var after := ApplyBatch(db, events, now);
      && RowConsistent(after.flows[d])
      && OpenCount(after, d) <= after.flows[d].count <= OpenCount(after, d) + 1
      && (after.flows[d].count > 0 ==> DeviceLive(after, d) && AppLive(after, d))
  {
    var steps, after := Steps(db, events, now), ApplyBatch(db, events, now);
    AffectedRowsExist(db, events, now);
    StepsKeepForeignKeys(db, events, now);
    OpenDevicesLive(db);
    StepsKeepOwners(db, events, now);
    if d in Affected(db, events, now) {
      if OpenCount(steps, d) > 0 {
        var c := OpenHasMember(steps, d);
        assert DeviceLive(steps, d);
        assert d.app in AppsOf(Affected(db, events, now));
        assert after.flows[d].active;
      }
    } else {
      UnaffectedTrails(db, events, now, d);
      if after.flows[d].count > 0 {
        assert db.flows[d].count > 0;
        assert AppLive(steps, d);
        assert after.flows[d].active;
      }
    }
  }

  lemma BatchKeepsInvariant(db: Db, events: seq<Event>, now: int)
    requires Invariant(db)
    ensures Invariant(ApplyBatch(db, events, now))
  {
    var after := ApplyBatch(db, events, now);
    StepsKeepForeignKeys(db, events, now);
    forall d | d in after.flows
      ensures RowConsistent(after.flows[d])
      ensures OpenCount(after, d) <= after.flows[d].count <= OpenCount(after, d) + 1
      ensures after.flows[d].count > 0 ==> DeviceLive(after, d) && AppLive(after, d)
    {
      BatchKeepsRow(db, events, now, d);
    }
  }

  // An observation that moves an open connection to another device-application.
  predicate Migrates(db: Db, e: Event) {
    && e.kind.Observed?
    && IdOf(e) in db.samples
    && db.samples[IdOf(e)].closedAt.None?
    && db.samples[IdOf(e)].flow != KeyOf(e.feature)
  }

  predicate BatchMigrates(db: Db, events: seq<Event>, now: int) {
    events != [] &&
    (BatchMigrates(db, events[..|events| - 1], now) ||
     Migrates(Steps(db, events[..|events| - 1], now), events[|events| - 1]))
  }

  lemma {:induction false} WithoutMigration(db: Db, events: seq<Event>, now: int, d: FlowKey)
    requires !BatchMigrates(db, events, now)
    ensures LastExit(db, events, now, d) != Some(true)
    ensures d !in Affected(db, events, now) ==> OpenSamples(Steps(db, events, now).samples, d) == OpenSamples(db.samples, d)
    ensures forall a :: a !in AppsOf(Affected(db, events, now)) ==>
      (a in db.apps <==> a in Steps(db, events, now).apps) && (a in db.apps ==> Steps(db, events, now).apps[a] == db.apps[a])
  {
    if events != [] {
      var front, e := events[..|events| - 1], events[|events| - 1];
      WithoutMigration(db, front, now, d);
      var before := Steps(db, front, now);
      AppsOfGrows(Affected(db, front, now), Hits(before, e));
      if e.kind.Observed? && d != KeyOf(e.feature) {
        assert OpenSamples(before.samples[IdOf(e) := Sample(KeyOf(e.feature), None)], d) == OpenSamples(before.samples, d);
      }
    }
  }

  lemma AppsOfGrows(ds: set<FlowKey>, more: set<FlowKey>)
    ensures AppsOf(ds + more) == AppsOf(ds) + AppsOf(more)
  {
    forall a | a in AppsOf(ds) + AppsOf(more) ensures a in AppsOf(ds + more) {
      var d :| d in ds + more && d.app == a;
    }
  }

  lemma BatchKeepsExact(db: Db, events: seq<Event>, now: int)
    requires Invariant(db) && Exact(db) && !BatchMigrates(db, events, now)
    ensures Exact(ApplyBatch(db, events, now))
    ensures AppsJustified(db) ==> AppsJustified(ApplyBatch(db, events, now))
  {
    var after, ds := ApplyBatch(db, events, now), Affected(db, events, now);
    AffectedRowsExist(db, events, now);
    forall d | d in after.flows
      ensures after.flows[d].count == OpenCount(after, d)
    {
      ExcessAfterBatch(db, events, now, d);
      WithoutMigration(db, events, now, d);
    }
    if AppsJustified(db) {
      forall a | a in after.apps && after.apps[a].active ensures HasActiveFlow(after.flows, a) {
        if a !in AppsOf(ds) {
          WithoutMigration(db, events, now, FlowKey("", a, Tcp));
          var d :| d in db.flows && d.app == a && db.flows[d].active;
          WithoutMigration(db, events, now, d);
          UnaffectedTrails(db, events, now, d);
          assert d in after.flows && after.flows[d].active;
        }
      }
    }
  }
}
