// Runs of the telemetry store: any sequence of feature batches, topology refreshes and
// startup cleanups, and what their notifications report.
module RuntimeRuns {
  import opened Wrappers
  import opened Telemetry
  import opened Runtime
  import opened RuntimeInvariants

  datatype Action =
    | Batch(events: seq<Event>, now: int)
    | Refresh(ips: seq<string>, observedAt: int)
    | Startup(closedAt: int)

  // A refused batch is rolled back.
  function Act(db: Db, a: Action): Db {
    match a
    case Batch(events, now) => if AllAcceptable(events) then ApplyBatch(db, events, now) else db
    case Refresh(ips, at) => RefreshTopology(db, ips, at)
    case Startup(at) => MarkInactive(db, at)
  }

  function Run(db: Db, actions: seq<Action>): Db {
    if actions == [] then db else Act(Run(db, actions[..|actions| - 1]), actions[|actions| - 1])
  }

  predicate ActionMigrates(db: Db, a: Action) {
    a.Batch? && AllAcceptable(a.events) && BatchMigrates(db, a.events, a.now)
  }

  predicate RunMigrates(db: Db, actions: seq<Action>) {
    actions != [] &&
    (RunMigrates(db, actions[..|actions| - 1]) ||
     ActionMigrates(Run(db, actions[..|actions| - 1]), actions[|actions| - 1]))
  }

  // ---- topology refresh ----

  lemma {:induction false} UpsertKeepsLive(devices: map<string, Device>, ips: seq<string>, at: int)
    ensures forall ip :: ip in devices ==> ip in UpsertDevices(devices, ips, at)
    ensures forall ip :: ip in devices && devices[ip].state == Active ==> UpsertDevices(devices, ips, at)[ip].state == Active
  {
    if ips != [] {
      UpsertKeepsLive(devices, ips[..|ips| - 1], at);
    }
  }

  lemma RefreshKeepsInvariant(db: Db, ips: seq<string>, at: int)
    requires Invariant(db)
    ensures var after := RefreshTopology(db, ips, at);
      && Invariant(after)
      && after.flows == db.flows && after.samples == db.samples && after.apps == db.apps
  {
    UpsertKeepsLive(db.devices, ips, at);
    var upserted := db.(devices := UpsertDevices(db.devices, ips, at));
    var after := RefreshTopology(db, ips, at);
    forall d | d in after.flows && after.flows[d].count > 0
      ensures DeviceLive(after, d)
    {
      assert DeviceLive(db, d) && AppLive(db, d);
      assert InUse(upserted, d.device);
      assert !Stale(upserted, d.device, at);
    }
  }

  // Exactly the devices a refresh leaves inactive: those not found, not in use, and
  // either inactive already or last seen before the refresh.
  lemma RefreshRetires(db: Db, ips: seq<string>, at: int, ip: string)
    requires ip in RefreshTopology(db, ips, at).devices
    ensures RefreshTopology(db, ips, at).devices[ip].state == Inactive <==>
      (ip == "" || ip !in ips) && ip in db.devices &&
      (db.devices[ip].state == Inactive || (db.devices[ip].lastSeen < at && !InUse(db, ip)))
  {
    UpsertedRow(db.devices, ips, at, ip);
    assert InUse(db.(devices := UpsertDevices(db.devices, ips, at)), ip) <==> InUse(db, ip);
  }

  lemma {:induction false} UpsertedRow(devices: map<string, Device>, ips: seq<string>, at: int, ip: string)
    ensures var after := UpsertDevices(devices, ips, at);
      if ip != "" && ip in ips then ip in after && after[ip] == Device(Active, at)
      else (ip in after <==> ip in devices) && (ip in after ==> after[ip] == devices[ip])
  {
    if ips != [] {
      var front := ips[..|ips| - 1];
      UpsertedRow(devices, front, at, ip);
      assert ips == front + [ips[|ips| - 1]];
    }
  }

  // ---- startup cleanup ----

  // From any state whatever, the cleanup leaves every count exact (and zero), every
  // device-application inactive, and every application that had one inactive too.
  lemma StartupRestoresExact(db: Db, at: int)
    ensures var after := MarkInactive(db, at);
      && OpenPairs(after) == map[]
      && Exact(after)
      && (forall d :: d in after.flows ==> after.flows[d].count == 0 && !after.flows[d].active)
      && (forall d :: d in StaleFlows(db.flows) && d.app in after.apps ==> !after.apps[d.app].active)
      && (AppsJustified(db) ==> forall a :: a in after.apps ==> !after.apps[a].active)
  {
    var after := MarkInactive(db, at);
    forall d | d in after.flows
      ensures OpenCount(after, d) == 0 && after.flows[d].count == 0 && !after.flows[d].active
    {
      assert OpenSamples(after.samples, d) == {};
    }
    forall d | d in StaleFlows(db.flows) && d.app in after.apps ensures !after.apps[d.app].active {
      assert d.app in AppsOf(StaleFlows(db.flows));
    }
    if AppsJustified(db) {
      forall a | a in after.apps ensures !after.apps[a].active {
        if db.apps[a].active {
          var d :| d in db.flows && d.app == a && db.flows[d].active;
          assert d in StaleFlows(db.flows);
          assert a in AppsOf(StaleFlows(db.flows));
        }
      }
    }
  }

  lemma StartupKeepsInvariant(db: Db, at: int)
    requires Invariant(db)
    ensures Invariant(MarkInactive(db, at))
  {
    StartupRestoresExact(db, at);
  }

  // ---- every run ----

  lemma {:induction false} RunKeepsInvariant(db: Db, actions: seq<Action>)
    requires Invariant(db)
    ensures Invariant(Run(db, actions))
  {
    if actions != [] {
      var before, a := Run(db, actions[..|actions| - 1]), actions[|actions| - 1];
      RunKeepsInvariant(db, actions[..|actions| - 1]);
      match a {
        case Batch(events, now) => BatchKeepsInvariant(before, events, now);
        case Refresh(ips, at) => RefreshKeepsInvariant(before, ips, at);
        case Startup(at) => StartupKeepsInvariant(before, at);
      }
    }
  }

  // Counts are exact, and active applications justified, as long as no open connection
  // changes its device-application.
  lemma {:induction false} RunWithoutMigrationIsExact(db: Db, actions: seq<Action>)
    requires Invariant(db) && Exact(db) && AppsJustified(db)
    requires !RunMigrates(db, actions)
    ensures Exact(Run(db, actions)) && AppsJustified(Run(db, actions))
  {
    if actions != [] {
      var before, a := Run(db, actions[..|actions| - 1]), actions[|actions| - 1];
      RunKeepsInvariant(db, actions[..|actions| - 1]);
      RunWithoutMigrationIsExact(db, actions[..|actions| - 1]);
      match a {
        case Batch(events, now) =>
          if AllAcceptable(events) { BatchKeepsExact(before, events, now); }
        case Refresh(ips, at) => RefreshKeepsInvariant(before, ips, at);
        case Startup(at) => StartupRestoresExact(before, at);
      }
    }
  }

  // From the empty database both hold in every run.
  lemma EveryRunFromEmpty(actions: seq<Action>)
    ensures Invariant(Run(EMPTY_DB, actions))
    ensures !RunMigrates(EMPTY_DB, actions) ==> Exact(Run(EMPTY_DB, actions)) && AppsJustified(Run(EMPTY_DB, actions))
  {
    RunKeepsInvariant(EMPTY_DB, actions);
    if !RunMigrates(EMPTY_DB, actions) {
      RunWithoutMigrationIsExact(EMPTY_DB, actions);
    }
  }

  // ---- by how much a run is off ----

  // By how much a count exceeds its open samples after a run: what the last batch that
  // reconciled the row, or moved a sample away from it, left; or what was there before.
  function Excess(db: Db, actions: seq<Action>, d: FlowKey): int {
    if actions == [] then if d in db.flows then db.flows[d].count - OpenCount(db, d) else 0
    else
      var front, before := actions[..|actions| - 1], Run(db, actions[..|actions| - 1]);
      match actions[|actions| - 1]
      case Batch(events, now) =>
        if !AllAcceptable(events) then Excess(db, front, d)
        else if d in Affected(before, events, now) then 0
        else (match LastExit(before, events, now, d)
              case None => Excess(db, front, d)
              case Some(wasOpen) => if wasOpen then 1 else 0)
      case Refresh(_, _) => Excess(db, front, d)
      case Startup(_) => 0
  }

  lemma {:induction false} ExcessAfterRun(db: Db, actions: seq<Action>, d: FlowKey)
    requires d in Run(db, actions).flows
    ensures Run(db, actions).flows[d].count - OpenCount(Run(db, actions), d) == Excess(db, actions, d)
  {
    if actions != [] {
      var front, before := actions[..|actions| - 1], Run(db, actions[..|actions| - 1]);
      if d in before.flows {
        ExcessAfterRun(db, front, d);
      }
      match actions[|actions| - 1] {
        case Batch(events, now) => if AllAcceptable(events) { ExcessAfterBatch(before, events, now, d); }
        case Refresh(ips, at) =>
        case Startup(at) => StartupRestoresExact(before, at);
      }
    }
  }

  // A run leaves every count exact if and only if no row has an excess.
  lemma RunIsExactIff(db: Db, actions: seq<Action>)
    ensures Exact(Run(db, actions)) <==> forall d :: d in Run(db, actions).flows ==> Excess(db, actions, d) == 0
  {
    forall d | d in Run(db, actions).flows
      ensures Run(db, actions).flows[d].count == OpenCount(Run(db, actions), d) <==> Excess(db, actions, d) == 0
    {
      ExcessAfterRun(db, actions, d);
    }
  }

  // ---- applications left without a device-application ----

  predicate Justified(db: Db, a: string) {
    a in db.apps && db.apps[a].active ==> HasActiveFlow(db.flows, a)
  }

  // A row the batch does not reconcile is still active after it: it was and no sample left
  // it, or the last to leave was open or left another open one behind.
  predicate StaysActive(db: Db, events: seq<Event>, now: int, d: FlowKey) {
    && d in db.flows
    && match LastExit(db, events, now, d)
       case None => db.flows[d].active
       case Some(wasOpen) => wasOpen || OpenCount(Steps(db, events, now), d) > 0
  }

  // A batch leaves an application active without an active device-application exactly if
  // it does not reconcile it and none of its rows stays active.
  predicate Strands(db: Db, events: seq<Event>, now: int, a: string) {
    && a !in AppsOf(Affected(db, events, now))
    && a in db.apps && db.apps[a].active
    && forall d :: d in db.flows && d.app == a ==> !StaysActive(db, events, now, d)
  }

  lemma {:induction false} OtherAppsStay(db: Db, events: seq<Event>, now: int, a: string)
    requires a !in AppsOf(Affected(db, events, now))
    ensures a in Steps(db, events, now).apps <==> a in db.apps
    ensures a in db.apps ==> Steps(db, events, now).apps[a] == db.apps[a]
  {
    if events != [] {
      var front, e := events[..|events| - 1], events[|events| - 1];
      AppsOfGrows(Affected(db, front, now), Hits(Steps(db, front, now), e));
      OtherAppsStay(db, front, now, a);
      assert e.kind.Observed? ==> KeyOf(e.feature) in Hits(Steps(db, front, now), e);
    }
  }

  lemma UnreconciledRow(db: Db, events: seq<Event>, now: int, d: FlowKey)
    requires d !in Affected(db, events, now)
    ensures var after := ApplyBatch(db, events, now);
      (d in after.flows <==> d in db.flows) && (d in after.flows ==> (after.flows[d].active <==> StaysActive(db, events, now, d)))
  {
    AffectedRowsExist(db, events, now);
    UnaffectedTrails(db, events, now, d);
  }

  lemma JustifiedAfterBatchIff(db: Db, events: seq<Event>, now: int, a: string)
    ensures Justified(ApplyBatch(db, events, now), a) <==> !Strands(db, events, now, a)
  {
    var after, ds := ApplyBatch(db, events, now), Affected(db, events, now);
    if a !in AppsOf(ds) {
      OtherAppsStay(db, events, now, a);
      forall d: FlowKey | d.app == a
        ensures d in after.flows <==> d in db.flows
        ensures d in after.flows ==> (after.flows[d].active <==> StaysActive(db, events, now, d))
      {
        UnreconciledRow(db, events, now, d);
      }
    }
  }

  // The last batch that mattered stranded the application. A refresh does not touch it,
  // and the startup cleanup only reconciles applications that have an active row.
  predicate Stranded(db: Db, actions: seq<Action>, a: string) {
    if actions == [] then !Justified(db, a)
    else
      var front := actions[..|actions| - 1];
      match actions[|actions| - 1]
      case Batch(events, now) => if AllAcceptable(events) then Strands(Run(db, front), events, now, a) else Stranded(db, front, a)
      case Refresh(_, _) => Stranded(db, front, a)
      case Startup(_) => Stranded(db, front, a)
  }

  lemma StartupKeepsJustification(db: Db, at: int, a: string)
    requires RowsConsistent(db)
    ensures Justified(MarkInactive(db, at), a) <==> Justified(db, a)
  {
    var after, ds := MarkInactive(db, at), StaleFlows(db.flows);
    StartupRestoresExact(db, at);
    assert HasActiveFlow(db.flows, a) <==> a in AppsOf(ds) by {
      if d :| d in db.flows && d.app == a && db.flows[d].active {
        assert d in ds;
      }
    }
  }

  // In every run: an application is active without an active device-application exactly
  // if it is stranded.
  lemma {:induction false} JustifiedIff(db: Db, actions: seq<Action>, a: string)
    requires Invariant(db)
    ensures Justified(Run(db, actions), a) <==> !Stranded(db, actions, a)
  {
    if actions != [] {
      var front, before := actions[..|actions| - 1], Run(db, actions[..|actions| - 1]);
      JustifiedIff(db, front, a);
      RunKeepsInvariant(db, front);
      match actions[|actions| - 1] {
        case Batch(events, now) => JustifiedAfterBatchIff(before, events, now, a);
        case Refresh(ips, at) => RefreshKeepsInvariant(before, ips, at);
        case Startup(at) => StartupKeepsJustification(before, at, a);
      }
    }
  }

  // One observation, in a batch of its own.
  lemma ObservedAlone(db: Db, e: Event, now: int)
    requires e.kind.Observed?
    ensures var k, after := KeyOf(e.feature), ApplyBatch(db, [e], now);
      && after.samples == db.samples[IdOf(e) := Sample(k, None)]
      && after.flows.Keys == db.flows.Keys + {k}
      && after.apps.Keys == db.apps.Keys + {k.app} && after.apps[k.app].active
      && forall a :: a in db.apps && a != k.app ==> after.apps[a] == db.apps[a]
  {
    var k := KeyOf(e.feature);
    AloneReconciles(db, e, now);
    assert AppsOf({k}) == {k.app};
    ObserveTables(db, e.feature, now);
    ReconciledRow(Observe(db, e.feature, now), k, IdOf(e), now);
  }

  lemma AloneReconciles(db: Db, e: Event, now: int)
    ensures ApplyBatch(db, [e], now) == ReconcileApps(ReconcileFlows(Step(db, e, now), Hits(db, e), now), AppsOf(Hits(db, e)))
  {
    SingleEvent(db, e, now);
  }

  lemma ObserveTables(db: Db, f: Feature, now: int)
    ensures var k, after := KeyOf(f), Observe(db, f, now);
      && after.samples == db.samples[f.connectionId := Sample(k, None)]
      && after.flows.Keys == db.flows.Keys + {k} && after.apps == db.apps[k.app := Application(true)]
  {
  }

  // Reconciling a row with an open sample activates its application.
  lemma ReconciledRow(db: Db, k: FlowKey, c: string, now: int)
    requires k in db.flows && k.app in db.apps && c in db.samples && db.samples[c] == Sample(k, None)
    ensures var after := ReconcileApps(ReconcileFlows(db, {k}, now), {k.app});
      && after.samples == db.samples && after.flows.Keys == db.flows.Keys && after.apps.Keys == db.apps.Keys
      && after.apps[k.app].active && forall a :: a in db.apps && a != k.app ==> after.apps[a] == db.apps[a]
  {
    assert c in OpenSamples(db.samples, k);
    assert ReconcileFlows(db, {k}, now).flows[k].active;
  }

  // One close, in a batch of its own, that leaves another connection open.
  lemma ClosedAlone(db: Db, e: Event, now: int, other: string)
    requires e.kind.Closed? && Closes(db, e.feature) && db.samples[IdOf(e)].closedAt.None?
    requires other in db.samples && other != IdOf(e) && db.samples[other] == Sample(db.samples[IdOf(e)].flow, None)
    requires db.samples[IdOf(e)].flow.app in db.apps
    ensures var k, after := db.samples[IdOf(e)].flow, ApplyBatch(db, [e], now);
      && after.samples == db.samples[IdOf(e) := Sample(k, Some(EventTime(e.feature, now)))]
      && after.flows.Keys == db.flows.Keys && after.apps.Keys == db.apps.Keys && after.apps[k.app].active
  {
    var k := db.samples[IdOf(e)].flow;
    AloneReconciles(db, e, now);
    assert AppsOf({k}) == {k.app};
    ReconciledRow(Close(db, e.feature, now), k, other, now);
  }

  // Re-observing a closed connection elsewhere recounts its old row; if that row was the
  // last of its application and no connection of it is open, the application is stranded.
  lemma RecountStrands(db: Db, e: Event, a: FlowKey, now: int)
    requires e.kind.Observed? && KeyOf(e.feature).app != a.app
    requires IdOf(e) in db.samples && db.samples[IdOf(e)].flow == a && OpenSamples(db.samples, a) == {}
    requires a in db.flows && (forall d :: d in db.flows && d.app == a.app ==> d == a)
    requires a.app in db.apps && db.apps[a.app].active
    ensures !Justified(ApplyBatch(db, [e], now), a.app)
  {
    var after := ApplyBatch(db, [e], now);
    ObservedAlone(db, e, now);
    SingleEvent(db, e, now);
    ObserveElsewhere(db, e.feature, now, a);
    assert !after.flows[a].active;
    forall d | d in after.flows && d.app == a.app ensures d == a {
    }
  }

  // Two connections of one device-application, of which nothing else is known.
  ghost predicate Pair(db: Db, first: string, second: string, s: Sample, t: Sample, flows: set<FlowKey>, app: string) {
    db.samples == map[first := s, second := t] && db.flows.Keys == flows && app in db.apps && db.apps[app].active
  }

  lemma OpensTwo(first: Feature, second: Feature)
    requires first.connectionId != second.connectionId && KeyOf(first) == KeyOf(second)
    ensures var a := KeyOf(first);
      Pair(ApplyBatch(ApplyBatch(EMPTY_DB, [Event(Observed, first)], 1), [Event(Observed, second)], 2),
           first.connectionId, second.connectionId, Sample(a, None), Sample(a, None), {a}, a.app)
  {
    ObservedAlone(EMPTY_DB, Event(Observed, first), 1);
    ObservedAlone(ApplyBatch(EMPTY_DB, [Event(Observed, first)], 1), Event(Observed, second), 2);
  }

  lemma ClosesOne(db: Db, first: string, second: Feature, a: FlowKey)
    requires first != second.connectionId && second.connectionId != ""
    requires Pair(db, first, second.connectionId, Sample(a, None), Sample(a, None), {a}, a.app)
    ensures Pair(ApplyBatch(db, [Event(Closed, second)], 3), first, second.connectionId,
                 Sample(a, None), Sample(a, Some(EventTime(second, 3))), {a}, a.app)
  {
    ClosedAlone(db, Event(Closed, second), 3, first);
  }

  lemma MovesOther(db: Db, first: Feature, second: string, a: FlowKey, closedAt: int)
    requires first.connectionId != second && KeyOf(first).app != a.app
    requires Pair(db, first.connectionId, second, Sample(a, None), Sample(a, Some(closedAt)), {a}, a.app)
    ensures Pair(ApplyBatch(db, [Event(Observed, first)], 4), first.connectionId, second,
                 Sample(KeyOf(first), None), Sample(a, Some(closedAt)), {a, KeyOf(first)}, a.app)
  {
    ObservedAlone(db, Event(Observed, first), 4);
    assert ({a} + {KeyOf(first)}) == {a, KeyOf(first)};
    MoveFirst(first.connectionId, second, Sample(a, None), Sample(a, Some(closedAt)), Sample(KeyOf(first), None));
  }

  lemma MoveFirst(first: string, second: string, s: Sample, t: Sample, moved: Sample)
    requires first != second
    ensures (map[first := s, second := t])[first := moved] == map[first := moved, second := t]
  {
  }

  lemma RecountsClosed(db: Db, first: string, second: Feature, a: FlowKey, b: FlowKey, closedAt: int)
    requires first != second.connectionId && KeyOf(second) == b && b.app != a.app
    requires Pair(db, first, second.connectionId, Sample(b, None), Sample(a, Some(closedAt)), {a, b}, a.app)
    ensures !Justified(ApplyBatch(db, [Event(Observed, second)], 5), a.app)
  {
    assert OpenSamples(db.samples, a) == {};
    assert db.samples[second.connectionId].flow == a;
    RecountStrands(db, Event(Observed, second), a, 5);
  }

  // The actions lead from the empty database to db.
  ghost predicate LeadsTo(actions: seq<Action>, db: Db) {
    forall xs {:trigger Named(xs)} :: xs == actions ==> Run(EMPTY_DB, xs) == db
  }

  lemma LeadsFurther(actions: seq<Action>, db: Db, e: Event, now: int) returns (more: seq<Action>)
    requires LeadsTo(actions, db) && Acceptable(e)
    ensures LeadsTo(more, ApplyBatch(db, [e], now))
  {
    more := actions + [Batch([e], now)];
    assert Named(actions);
    assert more[..|actions|] == actions && AllAcceptable([e]);
    assert Run(EMPTY_DB, more) == ApplyBatch(db, [e], now);
  }

  // Such a run exists: of two connections of one device-application one is closed and the
  // other moves elsewhere, leaving a count without a connection; then the closed one is
  // observed elsewhere too. The application stays active although nothing of it is, and
  // the startup cleanup does not repair it.
  lemma MigrationStrandsApplication(first: Feature, second: Feature, host: string, at: int) returns (actions: seq<Action>)
    requires Acceptable(Event(Observed, first)) && Acceptable(Event(Observed, second)) && host != "" && host != first.host
    requires first.connectionId != second.connectionId && KeyOf(first) == KeyOf(second)
    ensures !Justified(Run(EMPTY_DB, actions), first.host)
    ensures !Justified(Run(EMPTY_DB, actions + [Startup(at)]), first.host)
  {
    var db;
    actions, db := StrandingRun(first, second, host);
    assert Named(actions);
    CleanupKeepsStranded(actions, first.host, at);
  }

  lemma StrandingRun(first: Feature, second: Feature, host: string) returns (actions: seq<Action>, db: Db)
    requires Acceptable(Event(Observed, first)) && Acceptable(Event(Observed, second)) && host != "" && host != first.host
    requires first.connectionId != second.connectionId && KeyOf(first) == KeyOf(second)
    ensures LeadsTo(actions, db) && !Justified(db, first.host)
  {
    assert LeadsTo([], EMPTY_DB) by {
      assert Run(EMPTY_DB, []) == EMPTY_DB;
    }
    var one := LeadsFurther([], EMPTY_DB, Event(Observed, first), 1);
    var db1 := ApplyBatch(EMPTY_DB, [Event(Observed, first)], 1);
    var two := LeadsFurther(one, db1, Event(Observed, second), 2);
    var db2 := ApplyBatch(db1, [Event(Observed, second)], 2);
    var three := LeadsFurther(two, db2, Event(Closed, second), 3);
    var db3 := ApplyBatch(db2, [Event(Closed, second)], 3);
    var four := LeadsFurther(three, db3, Event(Observed, first.(host := host)), 4);
    var db4 := ApplyBatch(db3, [Event(Observed, first.(host := host))], 4);
    actions := LeadsFurther(four, db4, Event(Observed, second.(host := host)), 5);
    db := ApplyBatch(db4, [Event(Observed, second.(host := host))], 5);
    StrandedTables(first, second, host);
  }

  lemma CleanupKeepsStranded(actions: seq<Action>, app: string, at: int)
    ensures Justified(Run(EMPTY_DB, actions + [Startup(at)]), app) <==> Justified(Run(EMPTY_DB, actions), app)
  {
    RunKeepsInvariant(EMPTY_DB, actions);
    assert (actions + [Startup(at)])[..|actions|] == actions;
    StartupKeepsJustification(Run(EMPTY_DB, actions), at, app);
  }

  lemma StrandedTables(first: Feature, second: Feature, host: string)
    requires first.connectionId != second.connectionId && second.connectionId != "" && KeyOf(first) == KeyOf(second) && host != first.host
    ensures var two := ApplyBatch(ApplyBatch(EMPTY_DB, [Event(Observed, first)], 1), [Event(Observed, second)], 2);
      var four := ApplyBatch(ApplyBatch(two, [Event(Closed, second)], 3), [Event(Observed, first.(host := host))], 4);
      !Justified(ApplyBatch(four, [Event(Observed, second.(host := host))], 5), first.host)
  {
    var a, b := KeyOf(first), KeyOf(first.(host := host));
    var two := ApplyBatch(ApplyBatch(EMPTY_DB, [Event(Observed, first)], 1), [Event(Observed, second)], 2);
    var three := ApplyBatch(two, [Event(Closed, second)], 3);
    OpensTwo(first, second);
    ClosesOne(two, first.connectionId, second, a);
    MovesOther(three, first.(host := host), second.connectionId, a, EventTime(second, 3));
    RecountsClosed(ApplyBatch(three, [Event(Observed, first.(host := host))], 4), first.connectionId, second.(host := host), a, b,
                   EventTime(second, 3));
  }

  // The equality does fail with migration: one connection observed for host a and then,
  // still open, for host b leaves a active with one connection that does not exist.
  lemma MigrationLeavesGhostConnection()
    ensures var a, b := FlowKey("10.0.0.2", "a.test", Tcp), FlowKey("10.0.0.2", "b.test", Tcp);
      var first := Event(Observed, Feature("c", a.device, a.app, Tcp, Some(1)));
      var second := Event(Observed, Feature("c", b.device, b.app, Tcp, Some(2)));
      var after := Run(EMPTY_DB, [Batch([first], 1), Batch([second], 2)]);
      && a in after.flows && after.flows[a].active && after.flows[a].count == 1
      && OpenCount(after, a) == 0
  {
    var a, b := FlowKey("10.0.0.2", "a.test", Tcp), FlowKey("10.0.0.2", "b.test", Tcp);
    var first := Event(Observed, Feature("c", a.device, a.app, Tcp, Some(1)));
    var second := Event(Observed, Feature("c", b.device, b.app, Tcp, Some(2)));
    var actions := [Batch([first], 1), Batch([second], 2)];
    var one := ApplyBatch(EMPTY_DB, [first], 1);
    SingleEvent(EMPTY_DB, first, 1);
    assert one.samples == map["c" := Sample(a, None)];
    assert OpenSamples(one.samples, a) == {"c"};
    assert a in one.flows && one.flows[a] == Flow(true, 1, None);
    MigrationStep(one, second, a, 2);
    assert actions[..1] == [Batch([first], 1)] && actions[..1][..0] == [];
    assert Run(EMPTY_DB, actions[..1]) == one;
    assert Run(EMPTY_DB, actions) == ApplyBatch(one, [second], 2);
  }

  // Re-observing the only open connection of a elsewhere leaves the count of a at one.
  lemma MigrationStep(db: Db, e: Event, a: FlowKey, now: int)
    requires Acceptable(e) && e.kind.Observed? && KeyOf(e.feature) != a
    requires a in db.flows && OpenSamples(db.samples, a) == {IdOf(e)}
    ensures var after := ApplyBatch(db, [e], now);
      && a in after.flows && after.flows[a].active && after.flows[a].count == 1
      && OpenCount(after, a) == 0
  {
    SingleEvent(db, e, now);
    assert IdOf(e) in OpenSamples(db.samples, a);
    ObserveElsewhere(db, e.feature, now, a);
    assert OpenSamples(Observe(db, e.feature, now).samples, a) == {};
  }

  lemma SingleEvent(db: Db, e: Event, now: int)
    ensures Steps(db, [e], now) == Step(db, e, now)
    ensures Affected(db, [e], now) == Hits(db, e)
  {
    assert [e][..0] == [];
  }

  // ---- notifications ----

  predicate DistinctIds(events: seq<Event>) {
    forall i, j :: 0 <= i < j < |events| ==> IdOf(events[i]) != IdOf(events[j])
  }

  lemma {:induction false} SampleOfOther(db: Db, events: seq<Event>, now: int, c: string)
    requires forall i :: 0 <= i < |events| ==> IdOf(events[i]) != c
    ensures var after := Steps(db, events, now);
      (c in after.samples <==> c in db.samples) && (c in after.samples ==> after.samples[c] == db.samples[c])
  {
    if events != [] {
      SampleOfOther(db, events[..|events| - 1], now, c);
    }
  }

  // Reconciling touches no sample.
  lemma BatchOpensSteps(db: Db, events: seq<Event>, now: int)
    ensures OpenPairs(ApplyBatch(db, events, now)) == OpenPairs(Steps(db, events, now))
  {
  }

  // Some event of the batch, applied after those before it, changed the open pairs.
  predicate SomeEventChanges(db: Db, events: seq<Event>, now: int) {
    events != [] &&
    (SomeEventChanges(db, events[..|events| - 1], now) ||
     OpenPairs(Steps(db, events, now)) != OpenPairs(Steps(db, events[..|events| - 1], now)))
  }

  // For every batch, the change flag is raised exactly when some event of it changed the
  // set of open pairs.
  lemma {:induction false} ChangedIffSomeEventChanges(db: Db, events: seq<Event>, now: int)
    requires ForeignKeys(db) && AllAcceptable(events)
    ensures TallyBatch(db, events, now).changed <==> SomeEventChanges(db, events, now)
  {
    if events != [] {
      var front, e := events[..|events| - 1], events[|events| - 1];
      var before := Steps(db, front, now);
      ChangedIffSomeEventChanges(db, front, now);
      StepsKeepForeignKeys(db, front, now);
      OneEventChanges(before, e, now);
      DifferSomewhere(OpenPairs(Steps(db, events, now)), OpenPairs(before));
      assert TallyBatch(db, events, now) == TallyEvent(before, e, TallyBatch(db, front, now));
    }
  }

  // So no net change is ever missed, whatever the batch.
  lemma {:induction false} NoChangeIsMissed(db: Db, events: seq<Event>, now: int)
    requires ForeignKeys(db) && AllAcceptable(events)
    ensures OpenPairs(ApplyBatch(db, events, now)) != OpenPairs(db) ==> TallyBatch(db, events, now).changed
  {
    BatchOpensSteps(db, events, now);
    if events != [] {
      var front := events[..|events| - 1];
      NoChangeIsMissed(db, front, now);
      BatchOpensSteps(db, front, now);
      ChangedIffSomeEventChanges(db, front, now);
      ChangedIffSomeEventChanges(db, events, now);
    }
  }

  // With one event per connection no change is undone within the batch, and the flag is
  // raised exactly on a net change.
  lemma {:induction false} ChangedIffPairsChange(db: Db, events: seq<Event>, now: int)
    requires ForeignKeys(db) && DistinctIds(events) && AllAcceptable(events)
    ensures TallyBatch(db, events, now).changed <==> OpenPairs(ApplyBatch(db, events, now)) != OpenPairs(db)
  {
    BatchOpensSteps(db, events, now);
    if events != [] {
      var front, e := events[..|events| - 1], events[|events| - 1];
      ChangedIffPairsChange(db, front, now);
      BatchOpensSteps(db, front, now);
      StepsKeepForeignKeys(db, front, now);
      SampleOfOther(db, front, now, IdOf(e));
      OneEventChanges(Steps(db, front, now), e, now);
      NetDifference(OpenPairs(db), OpenPairs(Steps(db, front, now)), OpenPairs(Steps(db, events, now)), IdOf(e));
      assert TallyBatch(db, events, now) == TallyEvent(Steps(db, front, now), e, TallyBatch(db, front, now));
    }
  }

  function Find(m: map<string, FlowKey>, c: string): Option<FlowKey> {
    if c in m then Some(m[c]) else None
  }

  predicate Differ(m: map<string, FlowKey>, n: map<string, FlowKey>, c: string) {
    Find(m, c) != Find(n, c)
  }

  lemma DifferSomewhere(m: map<string, FlowKey>, n: map<string, FlowKey>)
    ensures m != n <==> exists c :: Differ(m, n, c)
  {
    if forall c :: !Differ(m, n, c) {
      forall c ensures Find(m, c) == Find(n, c) {
        assert !Differ(m, n, c);
      }
      assert forall c :: (c in m <==> Find(m, c).Some?) && (c in n <==> Find(n, c).Some?);
      assert m.Keys == n.Keys;
      forall c | c in m ensures m[c] == n[c] {
        assert Find(m, c) == Find(n, c);
      }
    }
  }

  // Changing key c only, where nothing had changed yet, cannot undo an earlier change.
  lemma NetDifference(base: map<string, FlowKey>, before: map<string, FlowKey>, after: map<string, FlowKey>, c: string)
    requires !Differ(before, base, c)
    requires forall x :: x != c ==> !Differ(after, before, x)
    ensures after != base <==> before != base || Differ(after, before, c)
  {
    DifferSomewhere(before, base);
    DifferSomewhere(after, base);
    if before != base {
      var x :| Differ(before, base, x);
      assert !Differ(after, before, x);
      assert Differ(after, base, x);
    }
  }

  // One event touches the pair of its own connection only.
  lemma OneEventChanges(db: Db, e: Event, now: int)
    requires ForeignKeys(db) && Acceptable(e)
    ensures forall c :: c != IdOf(e) ==> !Differ(OpenPairs(Step(db, e, now)), OpenPairs(db), c)
    ensures TallyEvent(db, e, Tally(0, 0, false)).changed <==> Differ(OpenPairs(Step(db, e, now)), OpenPairs(db), IdOf(e))
  {
  }

  // With a repeated connection the flag may be raised although the pairs are unchanged.
  lemma RepeatedConnectionOverReports()
    ensures var f := Feature("c", "10.0.0.2", "a.test", Tcp, Some(1));
      var events := [Event(Observed, f), Event(Closed, f)];
      TallyBatch(EMPTY_DB, events, 1).changed && OpenPairs(ApplyBatch(EMPTY_DB, events, 1)) == OpenPairs(EMPTY_DB)
  {
    var f := Feature("c", "10.0.0.2", "a.test", Tcp, Some(1));
    var events := [Event(Observed, f), Event(Closed, f)];
    SingleEvent(EMPTY_DB, events[0], 1);
    assert events[..1] == [events[0]];
    assert [events[0]][..0] == [];
    var one := Steps(EMPTY_DB, events[..1], 1);
    assert one.samples["c"] == Sample(KeyOf(f), None);
    assert KeyOf(f) in one.flows;
    var two := Steps(EMPTY_DB, events, 1);
    assert two == Step(one, events[1], 1);
    assert OpenPairs(two) == map[];
    assert TallyBatch(EMPTY_DB, events[..1], 1) == TallyEvent(EMPTY_DB, events[0], Tally(0, 0, false));
  }
}
