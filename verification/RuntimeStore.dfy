// The telemetry store: tables changed statement by statement inside a transaction.
module RuntimeStore {
  import opened Wrappers
  import opened Telemetry
  import opened Runtime

  datatype StoreError = MissingField | UnsupportedKind

  // What one more event adds to the running results of a batch.
  lemma Extend(db: Db, events: seq<Event>, i: nat, now: int)
    requires i < |events|
    ensures var before, e := Steps(db, events[..i], now), events[i];
            && Steps(db, events[..i + 1], now) == Step(before, e, now)
            && Affected(db, events[..i + 1], now) == Affected(db, events[..i], now) + Hits(before, e)
            && TallyBatch(db, events[..i + 1], now) == TallyEvent(before, e, TallyBatch(db, events[..i], now))
    ensures AllAcceptable(events[..i + 1]) <==> AllAcceptable(events[..i]) && Acceptable(events[i])
  {
    var upTo := events[..i + 1];
    assert upTo[..i] == events[..i] && upTo[i] == events[i];
    assert forall k :: 0 <= k < i ==> events[..i][k] == upTo[k];
  }

  lemma AppsOfAdd(ds: set<FlowKey>, d: FlowKey)
    ensures AppsOf(ds + {d}) == AppsOf(ds) + {d.app}
  {
    assert forall a :: a in AppsOf(ds) ==> a in AppsOf(ds + {d});
    assert d in ds + {d};
  }

  lemma ReconcileNone(db: Db, now: int)
    ensures ReconcileFlows(db, {}, now) == db && ReconcileApps(db, {}) == db
  {
    assert ReconcileFlows(db, {}, now).flows == db.flows;
    assert ReconcileApps(db, {}).apps == db.apps;
  }

  lemma ReconcileOneMoreFlow(db: Db, ds: set<FlowKey>, d: FlowKey, now: int)
    ensures ReconcileFlow(ReconcileFlows(db, ds, now), d, now) == ReconcileFlows(db, ds + {d}, now)
  {
    assert ReconcileFlow(ReconcileFlows(db, ds, now), d, now).flows == ReconcileFlows(db, ds + {d}, now).flows;
  }

  lemma ReconcileOneMoreApp(db: Db, apps: set<string>, a: string)
    ensures ReconcileApp(ReconcileApps(db, apps), a) == ReconcileApps(db, apps + {a})
  {
    assert ReconcileApp(ReconcileApps(db, apps), a).apps == ReconcileApps(db, apps + {a}).apps;
  }

  class Store {
    var devices: map<string, Device>
    var apps: map<string, Application>
    var flows: map<FlowKey, Flow>
    var samples: map<string, Sample>

    ghost function Tables(): Db
      reads this
    {
      Db(devices, apps, flows, samples)
    }

    constructor ()
      ensures Tables() == EMPTY_DB
    {
      devices, apps, flows, samples := map[], map[], map[], map[];
    }

    // One transaction over a batch. Any refused event rolls the whole batch back.
    method ApplyFeatureEvents(events: seq<Event>, now: int) returns (r: Result<Tally, StoreError>)
      modifies this
      ensures r.Ok? <==> AllAcceptable(events)
      ensures r.Ok? ==> Tables() == ApplyBatch(old(Tables()), events, now) && r.value == TallyBatch(old(Tables()), events, now)
      ensures r.Err? ==> Tables() == old(Tables())
    {
      var devices0, apps0, flows0, samples0 := devices, apps, flows, samples;
      ghost var db0 := Tables();
      var tally := Tally(0, 0, false);
      var affectedFlows: set<FlowKey>, affectedApps: set<string> := {}, {};
      for i := 0 to |events|
        invariant AllAcceptable(events[..i])
        invariant Tables() == Steps(db0, events[..i], now)
        invariant tally == TallyBatch(db0, events[..i], now)
        invariant affectedFlows == Affected(db0, events[..i], now)
        invariant affectedApps == AppsOf(affectedFlows)
      {
        Extend(db0, events, i, now);
        var applied := ApplyEventTx(events[i], now, affectedFlows, affectedApps, tally);
        if applied.Err? {
          devices, apps, flows, samples := devices0, apps0, flows0, samples0;
          return Err(applied.error);
        }
        affectedFlows, affectedApps, tally := applied.value.0, applied.value.1, applied.value.2;
      }
      assert events[..|events|] == events;
      ReconcileAll(affectedFlows, affectedApps, now);
      r := Ok(tally);
    }

    // One event, and what it adds to the affected rows and the result.
    method ApplyEventTx(event: Event, now: int, affectedFlows: set<FlowKey>, affectedApps: set<string>, tally: Tally)
      returns (r: Result<(set<FlowKey>, set<string>, Tally), StoreError>)
      requires affectedApps == AppsOf(affectedFlows)
      modifies this
      ensures r.Ok? <==> Acceptable(event)
      ensures r.Ok? ==> Tables() == Step(old(Tables()), event, now)
      ensures r.Ok? ==> r.value.0 == affectedFlows + Hits(old(Tables()), event) && r.value.1 == AppsOf(r.value.0)
      ensures r.Ok? ==> r.value.2 == TallyEvent(old(Tables()), event, tally)
    {
      match event.kind {
        case Observed =>
          var observed := ApplyObservedFeatureTx(event.feature, now);
          if observed.Err? {
            return Err(observed.error);
          }
          var (flow, changed) := observed.value;
          AppsOfAdd(affectedFlows, flow);
          r := Ok((affectedFlows + {flow}, affectedApps + {flow.app}, Tally(tally.observed + 1, tally.closed, tally.changed || changed)));
        case Closed =>
          var found, flow, changed := CloseObservedFeatureTx(event.feature, now);
          if !found {
            return Ok((affectedFlows, affectedApps, tally));
          }
          AppsOfAdd(affectedFlows, flow);
          r := Ok((affectedFlows + {flow}, affectedApps + {flow.app}, Tally(tally.observed, tally.closed + 1, tally.changed || changed)));
        case Unsupported =>
          r := Err(UnsupportedKind);
      }
    }

    // The two loops over the affected sets; iteration order is arbitrary.
    method ReconcileAll(affectedFlows: set<FlowKey>, affectedApps: set<string>, now: int)
      modifies this
      ensures Tables() == ReconcileApps(ReconcileFlows(old(Tables()), affectedFlows, now), affectedApps)
    {
      ReconcileAllFlows(affectedFlows, now);
      ReconcileAllApps(affectedApps);
    }

    method ReconcileAllFlows(affected: set<FlowKey>, now: int)
      modifies this
      ensures Tables() == ReconcileFlows(old(Tables()), affected, now)
    {
      ghost var db := Tables();
      var todo := affected;
      ReconcileNone(db, now);
      while todo != {}
        invariant todo <= affected
        invariant Tables() == ReconcileFlows(db, affected - todo, now)
      {
        var d :| d in todo;
        ReconcileOneMoreFlow(db, affected - todo, d, now);
        ReconcileDeviceApplicationTx(d, now);
        assert affected - (todo - {d}) == (affected - todo) + {d};
        todo := todo - {d};
      }
      assert affected - todo == affected;
    }

    method ReconcileAllApps(affected: set<string>)
      modifies this
      ensures Tables() == ReconcileApps(old(Tables()), affected)
    {
      ghost var db := Tables();
      var todo := affected;
      ReconcileNone(db, 0);
      while todo != {}
        invariant todo <= affected
        invariant Tables() == ReconcileApps(db, affected - todo)
      {
        var a :| a in todo;
        ReconcileOneMoreApp(db, affected - todo, a);
        ReconcileApplicationTx(a);
        assert affected - (todo - {a}) == (affected - todo) + {a};
        todo := todo - {a};
      }
      assert affected - todo == affected;
    }

    method ApplyObservedFeatureTx(f: Feature, now: int) returns (r: Result<(FlowKey, bool), StoreError>)
      modifies this
      ensures r.Ok? <==> f.connectionId != "" && f.sourceIP != "" && f.host != ""
      ensures r.Ok? ==> Tables() == Observe(old(Tables()), f, now)
      ensures r.Ok? ==> r.value.0 == KeyOf(f)
      ensures r.Ok? ==> r.value.1 == !(f.connectionId in old(samples) && old(samples)[f.connectionId] == Sample(KeyOf(f), None))
      ensures r.Err? ==> Tables() == old(Tables())
    {
      if f.connectionId == "" || f.sourceIP == "" || f.host == "" {
        return Err(MissingField);
      }
      var at := EventTime(f, now);
      var d := KeyOf(f);
      devices := devices[f.sourceIP := Device(Active, at)];
      apps := apps[f.host := Application(true)];
      if d in flows {
        flows := flows[d := flows[d].(active := true, inactiveAt := None)];
      } else {
        flows := flows[d := Flow(true, 0, None)];
      }
      var changed := true;
      if f.connectionId in samples {
        var previous := samples[f.connectionId];
        changed := previous.closedAt.Some? || previous.flow != d;
        if previous.flow != d {
          ReconcileDeviceApplicationTx(previous.flow, at);
        }
      }
      samples := samples[f.connectionId := Sample(d, None)];
      r := Ok((d, changed));
    }

    method CloseObservedFeatureTx(f: Feature, now: int) returns (found: bool, flow: FlowKey, changed: bool)
      modifies this
      ensures Tables() == Close(old(Tables()), f, now)
      ensures found == Closes(old(Tables()), f)
      ensures found ==> flow == old(samples)[f.connectionId].flow
      ensures found ==> changed == old(samples)[f.connectionId].closedAt.None?
    {
      found, flow, changed := false, KeyOf(f), false;
      if f.connectionId == "" || f.connectionId !in samples || samples[f.connectionId].flow !in flows {
        return;
      }
      found, flow := true, samples[f.connectionId].flow;
      var closedAt := EventTime(f, now);
      if samples[f.connectionId].closedAt.None? {
        samples := samples[f.connectionId := samples[f.connectionId].(closedAt := Some(closedAt))];
        changed := true;
      }
    }

    method ReconcileDeviceApplicationTx(d: FlowKey, now: int)
      modifies this
      ensures Tables() == ReconcileFlow(old(Tables()), d, now)
    {
      var n := |OpenSamples(samples, d)|;
      if d in flows {
        flows := flows[d := Flow(n > 0, n, if n > 0 then None else Some(now))];
      }
    }

    method ReconcileApplicationTx(app: string)
      modifies this
      ensures Tables() == ReconcileApp(old(Tables()), app)
    {
      if app in apps {
        apps := apps[app := Application(HasActiveFlow(flows, app))];
      }
    }

    // Startup cleanup: every sample left open by the previous process is closed.
    method MarkOpenConnectionsInactive(closedAt: int) returns (count: nat)
      modifies this
      ensures Tables() == MarkInactive(old(Tables()), closedAt)
      ensures count == |OpenPairs(old(Tables()))|
    {
      count := |OpenPairs(Db(devices, apps, flows, samples))|;
      samples := CloseAll(samples, closedAt);
      var stale := StaleFlows(flows);
      ReconcileAll(stale, AppsOf(stale), closedAt);
    }

    // Topology refresh: upsert every discovered address, then retire the stale rest.
    method UpsertTopologyDevices(ips: seq<string>, observedAt: int) returns (changed: bool)
      modifies this
      ensures Tables() == RefreshTopology(old(Tables()), ips, observedAt)
      ensures changed <==>
        (exists i :: 0 <= i < |ips| && ips[i] != "") ||
        exists ip :: ip in old(devices) && Stale(old(Tables()), ip, observedAt)
    {
      ghost var db0 := Tables();
      changed := false;
      for i := 0 to |ips|
        invariant Tables() == db0.(devices := UpsertDevices(db0.devices, ips[..i], observedAt))
        invariant changed <==> exists k :: 0 <= k < i && ips[k] != ""
        invariant !changed ==> devices == db0.devices
      {
        assert ips[..i + 1][..i] == ips[..i];
        if ips[i] != "" {
          devices := devices[ips[i] := Device(Active, observedAt)];
          changed := true;
        }
      }
      assert ips[..|ips|] == ips;
      var db := Db(devices, apps, flows, samples);
      if exists ip :: ip in devices && Stale(db, ip, observedAt) {
        changed := true;
      }
      if changed && !(exists k :: 0 <= k < |ips| && ips[k] != "") {
        assert db == db0;
      }
      devices := RetireStale(db, observedAt).devices;
    }
  }
}
