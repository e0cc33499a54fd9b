// The relational tables behind the telemetry store and the effect of every transaction
// on them, as functions over table values. The class in RuntimeStore.dfy is verified
// against these functions; RuntimeInvariants.dfy proves what every run keeps.
module Runtime {
  import opened Wrappers
  import opened Telemetry

  datatype ResourceState = Active | Inactive | UnknownState

  datatype Device = Device(state: ResourceState, lastSeen: int)

  datatype Application = Application(active: bool)

  // activeConnections, state and inactive_at are derived from the samples.
  datatype Flow = Flow(active: bool, count: nat, inactiveAt: Option<int>)

  datatype Sample = Sample(flow: FlowKey, closedAt: Option<int>)

  datatype Db = Db(
    devices: map<string, Device>,
    apps: map<string, Application>,
    flows: map<FlowKey, Flow>,
    samples: map<string, Sample>)

  datatype Tally = Tally(observed: nat, closed: nat, changed: bool)

  const EMPTY_DB := Db(map[], map[], map[], map[])

  function OpenSamples(samples: map<string, Sample>, d: FlowKey): set<string> {
    set c | c in samples && samples[c].flow == d && samples[c].closedAt.None?
  }

  function OpenCount(db: Db, d: FlowKey): nat {
    |OpenSamples(db.samples, d)|
  }

  // The open (connection, device-application) pairs: the single source of truth.
  function OpenPairs(db: Db): map<string, FlowKey> {
    map c | c in db.samples && db.samples[c].closedAt.None? :: db.samples[c].flow
  }

  function EventTime(f: Feature, fallback: int): int {
    if f.observedAt.Some? then f.observedAt.value else fallback
  }

  // ---- the two reconcile statements ----

  function RecountedFlow(samples: map<string, Sample>, d: FlowKey, now: int): Flow {
    var n := |OpenSamples(samples, d)|;
    Flow(n > 0, n, if n > 0 then None else Some(now))
  }

  function ReconcileFlow(db: Db, d: FlowKey, now: int): Db {
    if d in db.flows then db.(flows := db.flows[d := RecountedFlow(db.samples, d, now)]) else db
  }

  predicate HasActiveFlow(flows: map<FlowKey, Flow>, app: string) {
    exists d :: d in flows && d.app == app && flows[d].active
  }

  function ReconcileApp(db: Db, app: string): Db {
    if app in db.apps then db.(apps := db.apps[app := Application(HasActiveFlow(db.flows, app))]) else db
  }

  // All rows of a set at once: what iterating over the set leaves in any order.
  function ReconcileFlows(db: Db, ds: set<FlowKey>, now: int): Db {
    db.(flows := map d | d in db.flows :: if d in ds then RecountedFlow(db.samples, d, now) else db.flows[d])
  }

  function ReconcileApps(db: Db, apps: set<string>): Db {
    db.(apps := map a | a in db.apps :: if a in apps then Application(HasActiveFlow(db.flows, a)) else db.apps[a])
  }

  // ---- observing and closing one connection ----

  function TouchFlow(flows: map<FlowKey, Flow>, d: FlowKey): map<FlowKey, Flow> {
    flows[d := if d in flows then flows[d].(active := true, inactiveAt := None) else Flow(true, 0, None)]
  }

  // The upserts of device, application and device-application.
  function Touch(db: Db, f: Feature, at: int): Db {
    db.(devices := db.devices[f.sourceIP := Device(Active, at)],
        apps := db.apps[f.host := Application(true)],
        flows := TouchFlow(db.flows, KeyOf(f)))
  }

  // The previous device-application is reconciled while the sample still points at it.
  function Observe(db: Db, f: Feature, now: int): Db {
    var at := EventTime(f, now);
    var touched := Touch(db, f, at);
    var settled :=
      if f.connectionId in db.samples && db.samples[f.connectionId].flow != KeyOf(f)
      then ReconcileFlow(touched, db.samples[f.connectionId].flow, at)
      else touched;
    settled.(samples := settled.samples[f.connectionId := Sample(KeyOf(f), None)])
  }

  predicate Closes(db: Db, f: Feature) {
    f.connectionId != "" && f.connectionId in db.samples && db.samples[f.connectionId].flow in db.flows
  }

  function Close(db: Db, f: Feature, now: int): Db {
    if Closes(db, f) && db.samples[f.connectionId].closedAt.None? then
      db.(samples := db.samples[f.connectionId := db.samples[f.connectionId].(closedAt := Some(EventTime(f, now)))])
    else
      db
  }

  function Step(db: Db, e: Event, now: int): Db {
    match e.kind
    case Observed => Observe(db, e.feature, now)
    case Closed => Close(db, e.feature, now)
    case Unsupported => db
  }

  // ---- a batch: all events, then one reconcile per affected row ----

  function Steps(db: Db, events: seq<Event>, now: int): Db {
    if events == [] then db
    else Step(Steps(db, events[..|events| - 1], now), events[|events| - 1], now)
  }

  // The device-applications one event puts on the reconcile list.
  function Hits(db: Db, e: Event): set<FlowKey> {
    match e.kind
    case Observed => {KeyOf(e.feature)}
    case Closed => if Closes(db, e.feature) then {db.samples[IdOf(e)].flow} else {}
    case Unsupported => {}
  }

  function Affected(db: Db, events: seq<Event>, now: int): set<FlowKey> {
    if events == [] then {}
    else
      var front := events[..|events| - 1];
      Affected(db, front, now) + Hits(Steps(db, front, now), events[|events| - 1])
  }

  function AppsOf(ds: set<FlowKey>): set<string> {
    set d | d in ds :: d.app
  }

  function ApplyBatch(db: Db, events: seq<Event>, now: int): Db {
    var ds := Affected(db, events, now);
    ReconcileApps(ReconcileFlows(Steps(db, events, now), ds, now), AppsOf(ds))
  }

  function TallyEvent(db: Db, e: Event, t: Tally): Tally {
    match e.kind
    case Observed =>
      var same := IdOf(e) in db.samples && db.samples[IdOf(e)] == Sample(KeyOf(e.feature), None);
      Tally(t.observed + 1, t.closed, t.changed || !same)
    case Closed =>
      if Closes(db, e.feature)
      then Tally(t.observed, t.closed + 1, t.changed || db.samples[IdOf(e)].closedAt.None?)
      else t
    case Unsupported => t
  }

  function TallyBatch(db: Db, events: seq<Event>, now: int): Tally {
    if events == [] then Tally(0, 0, false)
    else
      var front := events[..|events| - 1];
      TallyEvent(Steps(db, front, now), events[|events| - 1], TallyBatch(db, front, now))
  }

  // ---- startup cleanup ----

  function CloseAll(samples: map<string, Sample>, at: int): map<string, Sample> {
    map c | c in samples :: if samples[c].closedAt.None? then samples[c].(closedAt := Some(at)) else samples[c]
  }

  function StaleFlows(flows: map<FlowKey, Flow>): set<FlowKey> {
    set d | d in flows && (flows[d].count > 0 || flows[d].active)
  }

  function MarkInactive(db: Db, at: int): Db {
    var closed := db.(samples := CloseAll(db.samples, at));
    var ds := StaleFlows(db.flows);
    ReconcileApps(ReconcileFlows(closed, ds, at), AppsOf(ds))
  }

  // ---- topology refresh ----

  predicate InUse(db: Db, device: string) {
    exists d :: d in db.flows && d.device == device && db.flows[d].count > 0
  }

  function UpsertDevices(devices: map<string, Device>, ips: seq<string>, at: int): map<string, Device> {
    if ips == [] then devices
    else
      var front := UpsertDevices(devices, ips[..|ips| - 1], at);
      if ips[|ips| - 1] == "" then front else front[ips[|ips| - 1] := Device(Active, at)]
  }

  predicate Stale(db: Db, ip: string, at: int)
    requires ip in db.devices
  {
    db.devices[ip].state != Inactive && db.devices[ip].lastSeen < at && !InUse(db, ip)
  }

  function RetireStale(db: Db, at: int): Db {
    db.(devices := map ip | ip in db.devices ::
          if Stale(db, ip, at) then db.devices[ip].(state := Inactive) else db.devices[ip])
  }

  function RefreshTopology(db: Db, ips: seq<string>, at: int): Db {
    RetireStale(db.(devices := UpsertDevices(db.devices, ips, at)), at)
  }
}
