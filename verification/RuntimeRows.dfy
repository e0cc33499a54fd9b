// The rows a batch, a refresh and the startup cleanup leave, one by one, in terms of the
// events.
module RuntimeRows {
  import opened Wrappers
  import opened Telemetry
  import opened Runtime
  import opened RuntimeInvariants
  import opened RuntimeRuns

  // The time of an event: its own, or else the time of the store call.
  function TimeOf(e: Event, now: int): int {
    match e.feature.observedAt
    case Some(at) => at
    case None => now
  }

  // ---- samples ----

  ghost predicate LastObserves(events: seq<Event>, c: string, i: int) {
    && 0 <= i < |events| && events[i].kind == Observed && events[i].feature.connectionId == c
    && forall j :: i < j < |events| && events[j].kind == Observed ==> events[j].feature.connectionId != c
  }

  ghost predicate NeverObserves(events: seq<Event>, c: string) {
    forall i :: 0 <= i < |events| && events[i].kind == Observed ==> events[i].feature.connectionId != c
  }

  // The first close of c from position i on.
  ghost predicate FirstCloses(events: seq<Event>, c: string, i: int, j: int) {
    && 0 <= i <= j < |events| && events[j].kind == Closed && events[j].feature.connectionId == c
    && forall k :: i <= k < j && events[k].kind == Closed ==> events[k].feature.connectionId != c
  }

  ghost predicate NeverCloses(events: seq<Event>, c: string, i: int) {
    forall j :: 0 <= i <= j < |events| && events[j].kind == Closed ==> events[j].feature.connectionId != c
  }

  function FlowOf(f: Feature): FlowKey {
    FlowKey(f.sourceIP, f.host, f.network)
  }

  // What is known of a connection's sample after the events: it belongs to the flow of the
  // last observation and is open until the first close after that; without an observation
  // it is the sample there was, closed by the first close if it was open.
  ghost predicate SampleSays(db: Db, events: seq<Event>, now: int, c: string, sample: Option<Sample>) {
    if NeverObserves(events, c) then
      if c in db.samples && db.samples[c].closedAt.None? && !NeverCloses(events, c, 0) then
        exists j :: FirstCloses(events, c, 0, j) && sample == Some(Sample(db.samples[c].flow, Some(TimeOf(events[j], now))))
      else sample == if c in db.samples then Some(db.samples[c]) else None
    else
      exists i :: LastObserves(events, c, i) &&
        if NeverCloses(events, c, i) then sample == Some(Sample(FlowOf(events[i].feature), None))
        else exists j :: FirstCloses(events, c, i, j) && sample == Some(Sample(FlowOf(events[i].feature), Some(TimeOf(events[j], now))))
  }

  function SampleOf(db: Db, c: string): Option<Sample> {
    if c in db.samples then Some(db.samples[c]) else None
  }

  lemma {:induction false} SampleAfterBatch(db: Db, events: seq<Event>, now: int, c: string)
    requires ForeignKeys(db) && AllAcceptable(events) && c != ""
    ensures SampleSays(db, events, now, c, SampleOf(ApplyBatch(db, events, now), c))
  {
    SampleAfterSteps(db, events, now, c);
    assert Named(events);
  }

  ghost predicate Said(db: Db, events: seq<Event>, now: int, c: string, sample: Option<Sample>) {
    forall xs {:trigger Named(xs)} :: xs == events ==> SampleSays(db, xs, now, c, sample)
  }

  lemma {:induction false} SampleAfterSteps(db: Db, events: seq<Event>, now: int, c: string)
    requires ForeignKeys(db) && AllAcceptable(events) && c != ""
    ensures Said(db, events, now, c, SampleOf(Steps(db, events, now), c))
  {
    if events == [] {
      NothingSays(db, now, c);
    } else {
      var front, e := events[..|events| - 1], events[|events| - 1];
      assert forall i :: 0 <= i < |front| ==> front[i] == events[i];
      SampleAfterSteps(db, front, now, c);
      StepsKeepForeignKeys(db, front, now);
      SampleAfterOneMore(db, front, e, now, c, Steps(db, front, now));
      assert events == front + [e];
    }
  }

  lemma NothingSays(db: Db, now: int, c: string)
    ensures Said(db, [], now, c, SampleOf(db, c))
  {
    assert SampleSays(db, [], now, c, SampleOf(db, c));
  }

  lemma SampleAfterOneMore(db: Db, front: seq<Event>, e: Event, now: int, c: string, before: Db)
    requires ForeignKeys(before) && Acceptable(e) && c != ""
    requires Said(db, front, now, c, SampleOf(before, c))
    ensures Said(db, front + [e], now, c, SampleOf(Step(before, e, now), c))
  {
    assert Named(front);
    SampleAfterStep(before, e, now, c);
    OneMoreEvent(db, front, e, now, c, SampleOf(before, c));
  }

  lemma OneMoreEvent(db: Db, front: seq<Event>, e: Event, now: int, c: string, sample: Option<Sample>)
    requires SampleSays(db, front, now, c, sample) && Acceptable(e)
    ensures SampleSays(db, front + [e], now, c, if e.feature.connectionId == c then AfterEvent(sample, e, now) else sample)
  {
    if e.feature.connectionId != c {
      OtherEventSays(db, front, e, now, c, sample);
    } else if e.kind == Observed {
      ObservedSays(db, front, e, now, c);
    } else {
      ClosedSays(db, front, e, now, c, sample);
    }
  }

  // What one event does to the sample.
  function AfterEvent(sample: Option<Sample>, e: Event, now: int): Option<Sample> {
    if e.kind == Observed then Some(Sample(FlowOf(e.feature), None))
    else if sample.Some? && sample.value.closedAt.None? then Some(sample.value.(closedAt := Some(TimeOf(e, now))))
    else sample
  }

  lemma SampleAfterStep(db: Db, e: Event, now: int, c: string)
    requires ForeignKeys(db) && Acceptable(e) && c != ""
    ensures SampleOf(Step(db, e, now), c) ==
      if e.feature.connectionId == c then AfterEvent(SampleOf(db, c), e, now) else SampleOf(db, c)
  {
  }

  lemma OtherEventSays(db: Db, front: seq<Event>, e: Event, now: int, c: string, sample: Option<Sample>)
    requires SampleSays(db, front, now, c, sample) && e.feature.connectionId != c
    ensures SampleSays(db, front + [e], now, c, sample)
  {
    var events := front + [e];
    assert forall i :: 0 <= i < |front| ==> events[i] == front[i];
    assert NeverObserves(events, c) <==> NeverObserves(front, c);
    assert forall i :: 0 <= i <= |front| ==> (NeverCloses(events, c, i) <==> NeverCloses(front, c, i));
    assert forall i, j :: FirstCloses(front, c, i, j) && 0 <= i ==> FirstCloses(events, c, i, j);
    assert forall i :: LastObserves(front, c, i) ==> LastObserves(events, c, i);
  }

  lemma ObservedSays(db: Db, front: seq<Event>, e: Event, now: int, c: string)
    requires e.kind == Observed && e.feature.connectionId == c
    ensures SampleSays(db, front + [e], now, c, Some(Sample(FlowOf(e.feature), None)))
  {
    var events, n := front + [e], |front|;
    assert LastObserves(events, c, n) && NeverCloses(events, c, n);
  }

  lemma ClosedSays(db: Db, front: seq<Event>, e: Event, now: int, c: string, sample: Option<Sample>)
    requires SampleSays(db, front, now, c, sample) && e.kind == Closed && e.feature.connectionId == c
    ensures SampleSays(db, front + [e], now, c, AfterEvent(sample, e, now))
  {
    var events, n := front + [e], |front|;
    assert forall i :: 0 <= i < |front| ==> events[i] == front[i];
    assert NeverObserves(events, c) <==> NeverObserves(front, c);
    assert forall i, j :: FirstCloses(front, c, i, j) && 0 <= i ==> FirstCloses(events, c, i, j);
    assert forall i :: LastObserves(front, c, i) ==> LastObserves(events, c, i);
    assert forall i :: 0 <= i <= n ==> !NeverCloses(events, c, i) by {
      assert events[n] == e;
    }
    forall i | 0 <= i <= n && NeverCloses(front, c, i) ensures FirstCloses(events, c, i, n) {
    }
  }

  // ---- device-applications ----

  // A row the batch puts on its list says what the samples say.
  lemma ReconciledRowSays(db: Db, events: seq<Event>, now: int, d: FlowKey)
    requires d in Affected(db, events, now) && d in ApplyBatch(db, events, now).flows
    ensures var after := ApplyBatch(db, events, now);
      after.flows[d] == RowOf(after.samples, d, now)
  {
    var after := ApplyBatch(db, events, now);
    assert OpenSamples(after.samples, d) == set c | c in after.samples && after.samples[c] == Sample(d, None);
  }

  // Event i takes a known connection away from d.
  ghost predicate Leaves(db: Db, events: seq<Event>, now: int, d: FlowKey, i: int) {
    && 0 <= i < |events| && events[i].kind == Observed && FlowOf(events[i].feature) != d
    && var known := SampleOf(Steps(db, events[..i], now), events[i].feature.connectionId);
       known.Some? && known.value.flow == d
  }

  ghost predicate LastLeaves(db: Db, events: seq<Event>, now: int, d: FlowKey, i: int) {
    Leaves(db, events, now, d, i) && forall j :: i < j < |events| ==> !Leaves(db, events, now, d, j)
  }

  // What the samples say of a row, at some time.
  ghost function RowOf(samples: map<string, Sample>, d: FlowKey, at: int): Flow {
    var n := |set c | c in samples && samples[c] == Sample(d, None)|;
    if n > 0 then Flow(true, n, None) else Flow(false, 0, Some(at))
  }

  ghost predicate RowSays(db: Db, events: seq<Event>, now: int, d: FlowKey, row: Flow)
    requires d in db.flows
  {
    && ((forall i :: !Leaves(db, events, now, d, i)) ==> row == db.flows[d])
    && forall i :: LastLeaves(db, events, now, d, i) ==>
         row == RowOf(Steps(db, events[..i], now).samples, d, TimeOf(events[i], now))
  }

  // A row the batch does not list is as it was, or says what the samples said just before
  // the last connection to leave it did, at the time of that event.
  lemma UnlistedRowSays(db: Db, events: seq<Event>, now: int, d: FlowKey)
    requires d in db.flows && d !in Affected(db, events, now)
    ensures d in ApplyBatch(db, events, now).flows && RowSays(db, events, now, d, ApplyBatch(db, events, now).flows[d])
  {
    UnlistedSteps(db, events, now, d);
  }

  lemma {:induction false} UnlistedSteps(db: Db, events: seq<Event>, now: int, d: FlowKey)
    requires d in db.flows && d !in Affected(db, events, now)
    ensures d in Steps(db, events, now).flows && RowSays(db, events, now, d, Steps(db, events, now).flows[d])
  {
    if events != [] {
      var n := |events| - 1;
      var front := events[..n];
      UnlistedSteps(db, front, now, d);
      forall i | 0 <= i < n ensures Leaves(db, front, now, d, i) <==> Leaves(db, events, now, d, i) {
        assert front[..i] == events[..i];
      }
      UnlistedStep(Steps(db, front, now), events[n], now, d);
      if Leaves(db, events, now, d, n) {
        assert forall i :: LastLeaves(db, events, now, d, i) ==> i == n;
      } else {
        forall i | LastLeaves(db, events, now, d, i) ensures LastLeaves(db, front, now, d, i) && front[..i] == events[..i] {
        }
        assert (forall i :: !Leaves(db, events, now, d, i)) ==> forall i :: !Leaves(db, front, now, d, i);
      }
    }
  }

  lemma UnlistedStep(db: Db, e: Event, now: int, d: FlowKey)
    requires d in db.flows && d !in Hits(db, e)
    ensures d in Step(db, e, now).flows
    ensures var known := SampleOf(db, e.feature.connectionId);
      Step(db, e, now).flows[d] ==
        if e.kind == Observed && known.Some? && known.value.flow == d then RowOf(db.samples, d, TimeOf(e, now)) else db.flows[d]
  {
    assert OpenSamples(db.samples, d) == set c | c in db.samples && db.samples[c] == Sample(d, None);
  }

  // A batch lists exactly the flows it observes and the flows of the known samples it
  // closes.
  ghost predicate Lists(db: Db, events: seq<Event>, now: int, d: FlowKey) {
    exists i :: ListsAt(db, events, now, d, i)
  }

  ghost predicate ListsAt(db: Db, events: seq<Event>, now: int, d: FlowKey, i: int) {
    && 0 <= i < |events|
    && (events[i].kind == Observed ==> FlowOf(events[i].feature) == d)
    && (events[i].kind == Closed ==>
          var known := SampleOf(Steps(db, events[..i], now), events[i].feature.connectionId);
          events[i].feature.connectionId != "" && known.Some? && known.value.flow == d)
    && events[i].kind != Unsupported
  }

  lemma {:induction false} AffectedSays(db: Db, events: seq<Event>, now: int, d: FlowKey)
    requires ForeignKeys(db)
    ensures d in Affected(db, events, now) <==> Lists(db, events, now, d)
  {
    if events != [] {
      var n := |events| - 1;
      var front := events[..n];
      AffectedSays(db, front, now, d);
      StepsKeepForeignKeys(db, front, now);
      assert d in Hits(Steps(db, front, now), events[n]) <==> ListsAt(db, events, now, d, n);
      forall i | 0 <= i < n ensures ListsAt(db, front, now, d, i) <==> ListsAt(db, events, now, d, i) {
        assert front[..i] == events[..i];
      }
      if i :| ListsAt(db, front, now, d, i) {
        assert ListsAt(db, events, now, d, i);
      }
      if i :| ListsAt(db, events, now, d, i) {
        assert i < n ==> ListsAt(db, front, now, d, i);
      }
    }
  }

  // ---- devices ----

  ghost predicate LastSees(events: seq<Event>, ip: string, i: int) {
    && 0 <= i < |events| && events[i].kind == Observed && events[i].feature.sourceIP == ip
    && forall j :: i < j < |events| && events[j].kind == Observed ==> events[j].feature.sourceIP != ip
  }

  // A batch makes exactly the devices it observes active, last seen at their last
  // observation; it leaves the others alone.
  lemma {:induction false} DevicesAfterBatch(db: Db, events: seq<Event>, now: int, ip: string)
    ensures var after := ApplyBatch(db, events, now).devices;
      && (forall i :: LastSees(events, ip, i) ==> ip in after && after[ip] == Device(Active, TimeOf(events[i], now)))
      && ((forall i :: 0 <= i < |events| && events[i].kind == Observed ==> events[i].feature.sourceIP != ip) ==>
            (ip in after <==> ip in db.devices) && (ip in after ==> after[ip] == db.devices[ip]))
  {
    DevicesAfterSteps(db, events, now, ip);
  }

  lemma {:induction false} DevicesAfterSteps(db: Db, events: seq<Event>, now: int, ip: string)
    ensures var after := Steps(db, events, now).devices;
      && (forall i :: LastSees(events, ip, i) ==> ip in after && after[ip] == Device(Active, TimeOf(events[i], now)))
      && ((forall i :: 0 <= i < |events| && events[i].kind == Observed ==> events[i].feature.sourceIP != ip) ==>
            (ip in after <==> ip in db.devices) && (ip in after ==> after[ip] == db.devices[ip]))
  {
    if events != [] {
      var front, e := events[..|events| - 1], events[|events| - 1];
      assert forall i :: 0 <= i < |front| ==> front[i] == events[i];
      DevicesAfterSteps(db, front, now, ip);
      StepDevices(Steps(db, front, now), e, now);
      assert forall i :: LastSees(events, ip, i) && i < |front| ==> LastSees(front, ip, i);
    }
  }

  lemma StepDevices(db: Db, e: Event, now: int)
    ensures Step(db, e, now).devices ==
      if e.kind == Observed then db.devices[e.feature.sourceIP := Device(Active, TimeOf(e, now))] else db.devices
  {
  }

  // A refresh: found devices are active and seen now; of the others exactly those that were
  // last seen earlier and carry no connections become inactive.
  lemma DevicesAfterRefresh(db: Db, ips: seq<string>, at: int, ip: string)
    ensures var after := RefreshTopology(db, ips, at).devices;
      && (ip in after <==> ip in db.devices || (ip != "" && ip in ips))
      && (ip != "" && ip in ips ==>
            after[ip] == Device(Active, at))
      && (ip in db.devices && (ip == "" || ip !in ips) ==>
            after[ip] == db.devices[ip].(state :=
              if db.devices[ip].lastSeen < at && !(exists d :: d in db.flows && d.device == ip && db.flows[d].count > 0) then Inactive
              else db.devices[ip].state))
  {
    UpsertedRow(db.devices, ips, at, ip);
    assert InUse(db.(devices := UpsertDevices(db.devices, ips, at)), ip) <==>
      exists d :: d in db.flows && d.device == ip && db.flows[d].count > 0;
  }

  // ---- applications ----

  // After a batch an application it lists is active exactly if one of its rows is; any
  // other is as it was.
  lemma AppsAfterBatch(db: Db, events: seq<Event>, now: int, a: string)
    ensures var after := ApplyBatch(db, events, now);
      if exists d :: d in Affected(db, events, now) && d.app == a then
        a in after.apps ==> (after.apps[a].active <==> exists d :: d in after.flows && d.app == a && after.flows[d].active)
      else (a in after.apps <==> a in db.apps) && (a in db.apps ==> after.apps[a] == db.apps[a])
  {
    if exists d :: d in Affected(db, events, now) && d.app == a {
      assert a in AppsOf(Affected(db, events, now));
    } else {
      OtherAppsStay(db, events, now, a);
    }
  }

  // ---- the startup cleanup ----

  lemma SamplesAfterStartup(db: Db, at: int, c: string)
    ensures SampleOf(MarkInactive(db, at), c) ==
      if c in db.samples && db.samples[c].closedAt.None? then Some(Sample(db.samples[c].flow, Some(at))) else SampleOf(db, c)
  {
  }

  // Rows that were active or had a count become inactive now; the others stay.
  lemma RowsAfterStartup(db: Db, at: int, d: FlowKey)
    requires d in db.flows
    ensures d in MarkInactive(db, at).flows
    ensures MarkInactive(db, at).flows[d] ==
      if db.flows[d].active || db.flows[d].count != 0 then Flow(false, 0, Some(at)) else db.flows[d]
  {
    assert OpenSamples(CloseAll(db.samples, at), d) == {};
  }

  // ---- the result of a batch ----

  // A batch is refused for an event of another kind and for an observation without its
  // texts; a close is never refused.
  lemma AcceptableIff(events: seq<Event>)
    ensures !AllAcceptable(events) <==> exists i :: 0 <= i < |events| && Refuses(events[i])
  {
    forall i | 0 <= i < |events| ensures Acceptable(events[i]) <==> !Refuses(events[i]) {
    }
  }

  predicate Refuses(e: Event) {
    || (e.kind != Observed && e.kind != Closed)
    || (e.kind == Observed && (e.feature.connectionId == "" || e.feature.sourceIP == "" || e.feature.host == ""))
  }

  function Observations(events: seq<Event>): nat {
    if events == [] then 0 else Observations(events[1..]) + if events[0].kind == Observed then 1 else 0
  }

  lemma {:induction false} ObservationsSnoc(events: seq<Event>, e: Event)
    ensures Observations(events + [e]) == Observations(events) + if e.kind == Observed then 1 else 0
  {
    if events == [] {
      assert [e][1..] == [];
      assert events + [e] == [e];
    } else {
      assert (events + [e])[1..] == events[1..] + [e];
      ObservationsSnoc(events[1..], e);
    }
  }

  // A close counts if its connection is known by then.
  ghost predicate ClosesKnown(db: Db, events: seq<Event>, i: int) {
    && 0 <= i < |events| && events[i].kind == Closed && events[i].feature.connectionId != ""
    && (events[i].feature.connectionId in db.samples ||
        exists j :: 0 <= j < i && events[j].kind == Observed && events[j].feature.connectionId == events[i].feature.connectionId)
  }

  ghost function KnownCloses(db: Db, events: seq<Event>): set<int> {
    set i | 0 <= i < |events| && ClosesKnown(db, events, i)
  }

  lemma KnownClosesSnoc(db: Db, front: seq<Event>, e: Event)
    ensures var events := front + [e];
      KnownCloses(db, events) == KnownCloses(db, front) + if ClosesKnown(db, events, |front|) then {|front|} else {}
  {
    var events := front + [e];
    assert forall i :: 0 <= i < |front| ==> events[i] == front[i];
  }

  // The numbers a batch reports: its observations, and its closes of known connections.
  lemma {:induction false} TallySays(db: Db, events: seq<Event>, now: int)
    requires ForeignKeys(db) && AllAcceptable(events)
    ensures TallyBatch(db, events, now).observed == Observations(events)
    ensures TallyBatch(db, events, now).closed == |KnownCloses(db, events)|
  {
    if events == [] {
      assert KnownCloses(db, events) == {};
    } else {
      var front, e := events[..|events| - 1], events[|events| - 1];
      assert forall i :: 0 <= i < |front| ==> front[i] == events[i];
      TallySays(db, front, now);
      assert events == front + [e];
      ObservationsSnoc(front, e);
      KnownClosesSnoc(db, front, e);
      LastTally(db, front, e, now);
    }
  }

  lemma LastTally(db: Db, front: seq<Event>, e: Event, now: int)
    requires ForeignKeys(db)
    ensures var before, after := TallyBatch(db, front, now), TallyBatch(db, front + [e], now);
      && after.observed == before.observed + (if e.kind == Observed then 1 else 0)
      && after.closed == before.closed + (if ClosesKnown(db, front + [e], |front|) then 1 else 0)
  {
    assert (front + [e])[..|front|] == front;
    assert forall i :: 0 <= i < |front| ==> (front + [e])[i] == front[i];
    StepsKeepForeignKeys(db, front, now);
    KnownByThen(db, front, now, IdOf(e));
  }

  lemma {:induction false} KnownByThen(db: Db, events: seq<Event>, now: int, c: string)
    ensures c in Steps(db, events, now).samples <==>
      c in db.samples || exists j :: 0 <= j < |events| && events[j].kind == Observed && events[j].feature.connectionId == c
  {
    if events != [] {
      var n := |events| - 1;
      KnownByThen(db, events[..n], now, c);
      assert forall i :: 0 <= i < n ==> events[..n][i] == events[i];
      var before := Steps(db, events[..n], now);
      assert Steps(db, events, now).samples.Keys == before.samples.Keys + if events[n].kind == Observed then {IdOf(events[n])} else {};
      if events[n].kind == Observed && IdOf(events[n]) == c {
        assert events[n].feature.connectionId == c;
      }
    }
  }
}
