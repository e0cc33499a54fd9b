// Coalescing of feature events by connection id, and why it is invisible in the set of
// open (connection, device-application) pairs.
module Coalescing {
  import opened Wrappers
  import opened Telemetry
  import opened Runtime
  import opened RuntimeInvariants
  import opened RuntimeRuns

  // Connection ids in order of first appearance.
  function Order(events: seq<Event>): seq<string> {
    if events == [] then []
    else
      var front, id := Order(events[..|events| - 1]), IdOf(events[|events| - 1]);
      if id == "" || id in front then front else front + [id]
  }

  // The newest event of each connection.
  function Latest(events: seq<Event>): (latest: map<string, Event>)
    ensures forall id :: id in latest ==> id != "" && IdOf(latest[id]) == id
  {
    if events == [] then map[]
    else
      var front, e := Latest(events[..|events| - 1]), events[|events| - 1];
      if IdOf(e) == "" then front else front[IdOf(e) := e]
  }

  lemma {:induction false} OrderCoversLatest(events: seq<Event>)
    ensures forall id :: id in Order(events) <==> id in Latest(events)
    ensures forall i, j :: 0 <= i < j < |Order(events)| ==> Order(events)[i] != Order(events)[j]
  {
    if events != [] {
      OrderCoversLatest(events[..|events| - 1]);
    }
  }

  function Coalesced(events: seq<Event>): (r: seq<Event>)
    ensures |r| == |Order(events)|
    ensures forall i :: 0 <= i < |r| ==> IdOf(r[i]) == Order(events)[i]
    ensures DistinctIds(r)
  {
    OrderCoversLatest(events);
    seq(|Order(events)|, i requires 0 <= i < |Order(events)| => Latest(events)[Order(events)[i]])
  }

  // Where a connection first appears; past the end if it does not.
  function FirstIndex(events: seq<Event>, id: string): nat {
    if events == [] || events[0].feature.connectionId == id then 0 else 1 + FirstIndex(events[1..], id)
  }

  lemma {:induction false} FirstIndexSnoc(events: seq<Event>, e: Event, id: string)
    ensures FirstIndex(events + [e], id) ==
      if FirstIndex(events, id) < |events| then FirstIndex(events, id)
      else if e.feature.connectionId == id then |events| else |events| + 1
    ensures FirstIndex(events, id) <= |events|
  {
    if events == [] {
      assert [e][1..] == [] && events + [e] == [e];
    } else {
      assert (events + [e])[1..] == events[1..] + [e];
      FirstIndexSnoc(events[1..], e, id);
    }
  }

  // Exactly the connections that appear, in the order in which they first do.
  lemma {:induction false} OrderSays(events: seq<Event>)
    ensures forall id :: id in Order(events) <==> id != "" && FirstIndex(events, id) < |events|
    ensures forall i, j :: 0 <= i < j < |Order(events)| ==> FirstIndex(events, Order(events)[i]) < FirstIndex(events, Order(events)[j])
  {
    if events != [] {
      var front, e := events[..|events| - 1], events[|events| - 1];
      OrderSays(front);
      assert events == front + [e];
      forall id
        ensures FirstIndex(events, id) == if FirstIndex(front, id) < |front| then FirstIndex(front, id)
          else if e.feature.connectionId == id then |front| else |front| + 1
      {
        FirstIndexSnoc(front, e, id);
      }
      assert forall i :: 0 <= i < |Order(front)| ==> Order(front)[i] in Order(front);
    }
  }

  // What is kept of a connection is its last event.
  lemma {:induction false} LatestSays(events: seq<Event>, id: string)
    requires id in Latest(events)
    ensures exists k :: LastAppears(events, id, k) && Latest(events)[id] == events[k]
  {
    var n := |events| - 1;
    var front := events[..n];
    if IdOf(events[n]) == id {
      assert LastAppears(events, id, n);
    } else {
      LatestSays(front, id);
      var k :| LastAppears(front, id, k) && Latest(front)[id] == front[k];
      assert forall j :: 0 <= j < n ==> front[j] == events[j];
      assert LastAppears(events, id, k);
    }
  }

  ghost predicate LastAppears(events: seq<Event>, id: string, k: int) {
    0 <= k < |events| && events[k].feature.connectionId == id && forall j :: k < j < |events| ==> events[j].feature.connectionId != id
  }

  // The loop of the source: a map of newest events and the order of first appearances.
  method CoalesceEvents(events: seq<Event>) returns (coalesced: seq<Event>)
    ensures coalesced == Coalesced(events)
  {
    var latest: map<string, Event>, order: seq<string> := map[], [];
    for i := 0 to |events|
      invariant latest == Latest(events[..i]) && order == Order(events[..i])
    {
      var id := IdOf(events[i]);
      assert events[..i + 1][..i] == events[..i];
      OrderCoversLatest(events[..i]);
      if id == "" {
        continue;
      }
      if id !in latest {
        order := order + [id];
      }
      latest := latest[id := events[i]];
    }
    assert events[..|events|] == events;
    OrderCoversLatest(events);
    coalesced := [];
    for i := 0 to |order|
      invariant |coalesced| == i
      invariant forall k :: 0 <= k < i ==> coalesced[k] == latest[order[k]]
    {
      coalesced := coalesced + [latest[order[i]]];
    }
  }

  // ---- newest events of sequences ----

  function IdSet(events: seq<Event>): set<string> {
    set e | e in events :: IdOf(e)
  }

  lemma LatestSnoc(events: seq<Event>, e: Event)
    ensures Latest(events + [e]) == if IdOf(e) == "" then Latest(events) else Latest(events)[IdOf(e) := e]
  {
    assert (events + [e])[..|events|] == events;
  }

  lemma {:induction false} LatestAppend(xs: seq<Event>, ys: seq<Event>)
    ensures Latest(xs + ys) == Latest(xs) + Latest(ys)
  {
    if ys == [] {
      assert xs + ys == xs;
    } else {
      var front, e := ys[..|ys| - 1], ys[|ys| - 1];
      assert ys == front + [e] && xs + ys == (xs + front) + [e];
      LatestAppend(xs, front);
      LatestSnoc(xs + front, e);
      LatestSnoc(front, e);
    }
  }

  lemma {:induction false} LatestMembers(events: seq<Event>)
    ensures forall id :: id in Latest(events) ==> Latest(events)[id] in events
    ensures forall e :: e in events && IdOf(e) != "" ==> IdOf(e) in Latest(events)
  {
    if events != [] {
      LatestMembers(events[..|events| - 1]);
      assert events == events[..|events| - 1] + [events[|events| - 1]];
    }
  }

  lemma {:induction false} LatestDistinct(events: seq<Event>)
    requires DistinctIds(events) && forall i :: 0 <= i < |events| ==> IdOf(events[i]) != ""
    ensures forall i :: 0 <= i < |events| ==> IdOf(events[i]) in Latest(events) && Latest(events)[IdOf(events[i])] == events[i]
    ensures forall id :: id in Latest(events) ==> exists i :: 0 <= i < |events| && IdOf(events[i]) == id
  {
    if events != [] {
      var front := events[..|events| - 1];
      LatestDistinct(front);
      forall i | 0 <= i < |events|
        ensures IdOf(events[i]) in Latest(events) && Latest(events)[IdOf(events[i])] == events[i]
      {
        if i < |front| {
          assert front[i] == events[i];
        }
      }
      forall id | id in Latest(events) ensures exists i :: 0 <= i < |events| && IdOf(events[i]) == id {
        if id in Latest(front) {
          var i :| 0 <= i < |front| && IdOf(front[i]) == id;
          assert IdOf(events[i]) == id;
        }
      }
    }
  }

  // Coalescing keeps exactly the newest event of every connection.
  lemma LatestOfCoalesced(events: seq<Event>)
    ensures Latest(Coalesced(events)) == Latest(events)
    ensures forall e :: e in Coalesced(events) ==> e in events
  {
    var r := Coalesced(events);
    OrderCoversLatest(events);
    LatestMembers(events);
    forall i | 0 <= i < |r| ensures IdOf(r[i]) != "" && r[i] == Latest(events)[IdOf(r[i])] {
      assert Order(events)[i] in Order(events);
    }
    LatestDistinct(r);
    forall id | id in Latest(events) ensures id in Latest(r) && Latest(r)[id] == Latest(events)[id] {
      var i :| 0 <= i < |Order(events)| && Order(events)[i] == id;
      assert IdOf(r[i]) == id;
    }
  }

  // ---- effect on the open pairs ----

  function Effect(pairs: map<string, FlowKey>, e: Event): map<string, FlowKey> {
    if IdOf(e) == "" then pairs
    else match e.kind
      case Observed => pairs[IdOf(e) := KeyOf(e.feature)]
      case Closed => pairs - {IdOf(e)}
      case Unsupported => pairs
  }

  function Effects(pairs: map<string, FlowKey>, events: seq<Event>): map<string, FlowKey> {
    if events == [] then pairs
    else Effect(Effects(pairs, events[..|events| - 1]), events[|events| - 1])
  }

  lemma {:induction false} EffectsAppend(pairs: map<string, FlowKey>, xs: seq<Event>, ys: seq<Event>)
    ensures Effects(pairs, xs + ys) == Effects(Effects(pairs, xs), ys)
  {
    if ys == [] {
      assert xs + ys == xs;
    } else {
      EffectsAppend(pairs, xs, ys[..|ys| - 1]);
      assert (xs + ys)[..|xs + ys| - 1] == xs + ys[..|ys| - 1];
    }
  }

  // Closed form: the newest event of a connection decides its pair.
  function Overlay(pairs: map<string, FlowKey>, latest: map<string, Event>): map<string, FlowKey> {
    map c | c in pairs.Keys + latest.Keys && (c in latest ==> latest[c].kind.Observed?) ::
      if c in latest then KeyOf(latest[c].feature) else pairs[c]
  }

  lemma OverlayOneMore(pairs: map<string, FlowKey>, latest: map<string, Event>, e: Event)
    requires Acceptable(e) && IdOf(e) != ""
    ensures Effect(Overlay(pairs, latest), e) == Overlay(pairs, latest[IdOf(e) := e])
  {
  }

  lemma {:induction false} EffectsAreOverlay(pairs: map<string, FlowKey>, events: seq<Event>)
    requires AllAcceptable(events)
    ensures Effects(pairs, events) == Overlay(pairs, Latest(events))
  {
    if events != [] {
      var front, e := events[..|events| - 1], events[|events| - 1];
      assert forall i :: 0 <= i < |front| ==> front[i] == events[i];
      EffectsAreOverlay(pairs, front);
      if IdOf(e) != "" {
        OverlayOneMore(pairs, Latest(front), e);
      }
    }
  }

  lemma StepHasEffect(db: Db, e: Event, now: int)
    requires ForeignKeys(db) && Acceptable(e)
    ensures OpenPairs(Step(db, e, now)) == Effect(OpenPairs(db), e)
  {
  }

  lemma {:induction false} StepsHaveEffects(db: Db, events: seq<Event>, now: int)
    requires ForeignKeys(db) && AllAcceptable(events)
    ensures OpenPairs(Steps(db, events, now)) == Effects(OpenPairs(db), events)
  {
    if events != [] {
      var front, e := events[..|events| - 1], events[|events| - 1];
      assert forall i :: 0 <= i < |front| ==> front[i] == events[i];
      StepsHaveEffects(db, front, now);
      StepsKeepForeignKeys(db, front, now);
      StepHasEffect(Steps(db, front, now), e, now);
    }
  }

  lemma BatchHasEffects(db: Db, events: seq<Event>, now: int)
    requires ForeignKeys(db) && AllAcceptable(events)
    ensures OpenPairs(ApplyBatch(db, events, now)) == Effects(OpenPairs(db), events)
    ensures ForeignKeys(ApplyBatch(db, events, now))
  {
    StepsHaveEffects(db, events, now);
    StepsKeepForeignKeys(db, events, now);
    assert OpenPairs(ApplyBatch(db, events, now)) == OpenPairs(Steps(db, events, now));
  }

  lemma CoalescedEffects(pairs: map<string, FlowKey>, events: seq<Event>)
    requires AllAcceptable(events)
    ensures AllAcceptable(Coalesced(events))
    ensures Effects(pairs, Coalesced(events)) == Effects(pairs, events)
  {
    LatestOfCoalesced(events);
    forall i | 0 <= i < |Coalesced(events)| ensures Acceptable(Coalesced(events)[i]) {
      assert Coalesced(events)[i] in events;
    }
    EffectsAreOverlay(pairs, events);
    EffectsAreOverlay(pairs, Coalesced(events));
  }

  // ---- the store sees batches ----

  // One transaction per batch, each batch coalesced; times[i] is the clock of batch i.
  function ApplyCut(db: Db, batches: seq<seq<Event>>, times: seq<int>): Db
    requires |times| == |batches|
  {
    if batches == [] then db
    else
      var n := |batches| - 1;
      ApplyBatch(ApplyCut(db, batches[..n], times[..n]), Coalesced(batches[n]), times[n])
  }

  // One transaction per event, nothing coalesced.
  function ApplyOneByOne(db: Db, events: seq<Event>, times: seq<int>): Db
    requires |times| == |events|
  {
    if events == [] then db
    else
      var n := |events| - 1;
      ApplyBatch(ApplyOneByOne(db, events[..n], times[..n]), [events[n]], times[n])
  }

  function Flatten(batches: seq<seq<Event>>): seq<Event> {
    if batches == [] then [] else Flatten(batches[..|batches| - 1]) + batches[|batches| - 1]
  }

  lemma {:induction false} CutHasEffects(db: Db, batches: seq<seq<Event>>, times: seq<int>)
    requires |times| == |batches| && ForeignKeys(db) && AllAcceptable(Flatten(batches))
    ensures OpenPairs(ApplyCut(db, batches, times)) == Effects(OpenPairs(db), Flatten(batches))
    ensures ForeignKeys(ApplyCut(db, batches, times))
  {
    if batches != [] {
      var n := |batches| - 1;
      var all, front, last := Flatten(batches), Flatten(batches[..n]), batches[n];
      assert forall i :: 0 <= i < |front| ==> front[i] == all[i];
      assert forall i :: 0 <= i < |last| ==> last[i] == all[|front| + i];
      var before := ApplyCut(db, batches[..n], times[..n]);
      CutHasEffects(db, batches[..n], times[..n]);
      CoalescedEffects(OpenPairs(before), last);
      BatchHasEffects(before, Coalesced(last), times[n]);
      EffectsAppend(OpenPairs(db), front, last);
    }
  }

  lemma {:induction false} OneByOneHasEffects(db: Db, events: seq<Event>, times: seq<int>)
    requires |times| == |events| && ForeignKeys(db) && AllAcceptable(events)
    ensures OpenPairs(ApplyOneByOne(db, events, times)) == Effects(OpenPairs(db), events)
    ensures ForeignKeys(ApplyOneByOne(db, events, times))
  {
    if events != [] {
      var n := |events| - 1;
      var before := ApplyOneByOne(db, events[..n], times[..n]);
      assert forall i :: 0 <= i < n ==> events[..n][i] == events[i];
      OneByOneHasEffects(db, events[..n], times[..n]);
      BatchHasEffects(before, [events[n]], times[n]);
      assert [events[n]][..0] == [];
      assert Effects(OpenPairs(before), [events[n]]) == Effect(OpenPairs(before), events[n]);
    }
  }

  // However a stream is cut into coalesced batches, and whenever they are applied, the
  // open pairs are those of applying the stream event by event.
  lemma EveryCutAgrees(db: Db, batches: seq<seq<Event>>, times: seq<int>, events: seq<Event>, clocks: seq<int>)
    requires |times| == |batches| && |clocks| == |events|
    requires ForeignKeys(db) && Flatten(batches) == events && AllAcceptable(events)
    ensures OpenPairs(ApplyCut(db, batches, times)) == OpenPairs(ApplyOneByOne(db, events, clocks))
  {
    CutHasEffects(db, batches, times);
    OneByOneHasEffects(db, events, clocks);
  }

  // A coalesced batch notifies exactly when it changes the open pairs.
  lemma CoalescedBatchNotifiesExactly(db: Db, events: seq<Event>, now: int)
    requires ForeignKeys(db) && AllAcceptable(events)
    ensures TallyBatch(db, Coalesced(events), now).changed <==> Effects(OpenPairs(db), events) != OpenPairs(db)
  {
    CoalescedEffects(OpenPairs(db), events);
    ChangedIffPairsChange(db, Coalesced(events), now);
    BatchHasEffects(db, Coalesced(events), now);
  }

  // ---- what coalescing does not preserve: history rows ----

  lemma {:induction false} RecordedSamples(db: Db, events: seq<Event>, now: int)
    ensures Steps(db, events, now).samples.Keys ==
      db.samples.Keys + set e | e in events && e.kind.Observed? :: IdOf(e)
  {
    if events != [] {
      var front, e := events[..|events| - 1], events[|events| - 1];
      RecordedSamples(db, front, now);
      assert events == front + [e];
      var before, after := Steps(db, front, now), Steps(db, events, now);
      assert after == Step(before, e, now);
      assert after.samples.Keys == before.samples.Keys + if e.kind.Observed? then {IdOf(e)} else {};
      var seen := set x | x in events && x.kind.Observed? :: IdOf(x);
      var seenBefore := set x | x in front && x.kind.Observed? :: IdOf(x);
      assert seen == seenBefore + if e.kind.Observed? then {IdOf(e)} else {} by {
        forall id | id in seenBefore ensures id in seen {
          var x :| x in front && x.kind.Observed? && IdOf(x) == id;
          assert x in events;
        }
        assert e in events;
      }
    }
  }

  ghost predicate ObservedIn(events: seq<Event>, c: string) {
    exists e :: e in events && IdOf(e) == c && e.kind.Observed?
  }

  lemma CoalescedObserves(events: seq<Event>, c: string)
    requires c != ""
    ensures ObservedIn(Coalesced(events), c) <==> c in Latest(events) && Latest(events)[c].kind.Observed?
  {
    var r := Coalesced(events);
    OrderCoversLatest(events);
    if ObservedIn(r, c) {
      var e :| e in r && IdOf(e) == c && e.kind.Observed?;
      var i :| 0 <= i < |r| && r[i] == e;
      assert Order(events)[i] in Order(events);
    }
    if c in Latest(events) {
      var i :| 0 <= i < |r| && Order(events)[i] == c;
      assert r[i] in r && r[i] == Latest(events)[c];
    }
  }

  // The sample row of a connection survives coalescing if and only if the row existed
  // before, or the connection was not observed at all, or its newest event observes it.
  lemma CoalescingKeepsRowIff(db: Db, events: seq<Event>, now: int, c: string)
    requires c != ""
    ensures (c in ApplyBatch(db, events, now).samples <==> c in ApplyBatch(db, Coalesced(events), now).samples) <==>
      (c in db.samples || !ObservedIn(events, c) || (c in Latest(events) && Latest(events)[c].kind.Observed?))
  {
    RecordedSamples(db, events, now);
    RecordedSamples(db, Coalesced(events), now);
    CoalescedObserves(events, c);
    LatestMembers(events);
    assert c in Steps(db, events, now).samples <==> c in db.samples || ObservedIn(events, c);
    assert c in Steps(db, Coalesced(events), now).samples <==> c in db.samples || ObservedIn(Coalesced(events), c);
  }

  // An open and a close of one new connection in one batch: the row is recorded event by
  // event, and not recorded at all once coalesced.
  lemma CoalescingDropsRow(f: Feature, now: int)
    requires f.connectionId != ""
    ensures var events := [Event(Observed, f), Event(Closed, f)];
      f.connectionId in ApplyBatch(EMPTY_DB, events, now).samples && f.connectionId !in ApplyBatch(EMPTY_DB, Coalesced(events), now).samples
  {
    var events := [Event(Observed, f), Event(Closed, f)];
    LatestSnoc([], events[0]);
    LatestSnoc([events[0]], events[1]);
    assert events == [events[0]] + [events[1]] && [events[0]] == [] + [events[0]];
    CoalescingKeepsRowIff(EMPTY_DB, events, now, f.connectionId);
    RecordedSamples(EMPTY_DB, events, now);
    assert events[0] in events && ObservedIn(events, f.connectionId);
  }
}
