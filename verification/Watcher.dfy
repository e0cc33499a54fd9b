// Snapshot differencing: what one connection snapshot tells the writer.
module Watcher {
  import opened Wrappers
  import opened Telemetry
  import opened RuntimeRuns
  import opened Coalescing

  // Normalisation either rejects a connection or yields a feature the store accepts.
  ghost predicate Normalises<C(!new)>(normalize: C -> Option<Feature>) {
    forall c :: normalize(c).Some? ==> WellFormed(normalize(c).value)
  }

  predicate WellFormed(f: Feature) {
    f.connectionId != "" && f.sourceIP != "" && f.host != ""
  }

  ghost predicate WellFormedMap(active: map<string, Feature>) {
    forall id :: id in active ==> WellFormed(active[id]) && active[id].connectionId == id
  }

  // The normalised connections of a snapshot; the last of several with one id counts.
  function Current<C>(normalize: C -> Option<Feature>, connections: seq<C>): map<string, Feature> {
    if connections == [] then map[]
    else
      var front, c := Current(normalize, connections[..|connections| - 1]), normalize(connections[|connections| - 1]);
      if c.None? then front else front[c.value.connectionId := c.value]
  }

  lemma {:induction false} CurrentWellFormed<C(!new)>(normalize: C -> Option<Feature>, connections: seq<C>)
    requires Normalises(normalize)
    ensures WellFormedMap(Current(normalize, connections))
  {
    if connections != [] {
      CurrentWellFormed(normalize, connections[..|connections| - 1]);
    }
  }

  // The last connection that is admitted under an id.
  ghost predicate LastAdmitted<C(!new)>(normalize: C -> Option<Feature>, connections: seq<C>, id: string, i: int) {
    && 0 <= i < |connections| && Admits(normalize, connections[i], id)
    && forall j :: i < j < |connections| ==> !Admits(normalize, connections[j], id)
  }

  predicate Admits<C>(normalize: C -> Option<Feature>, c: C, id: string) {
    normalize(c).Some? && normalize(c).value.connectionId == id
  }

  lemma {:induction false} CurrentSays<C(!new)>(normalize: C -> Option<Feature>, connections: seq<C>, id: string)
    ensures id in Current(normalize, connections) <==> exists i :: LastAdmitted(normalize, connections, id, i)
    ensures forall i :: LastAdmitted(normalize, connections, id, i) ==>
      id in Current(normalize, connections) && Current(normalize, connections)[id] == normalize(connections[i]).value
  {
    if connections != [] {
      var n := |connections| - 1;
      var front := connections[..n];
      CurrentSays(normalize, front, id);
      assert forall i :: 0 <= i < n ==> front[i] == connections[i];
      if Admits(normalize, connections[n], id) {
        assert LastAdmitted(normalize, connections, id, n);
        assert forall i :: LastAdmitted(normalize, connections, id, i) ==> i == n;
      } else {
        assert forall i :: LastAdmitted(normalize, connections, id, i) <==> LastAdmitted(normalize, front, id, i);
      }
    }
  }

  // What happened to one connection between two snapshots.
  function Change(active: map<string, Feature>, current: map<string, Feature>, id: string, now: int): Event
    requires id in active || id in current
  {
    if id in current then Event(Observed, current[id])
    else Event(Closed, active[id].(observedAt := Some(now)))
  }

  // A connection of the snapshot is observed as it is; one that is gone is closed, as it
  // was last seen but at the time of the snapshot.
  predicate Reports(active: map<string, Feature>, current: map<string, Feature>, now: int, e: Event) {
    var id := e.feature.connectionId;
    if id in current then e.kind == Observed && e.feature == current[id]
    else e.kind == Closed && id in active && e.feature == active[id].(observedAt := Some(now))
  }

  // One event per connection of either snapshot, in any order.
  ghost predicate IsDiff(active: map<string, Feature>, current: map<string, Feature>, now: int, events: seq<Event>) {
    && DistinctIds(events)
    && (forall i :: 0 <= i < |events| ==>
          (IdOf(events[i]) in active || IdOf(events[i]) in current) && events[i] == Change(active, current, IdOf(events[i]), now))
    && (forall id :: id in active || id in current ==> exists i :: 0 <= i < |events| && IdOf(events[i]) == id)
  }

  // The pairs a set of active connections stands for.
  function PairsOf(active: map<string, Feature>): map<string, FlowKey> {
    map id | id in active :: KeyOf(active[id])
  }

  class Watcher<C(!new)> {
    var activeByID: map<string, Feature>

    constructor ()
      ensures activeByID == map[]
    {
      activeByID := map[];
    }

    // Returns the events handed to the sink and remembers the snapshot.
    method HandleSnapshot(normalize: C -> Option<Feature>, connections: seq<C>, now: int) returns (events: seq<Event>)
      requires Normalises(normalize) && WellFormedMap(activeByID)
      modifies this
      ensures activeByID == Current(normalize, connections)
      ensures WellFormedMap(activeByID)
      ensures IsDiff(old(activeByID), activeByID, now, events)
      ensures forall i :: 0 <= i < |events| ==> Reports(old(activeByID), activeByID, now, events[i])
    {
      ghost var before := activeByID;
      var current := BuildCurrent(normalize, connections);
      events := ReportObserved(current, before, now);
      events := ReportClosed(current, before, now, events);
    }

    method BuildCurrent(normalize: C -> Option<Feature>, connections: seq<C>) returns (current: map<string, Feature>)
      requires Normalises(normalize)
      ensures current == Current(normalize, connections) && WellFormedMap(current)
    {
      current := map[];
      for i := 0 to |connections|
        invariant current == Current(normalize, connections[..i])
      {
        assert connections[..i + 1][..i] == connections[..i];
        var feature := normalize(connections[i]);
        if feature.None? {
          continue;
        }
        current := current[feature.value.connectionId := feature.value];
      }
      assert connections[..|connections|] == connections;
      CurrentWellFormed(normalize, connections);
    }

    // Every connection of the snapshot is observed, in any order.
    method ReportObserved(current: map<string, Feature>, ghost before: map<string, Feature>, now: int) returns (events: seq<Event>)
      requires activeByID == before && WellFormedMap(before) && WellFormedMap(current)
      modifies this
      ensures activeByID == before + current
      ensures DiffSoFar(before, current, now, events, current.Keys)
    {
      events := [];
      var todo := current.Keys;
      ghost var done: set<string> := {};
      RefreshedEnds(before, current);
      while todo != {}
        invariant Partition(current.Keys, todo, done)
        invariant activeByID == Refreshed(before, current, done)
        invariant DiffSoFar(before, current, now, events, done)
      {
        var id :| id in todo;
        PartitionOneMore(current.Keys, todo, done, id);
        events := ObserveOne(current, before, now, events, done, id);
        todo, done := todo - {id}, done + {id};
      }
      PartitionEnds(current.Keys, done);
    }

    method ObserveOne(current: map<string, Feature>, ghost before: map<string, Feature>, ghost now: int, events: seq<Event>,
                      ghost done: set<string>, id: string)
      returns (more: seq<Event>)
      requires id in current && id !in done && WellFormedMap(before) && WellFormedMap(current)
      requires activeByID == Refreshed(before, current, done) && DiffSoFar(before, current, now, events, done)
      modifies this
      ensures activeByID == Refreshed(before, current, done + {id})
      ensures DiffSoFar(before, current, now, more, done + {id})
    {
      DiffOneMore(before, current, now, events, done, id);
      RefreshedOneMore(before, current, done, id);
      more := events + [Event(Observed, current[id])];
      activeByID := activeByID[id := current[id]];
    }

    // Every remembered connection that is not in the snapshot is closed and forgotten.
    method ReportClosed(current: map<string, Feature>, ghost before: map<string, Feature>, now: int, observed: seq<Event>)
      returns (events: seq<Event>)
      requires activeByID == before + current && WellFormedMap(before) && WellFormedMap(current)
      requires DiffSoFar(before, current, now, observed, current.Keys)
      modifies this
      ensures activeByID == current
      ensures IsDiff(before, current, now, events)
    {
      events := observed;
      var todo := activeByID.Keys;
      ghost var all := before + current;
      ghost var done := current.Keys;
      RemainingEnds(all, current);
      while todo != {}
        invariant todo <= all.Keys && all == before + current
        invariant activeByID == Remaining(all, current, todo)
        invariant done == all.Keys - (todo - current.Keys)
        invariant DiffSoFar(before, current, now, events, done)
      {
        var id :| id in todo;
        RemainingOneLess(all, current, todo, id);
        if id !in current {
          events := CloseOne(current, before, now, events, done, id);
          done := done + {id};
        }
        todo := todo - {id};
      }
      DiffComplete(before, current, now, events, done);
    }

    method CloseOne(ghost current: map<string, Feature>, ghost before: map<string, Feature>, now: int, events: seq<Event>,
                    ghost done: set<string>, id: string)
      returns (more: seq<Event>)
      requires id in activeByID && id in before && activeByID[id] == before[id]
      requires id !in current && id !in done && WellFormedMap(before) && WellFormedMap(current)
      requires DiffSoFar(before, current, now, events, done)
      modifies this
      ensures activeByID == old(activeByID) - {id}
      ensures DiffSoFar(before, current, now, more, done + {id})
    {
      DiffOneMore(before, current, now, events, done, id);
      more := events + [Event(Closed, activeByID[id].(observedAt := Some(now)))];
      activeByID := activeByID - {id};
    }
  }

  ghost predicate Partition(all: set<string>, todo: set<string>, done: set<string>) {
    todo + done == all && todo * done == {}
  }

  lemma PartitionOneMore(all: set<string>, todo: set<string>, done: set<string>, id: string)
    requires Partition(all, todo, done) && id in todo
    ensures Partition(all, todo - {id}, done + {id}) && id in all && id !in done
  {
  }

  lemma PartitionEnds(all: set<string>, done: set<string>)
    ensures Partition(all, {}, done) ==> done == all
  {
  }

  function Refreshed(before: map<string, Feature>, current: map<string, Feature>, done: set<string>): map<string, Feature> {
    before + map id | id in current && id in done :: current[id]
  }

  lemma RefreshedOneMore(before: map<string, Feature>, current: map<string, Feature>, done: set<string>, id: string)
    requires id in current
    ensures Refreshed(before, current, done)[id := current[id]] == Refreshed(before, current, done + {id})
  {
  }

  lemma RefreshedEnds(before: map<string, Feature>, current: map<string, Feature>)
    ensures Refreshed(before, current, {}) == before && Refreshed(before, current, current.Keys) == before + current
  {
  }

  // What is left of the remembered connections while the absent ones among them go.
  function Remaining(all: map<string, Feature>, current: map<string, Feature>, todo: set<string>): map<string, Feature> {
    map id | id in all && (id in current || id in todo) :: all[id]
  }

  lemma RemainingOneLess(all: map<string, Feature>, current: map<string, Feature>, todo: set<string>, id: string)
    requires id in todo && id in all
    ensures Remaining(all, current, todo - {id}) ==
      if id in current then Remaining(all, current, todo) else Remaining(all, current, todo) - {id}
    ensures id in Remaining(all, current, todo) && Remaining(all, current, todo)[id] == all[id]
  {
  }

  lemma RemainingEnds(all: map<string, Feature>, current: map<string, Feature>)
    ensures Remaining(all, current, all.Keys) == all
    ensures current.Keys <= all.Keys && (forall id :: id in current ==> all[id] == current[id]) ==> Remaining(all, current, {}) == current
  {
  }

  lemma DiffComplete(before: map<string, Feature>, current: map<string, Feature>, now: int, events: seq<Event>, done: set<string>)
    requires DiffSoFar(before, current, now, events, done) && done == before.Keys + current.Keys
    ensures IsDiff(before, current, now, events)
  {
    DiffReports(before, current, now, events, done);
  }

  // The events so far report exactly the connections in done, each once.
  ghost predicate DiffSoFar(active: map<string, Feature>, current: map<string, Feature>, now: int, events: seq<Event>, done: set<string>) {
    if events == [] then done == {}
    else
      var e := events[|events| - 1];
      && IdOf(e) in done
      && (IdOf(e) in active || IdOf(e) in current)
      && e == Change(active, current, IdOf(e), now)
      && DiffSoFar(active, current, now, events[..|events| - 1], done - {IdOf(e)})
  }

  lemma DiffOneMore(active: map<string, Feature>, current: map<string, Feature>, now: int, events: seq<Event>, done: set<string>, id: string)
    requires DiffSoFar(active, current, now, events, done) && id !in done
    requires WellFormedMap(active) && WellFormedMap(current) && (id in active || id in current)
    ensures DiffSoFar(active, current, now, events + [Change(active, current, id, now)], done + {id})
  {
    var more := events + [Change(active, current, id, now)];
    assert more[..|more| - 1] == events && (done + {id}) - {id} == done;
  }

  lemma {:induction false} DiffReports(active: map<string, Feature>, current: map<string, Feature>, now: int, events: seq<Event>, done: set<string>)
    requires DiffSoFar(active, current, now, events, done)
    ensures DistinctIds(events)
    ensures forall i :: 0 <= i < |events| ==>
      && IdOf(events[i]) in done
      && (IdOf(events[i]) in active || IdOf(events[i]) in current)
      && events[i] == Change(active, current, IdOf(events[i]), now)
    ensures forall id :: id in done ==> exists i :: 0 <= i < |events| && IdOf(events[i]) == id
  {
    if events != [] {
      var front, e := events[..|events| - 1], events[|events| - 1];
      DiffReports(active, current, now, front, done - {IdOf(e)});
      assert forall i :: 0 <= i < |front| ==> front[i] == events[i];
      assert forall id :: id in done && id != IdOf(e) ==> id in done - {IdOf(e)};
      forall id | id in done ensures exists i :: 0 <= i < |events| && IdOf(events[i]) == id {
        if id == IdOf(e) {
          assert IdOf(events[|events| - 1]) == id;
        } else {
          var i :| 0 <= i < |front| && IdOf(front[i]) == id;
          assert IdOf(events[i]) == id;
        }
      }
    }
  }

  // ---- what a diff does to the pairs ----

  lemma DiffAcceptable(active: map<string, Feature>, current: map<string, Feature>, now: int, events: seq<Event>)
    requires IsDiff(active, current, now, events) && WellFormedMap(active) && WellFormedMap(current)
    ensures AllAcceptable(events)
    ensures forall i :: 0 <= i < |events| ==> IdOf(events[i]) != ""
  {
  }

  lemma LatestOfDiff(active: map<string, Feature>, current: map<string, Feature>, now: int, events: seq<Event>, id: string)
    requires IsDiff(active, current, now, events) && WellFormedMap(active) && WellFormedMap(current)
    ensures id in Latest(events) <==> id in active || id in current
    ensures id in Latest(events) ==> Latest(events)[id] == Change(active, current, id, now)
  {
    DiffAcceptable(active, current, now, events);
    LatestDistinct(events);
    if id in active || id in current {
      var i :| 0 <= i < |events| && IdOf(events[i]) == id;
      assert Latest(events)[id] == events[i];
    }
  }

  // Applying a diff turns the pairs of the previous snapshot into those of the next.
  lemma DiffEffects(active: map<string, Feature>, current: map<string, Feature>, now: int, events: seq<Event>)
    requires IsDiff(active, current, now, events) && WellFormedMap(active) && WellFormedMap(current)
    ensures Effects(PairsOf(active), events) == PairsOf(current)
  {
    DiffAcceptable(active, current, now, events);
    EffectsAreOverlay(PairsOf(active), events);
    var latest := Latest(events);
    forall id
      ensures id in latest <==> id in active || id in current
      ensures id in latest ==> latest[id] == Change(active, current, id, now)
    {
      LatestOfDiff(active, current, now, events, id);
    }
    OverlayOfChanges(active, current, now, latest);
  }

  lemma OverlayOfChanges(active: map<string, Feature>, current: map<string, Feature>, now: int, latest: map<string, Event>)
    requires forall id :: id in latest <==> id in active || id in current
    requires forall id :: id in latest ==> latest[id] == Change(active, current, id, now)
    ensures Overlay(PairsOf(active), latest) == PairsOf(current)
  {
  }
}
