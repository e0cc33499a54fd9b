// Watcher, writer and store together: one snapshot of the controller, from the connections
// it lists to the writer's queue, and what the store holds once it is flushed.
module Polling {
  import opened Wrappers
  import opened Telemetry
  import opened Runtime
  import opened RuntimeRuns
  import opened Pipeline
  import Watcher
  import FeatureWriter
  import PipelineOrder

  // The watcher and the writer agree on what was reported, and nothing is half reported.
  ghost predicate InStep<C(!new)>(watcher: Watcher.Watcher<C>, writer: FeatureWriter.FeatureWriter)
    reads watcher, writer, writer.store
  {
    && writer.Valid() && writer.pipe.pending == []
    && watcher.activeByID == writer.pipe.active && Watcher.WellFormedMap(watcher.activeByID)
  }

  // A snapshot arrives. A snapshot without changes to report reports nothing.
  method Poll<C(!new)>(watcher: Watcher.Watcher<C>, writer: FeatureWriter.FeatureWriter, normalize: C -> Option<Feature>,
                       connections: seq<C>, now: int)
    requires InStep(watcher, writer) && Watcher.Normalises(normalize)
    modifies watcher, writer`queue, writer`overflow, writer`pipe, writer`steps
    ensures InStep(watcher, writer)
    ensures watcher.activeByID == Watcher.Current(normalize, connections)
    ensures writer.pipe.db == old(writer.pipe.db) && writer.pipe.batch == old(writer.pipe.batch) && writer.pipe.phase == old(writer.pipe.phase)
    ensures old(writer.steps) <= writer.steps
  {
    ghost var before := watcher.activeByID;
    var events := watcher.HandleSnapshot(normalize, connections, now);
    writer.Report(watcher.activeByID, events, now);
    ghost var reported := writer.pipe;
    if events != [] {
      writer.ApplyFeatureEvents(events);
      FeatureWriter.SubmissionsAreOneCall(writer.config, reported, |events|);
    }
  }

  // Whatever polls and branches of the loop came before: once the writer is drained without
  // failure, the store agrees with the watcher's last snapshot on every connection that was
  // not misordered.
  lemma StoreMirrorsWatcher<C(!new)>(watcher: Watcher.Watcher<C>, writer: FeatureWriter.FeatureWriter, id: string)
    requires InStep(watcher, writer) && Start(writer.start)
    requires !PipelineOrder.Misordered(writer.config, writer.start, writer.steps, id)
    requires !writer.pipe.failed && writer.queue == [] && writer.batch == [] && writer.overflow == map[]
    ensures Find(OpenPairs(writer.store.Tables()), id) == Find(Watcher.PairsOf(watcher.activeByID), id)
  {
    FeatureWriter.WriterMirrorsSnapshot(writer, id);
  }
}
