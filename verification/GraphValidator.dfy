// The check a graph passes before it is saved, and what it spares the compiler.
module GraphValidator {
  import opened Wrappers
  import opened Library
  import opened Domain
  import opened Compiler

  datatype GraphError = EmptyNodeId | DuplicateEdge | NodeNotFound | InvalidDirection | ForeignDevice | InvalidPayload

  function EdgeKey(e: CanvasEdge): string {
    e.source + "\0" + e.target
  }

  // Source data and filter data must agree on the device.
  function ValidateSourceToFilter(source: CanvasNode, filter: CanvasNode): Option<GraphError> {
    if !source.data.SourceData? || !filter.data.FilterData? then Some(InvalidPayload)
    else if source.data.deviceId != filter.data.deviceId then Some(ForeignDevice)
    else None
  }

  function ValidateKnownEdge(catalog: Catalog, e: CanvasEdge): Option<GraphError> {
    if e.source !in catalog || e.target !in catalog then Some(NodeNotFound)
    else
      var source, target := catalog[e.source], catalog[e.target];
      if source.kind.SourceKind? && target.kind.FilterKind? then
        var mismatch := ValidateSourceToFilter(source, target);
        if mismatch.Some? then mismatch
        else if e.kind.NoEdgeKind? || e.kind.SourceToFilter? then None
        else Some(InvalidDirection)
      else if source.kind.FilterKind? && target.kind.TargetKind? then
        if e.kind.NoEdgeKind? || e.kind.FilterToTarget? then None else Some(InvalidDirection)
      else Some(InvalidDirection)
  }

  function ValidateEdge(catalog: Catalog, seen: set<string>, e: CanvasEdge): Option<GraphError> {
    if e.source == "" || e.target == "" then Some(EmptyNodeId)
    else if EdgeKey(e) in seen then Some(DuplicateEdge)
    else ValidateKnownEdge(catalog, e)
  }

  function Keys(edges: seq<CanvasEdge>): set<string> {
    set e | e in edges :: EdgeKey(e)
  }

  // The first edge in order that fails decides.
  function FirstError(catalog: Catalog, edges: seq<CanvasEdge>): Option<GraphError> {
    if edges == [] then None
    else
      var front := edges[..|edges| - 1];
      var earlier := FirstError(catalog, front);
      if earlier.Some? then earlier else ValidateEdge(catalog, Keys(front), edges[|edges| - 1])
  }

  // The same, without an order: every edge is sound and no two have the same key.
  ghost predicate Accepts(catalog: Catalog, edges: seq<CanvasEdge>) {
    && (forall i :: 0 <= i < |edges| ==>
          edges[i].source != "" && edges[i].target != "" && ValidateKnownEdge(catalog, edges[i]).None?)
    && (forall i, j :: 0 <= i < j < |edges| ==> EdgeKey(edges[i]) != EdgeKey(edges[j]))
  }

  lemma KeysIndexed(edges: seq<CanvasEdge>, key: string)
    ensures key in Keys(edges) <==> exists i :: 0 <= i < |edges| && EdgeKey(edges[i]) == key
  {
    if i :| 0 <= i < |edges| && EdgeKey(edges[i]) == key {
      assert edges[i] in edges;
    }
  }

  lemma {:induction false} NoErrorIffAccepts(catalog: Catalog, edges: seq<CanvasEdge>)
    ensures FirstError(catalog, edges).None? <==> Accepts(catalog, edges)
  {
    if edges != [] {
      var front, e := edges[..|edges| - 1], edges[|edges| - 1];
      NoErrorIffAccepts(catalog, front);
      KeysIndexed(front, EdgeKey(e));
      assert forall i :: 0 <= i < |front| ==> front[i] == edges[i];
      assert Accepts(catalog, edges) ==> forall i :: 0 <= i < |front| ==> EdgeKey(front[i]) != EdgeKey(e);
    }
  }

  method ValidateEdges(nodes: seq<CanvasNode>, edges: seq<CanvasEdge>) returns (r: Option<GraphError>)
    ensures r == FirstError(CatalogOf(nodes), edges)
    ensures r.None? <==> Accepts(CatalogOf(nodes), edges)
  {
    NoErrorIffAccepts(CatalogOf(nodes), edges);
    var catalog := CatalogOf(nodes);
    var seen: set<string> := {};
    for i := 0 to |edges|
      invariant FirstError(catalog, edges[..i]).None? && seen == Keys(edges[..i])
    {
      OneMoreEdge(catalog, edges, i);
      r := ValidateEdge(catalog, seen, edges[i]);
      if r.Some? {
        ErrorPersists(catalog, edges, i + 1);
        return;
      }
      seen := seen + {EdgeKey(edges[i])};
    }
    assert edges[..|edges|] == edges;
    r := None;
  }

  lemma OneMoreEdge(catalog: Catalog, edges: seq<CanvasEdge>, i: nat)
    requires i < |edges| && FirstError(catalog, edges[..i]).None?
    ensures FirstError(catalog, edges[..i + 1]) == ValidateEdge(catalog, Keys(edges[..i]), edges[i])
    ensures Keys(edges[..i + 1]) == Keys(edges[..i]) + {EdgeKey(edges[i])}
  {
    assert edges[..i + 1][..i] == edges[..i];
    assert edges[..i + 1] == edges[..i] + [edges[i]];
  }

  lemma {:induction false} ErrorPersists(catalog: Catalog, edges: seq<CanvasEdge>, k: nat)
    requires k <= |edges| && FirstError(catalog, edges[..k]).Some?
    ensures FirstError(catalog, edges) == FirstError(catalog, edges[..k])
    decreases |edges|
  {
    if k < |edges| {
      assert edges[..|edges| - 1][..k] == edges[..k];
      ErrorPersists(catalog, edges[..|edges| - 1], k);
    } else {
      assert edges[..k] == edges;
    }
  }

  // ---- what is accepted and refused, in the edge's own terms ----

  // The edge runs from a source to a filter of the same device or from a filter to a
  // target, and does not state another kind.
  ghost predicate Sound(catalog: Catalog, e: CanvasEdge) {
    && e.source in catalog && e.target in catalog
    && var s, t := catalog[e.source], catalog[e.target];
      || (&& s.kind == SourceKind && t.kind == FilterKind && e.kind != FilterToTarget && e.kind != OtherEdgeKind
          && s.data.SourceData? && t.data.FilterData? && s.data.deviceId == t.data.deviceId)
      || (s.kind == FilterKind && t.kind == TargetKind && e.kind != SourceToFilter && e.kind != OtherEdgeKind)
  }

  ghost predicate FromSourceToFilter(catalog: Catalog, e: CanvasEdge) {
    && e.source in catalog && e.target in catalog
    && catalog[e.source].kind == SourceKind && catalog[e.target].kind == FilterKind
  }

  ghost predicate CarriesDevices(catalog: Catalog, e: CanvasEdge)
    requires e.source in catalog && e.target in catalog
  {
    catalog[e.source].data.SourceData? && catalog[e.target].data.FilterData?
  }

  ghost predicate Foreign(catalog: Catalog, e: CanvasEdge)
    requires e.source in catalog && e.target in catalog && CarriesDevices(catalog, e)
  {
    catalog[e.source].data.deviceId != catalog[e.target].data.deviceId
  }

  lemma KnownEdgeSays(catalog: Catalog, e: CanvasEdge)
    ensures var r := ValidateKnownEdge(catalog, e);
      && (r == None <==> Sound(catalog, e))
      && (r == Some(NodeNotFound) <==> e.source !in catalog || e.target !in catalog)
      && (r == Some(InvalidPayload) <==> FromSourceToFilter(catalog, e) && !CarriesDevices(catalog, e))
      && (r == Some(ForeignDevice) <==> FromSourceToFilter(catalog, e) && CarriesDevices(catalog, e) && Foreign(catalog, e))
      && r != Some(EmptyNodeId) && r != Some(DuplicateEdge)
  {
  }

  // A graph is accepted if and only if every edge is sound and no two join the same ends.
  lemma AcceptedIff(catalog: Catalog, edges: seq<CanvasEdge>)
    ensures FirstError(catalog, edges) == None <==>
      && (forall i :: 0 <= i < |edges| ==> edges[i].source != "" && edges[i].target != "" && Sound(catalog, edges[i]))
      && (forall i, j :: 0 <= i < j < |edges| ==>
            edges[i].source + "\0" + edges[i].target != edges[j].source + "\0" + edges[j].target)
  {
    NoErrorIffAccepts(catalog, edges);
    forall i | 0 <= i < |edges| ensures ValidateKnownEdge(catalog, edges[i]) == None <==> Sound(catalog, edges[i]) {
      KnownEdgeSays(catalog, edges[i]);
    }
    forall i, j | 0 <= i < j < |edges|
      ensures EdgeKey(edges[i]) != EdgeKey(edges[j]) <==>
        edges[i].source + "\0" + edges[i].target != edges[j].source + "\0" + edges[j].target
    {
    }
  }

  // The edge joins ends that an earlier one has joined.
  ghost predicate Repeats(earlier: seq<CanvasEdge>, e: CanvasEdge) {
    exists j :: 0 <= j < |earlier| && earlier[j].source + "\0" + earlier[j].target == e.source + "\0" + e.target
  }

  ghost predicate RefusedFor(catalog: Catalog, earlier: seq<CanvasEdge>, e: CanvasEdge, error: GraphError) {
    && (error == EmptyNodeId <==> e.source == "" || e.target == "")
    && (error == DuplicateEdge <==> e.source != "" && e.target != "" && Repeats(earlier, e))
    && (error != EmptyNodeId && error != DuplicateEdge ==> ValidateKnownEdge(catalog, e) == Some(error))
  }

  lemma EdgeRefused(catalog: Catalog, earlier: seq<CanvasEdge>, e: CanvasEdge)
    ensures var r := ValidateEdge(catalog, Keys(earlier), e);
      r.Some? ==> RefusedFor(catalog, earlier, e, r.value)
  {
    KeysIndexed(earlier, EdgeKey(e));
    KnownEdgeSays(catalog, e);
    assert Repeats(earlier, e) <==> exists j :: 0 <= j < |earlier| && EdgeKey(earlier[j]) == EdgeKey(e);
  }

  // Otherwise the error is that of the first edge that does not join the accepted ones.
  lemma {:induction false} RefusedSays(catalog: Catalog, edges: seq<CanvasEdge>) returns (i: nat)
    requires FirstError(catalog, edges).Some?
    ensures i < |edges| && FirstError(catalog, edges[..i]) == None
    ensures RefusedFor(catalog, edges[..i], edges[i], FirstError(catalog, edges).value)
  {
    i := |edges| - 1;
    var front := edges[..i];
    if FirstError(catalog, front).Some? {
      i := RefusedSays(catalog, front);
      assert front[..i] == edges[..i];
    } else {
      EdgeRefused(catalog, front, edges[i]);
    }
  }

  // ---- canonical edge kinds ----

  function Canonical(catalog: Catalog, e: CanvasEdge): CanvasEdge {
    e.(kind := if e.source in catalog && catalog[e.source].kind.SourceKind? then SourceToFilter else FilterToTarget)
  }

  function CanonicalAll(catalog: Catalog, edges: seq<CanvasEdge>): (r: seq<CanvasEdge>)
    ensures |r| == |edges|
  {
    seq(|edges|, i requires 0 <= i < |edges| => Canonical(catalog, edges[i]))
  }

  // An accepted edge gets the kind its source node calls for.
  lemma CanonicalSays(catalog: Catalog, e: CanvasEdge)
    requires Sound(catalog, e)
    ensures var r := Canonical(catalog, e);
      && r.id == e.id && r.source == e.source && r.target == e.target
      && (catalog[e.source].kind == SourceKind ==> r.kind == SourceToFilter)
      && (catalog[e.source].kind == FilterKind ==> r.kind == FilterToTarget)
      && (e.kind != NoEdgeKind ==> r == e)
  {
  }

  method CanonicalizeEdgeKinds(nodes: seq<CanvasNode>, edges: seq<CanvasEdge>) returns (r: Result<seq<CanvasEdge>, GraphError>)
    ensures r.Ok? <==> Accepts(CatalogOf(nodes), edges)
    ensures r.Ok? ==> r.value == CanonicalAll(CatalogOf(nodes), edges)
    ensures r.Err? ==> FirstError(CatalogOf(nodes), edges) == Some(r.error)
  {
    var error := ValidateEdges(nodes, edges);
    if error.Some? {
      return Err(error.value);
    }
    var result := FillKinds(CatalogOf(nodes), edges);
    r := Ok(result);
  }

  method FillKinds(catalog: Catalog, edges: seq<CanvasEdge>) returns (result: seq<CanvasEdge>)
    ensures result == CanonicalAll(catalog, edges)
  {
    result := [];
    for i := 0 to |edges|
      invariant |result| == i && forall k :: 0 <= k < i ==> result[k] == Canonical(catalog, edges[k])
    {
      result := result + [Canonical(catalog, edges[i])];
    }
  }

  // Canonical edges are accepted again and stay as they are; only kinds were filled in,
  // and none that was stated is contradicted.
  lemma CanonicalIsStable(catalog: Catalog, edges: seq<CanvasEdge>)
    requires Accepts(catalog, edges)
    ensures Accepts(catalog, CanonicalAll(catalog, edges))
    ensures CanonicalAll(catalog, CanonicalAll(catalog, edges)) == CanonicalAll(catalog, edges)
    ensures forall i :: 0 <= i < |edges| ==>
      CanonicalAll(catalog, edges)[i] == edges[i].(kind := CanonicalAll(catalog, edges)[i].kind)
      && (edges[i].kind.NoEdgeKind? || edges[i].kind == CanonicalAll(catalog, edges)[i].kind)
  {
    var r := CanonicalAll(catalog, edges);
    forall i | 0 <= i < |r| ensures ValidateKnownEdge(catalog, r[i]).None? && Canonical(catalog, r[i]) == r[i] {
      assert ValidateKnownEdge(catalog, edges[i]).None?;
    }
    forall i, j | 0 <= i < j < |r| ensures EdgeKey(r[i]) != EdgeKey(r[j]) {
      assert EdgeKey(edges[i]) != EdgeKey(edges[j]);
    }
  }

  // ---- what the compiler can rely on ----

  lemma AcceptedIsDirected(catalog: Catalog, edges: seq<CanvasEdge>)
    requires Accepts(catalog, edges)
    ensures AllDirected(catalog, EdgeSet(edges))
    ensures forall e :: e in EdgeSet(edges) && EntersFilter(catalog, e) ==>
      var s, f := catalog[e.source].data, catalog[e.target].data;
      s.SourceData? && f.FilterData? && s.deviceId == f.deviceId
  {
    forall e | e in EdgeSet(edges)
      ensures Directed(catalog, e)
      ensures EntersFilter(catalog, e) ==>
        var s, f := catalog[e.source].data, catalog[e.target].data;
        s.SourceData? && f.FilterData? && s.deviceId == f.deviceId
    {
      var i :| 0 <= i < |edges| && edges[i] == e;
      assert ValidateKnownEdge(catalog, edges[i]).None?;
    }
  }

  lemma ResolvedWithoutForeigners(catalog: Catalog, edges: seq<CanvasEdge>, f: string)
    requires Accepts(catalog, edges)
    ensures FilterIntent(catalog, EdgeSet(edges), f) != Err(ForeignFilter)
    ensures FilterIntent(catalog, EdgeSet(edges), f) != Err(NodeUnavailable)
  {
    var es := EdgeSet(edges);
    AcceptedIsDirected(catalog, edges);
    if |SourcesOf(catalog, es, f)| == 1 && |TargetsOf(catalog, es, f)| == 1 {
      var s, t := TheOnly(SourcesOf(catalog, es, f)), TheOnly(TargetsOf(catalog, es, f));
      var enters :| enters in es && EntersFilter(catalog, enters) && enters.target == f && enters.source == s;
      var leaves :| leaves in es && LeavesFilter(catalog, leaves) && leaves.source == f && leaves.target == t;
    }
  }

  lemma RenderingKeepsToItsErrors(lib: Library, intent: IntentData)
    requires intent.source.SourceData? && intent.filter.FilterData? && intent.target.TargetData?
    ensures RenderIntent(lib, intent).Err? ==>
      RenderIntent(lib, intent).error in {InvalidSourceIP, InvalidMatch, UnsupportedMatchKind, InvalidTarget}
  {
  }

  lemma ResolvingKeepsToItsErrors(catalog: Catalog, edges: set<CanvasEdge>, f: string)
    ensures FilterIntent(catalog, edges, f).Err? ==>
      FilterIntent(catalog, edges, f).error in {SourceAmbiguous, TargetAmbiguous, NodeUnavailable, NodeDataInvalid, ForeignFilter}
  {
  }

  lemma FilterLineSaysWhy(lib: Library, catalog: Catalog, edges: seq<CanvasEdge>, f: string)
    requires Accepts(catalog, edges)
    ensures FilterLine(lib, catalog, EdgeSet(edges), f).Err? ==>
      FilterLine(lib, catalog, EdgeSet(edges), f).error !in {NodeUnavailable, InvalidEdgeDirection, ForeignFilter}
  {
    ResolvedWithoutForeigners(catalog, edges, f);
    ResolvingKeepsToItsErrors(catalog, EdgeSet(edges), f);
    var intent := FilterIntent(catalog, EdgeSet(edges), f);
    if intent.Ok? {
      RenderingKeepsToItsErrors(lib, intent.value);
    }
  }

  // A graph the validator accepts, compiled over the same nodes, never fails for a
  // missing node, a wrong direction or a foreign filter.
  lemma AcceptedGraphSaysWhy(lib: Library, snapshot: Snapshot, code: Code)
    requires Accepts(CatalogOf(snapshot.nodes), snapshot.edges)
    requires Explains(lib, snapshot, code)
    ensures code !in {NodeUnavailable, InvalidEdgeDirection, ForeignFilter}
  {
    var catalog, edges := CatalogOf(snapshot.nodes), EdgeSet(snapshot.edges);
    AcceptedIsDirected(catalog, snapshot.edges);
    var f :| FilterLine(lib, catalog, edges, f) == Err(code);
    FilterLineSaysWhy(lib, catalog, snapshot.edges, f);
  }

  // Source nodes are named after their devices.
  ghost predicate SourcesNamedByDevice(catalog: Catalog) {
    forall id :: id in catalog && catalog[id].data.SourceData? ==> id == "source:" + catalog[id].data.deviceId
  }

  // Then no filter of an accepted graph has two sources.
  lemma OneSourcePerFilter(catalog: Catalog, edges: seq<CanvasEdge>, f: string)
    requires Accepts(catalog, edges) && SourcesNamedByDevice(catalog)
    ensures |SourcesOf(catalog, EdgeSet(edges), f)| <= 1
  {
    var sources := SourcesOf(catalog, EdgeSet(edges), f);
    AcceptedIsDirected(catalog, edges);
    if sources != {} {
      var s :| s in sources;
      forall x | x in sources ensures x == s {
        var a :| a in EdgeSet(edges) && EntersFilter(catalog, a) && a.target == f && a.source == s;
        var b :| b in EdgeSet(edges) && EntersFilter(catalog, b) && b.target == f && b.source == x;
      }
      assert sources == {s};
    }
  }
}
