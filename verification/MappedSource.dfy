// Canvases that compile and yet route nothing: their one wired device has an IPv4-mapped
// IPv6 address (section 2.5.5.2 of RFC 4291).
module MappedSource {
  import opened Wrappers
  import opened Text
  import opened Library
  import opened Domain
  import opened Compiler
  import opened ConfigMerge
  import opened ConfigMergeLaws
  import opened CompilerProperties
  import opened Routing
  import opened RoutingCorrect

  // One path from a device through a flow to a proxy: the ids of the three nodes, the
  // device's id and address, the observed host and the proxy's name.
  datatype OnePath = OnePath(s: string, f: string, t: string, device: string, ip: string, host: string, proxy: string)

  function SourceNode(p: OnePath): CanvasNode {
    CanvasNode(p.s, SourceKind, SourceData(p.device, p.ip))
  }

  function FilterNode(p: OnePath): CanvasNode {
    CanvasNode(p.f, FilterKind, FilterData(p.f, p.device, MatchSpec(MatchDomain, p.host)))
  }

  function TargetNode(p: OnePath): CanvasNode {
    CanvasNode(p.t, TargetKind, TargetData(p.proxy, true, false))
  }

  function Enter(p: OnePath): CanvasEdge {
    CanvasEdge(p.s, p.s, p.f, SourceToFilter)
  }

  function Leave(p: OnePath): CanvasEdge {
    CanvasEdge(p.t, p.f, p.t, FilterToTarget)
  }

  function SnapshotOf(p: OnePath): Snapshot {
    Snapshot(p.device, 1, [SourceNode(p), FilterNode(p), TargetNode(p)], [Enter(p), Leave(p)])
  }

  function Nodes(p: OnePath): Catalog {
    map[p.s := SourceNode(p), p.f := FilterNode(p), p.t := TargetNode(p)]
  }

  function Edges(p: OnePath): set<CanvasEdge> {
    {Enter(p), Leave(p)}
  }

  predicate ThreeNodes(p: OnePath) {
    p.s != p.f && p.s != p.t && p.f != p.t
  }

  lemma PathCatalog(p: OnePath)
    ensures CatalogOf(SnapshotOf(p).nodes) == Nodes(p) && EdgeSet(SnapshotOf(p).edges) == Edges(p)
  {
    var nodes := SnapshotOf(p).nodes;
    assert nodes[..2] == [SourceNode(p), FilterNode(p)] && nodes[..2][..1] == [SourceNode(p)] && nodes[..2][..1][..0] == [];
    assert CatalogOf(nodes) == CatalogOf(nodes[..2])[p.t := TargetNode(p)];
    assert CatalogOf(nodes[..2]) == CatalogOf(nodes[..2][..1])[p.f := FilterNode(p)];
    assert CatalogOf(nodes[..2][..1]) == CatalogOf(nodes[..2][..1][..0])[p.s := SourceNode(p)];
  }

  lemma PathWiring(p: OnePath)
    requires ThreeNodes(p)
    ensures AllDirected(Nodes(p), Edges(p)) && WiredFilters(Nodes(p), Edges(p)) == {p.f}
    ensures SourcesOf(Nodes(p), Edges(p), p.f) == {p.s} && TargetsOf(Nodes(p), Edges(p), p.f) == {p.t}
    ensures Path(Nodes(p), Edges(p), p.s, p.f, p.t)
  {
    var catalog := Nodes(p);
    assert EntersFilter(catalog, Enter(p)) && !LeavesFilter(catalog, Enter(p));
    assert LeavesFilter(catalog, Leave(p)) && !EntersFilter(catalog, Leave(p));
    assert Enter(p) in Edges(p) && Leave(p) in Edges(p);
  }

  lemma OnlyPath(p: OnePath, s: string, f: string, t: string)
    requires ThreeNodes(p) && Path(Nodes(p), Edges(p), s, f, t)
    ensures s == p.s && f == p.f && t == p.t
  {
  }

  lemma PathIntent(p: OnePath)
    requires ThreeNodes(p)
    ensures FilterIntent(Nodes(p), Edges(p), p.f) == Ok(IntentData(SourceNode(p).data, FilterNode(p).data, TargetNode(p).data))
  {
    PathWiring(p);
    Singleton(SourcesOf(Nodes(p), Edges(p), p.f), p.s);
    Singleton(TargetsOf(Nodes(p), Edges(p), p.f), p.t);
  }

  // Address, host and proxy are what the compiler asks for.
  predicate Renders(lib: Library, p: OnePath) {
    && lib.parseAddr(TrimSpace(p.ip)).Some?
    && MihomoMatch(lib, MatchSpec(MatchDomain, p.host)) == Ok(Matcher(DomainType, p.host))
    && ValidTargetName(p.proxy)
  }

  lemma PathLine(lib: Library, p: OnePath) returns (l: Line)
    requires ThreeNodes(p) && Renders(lib, p)
    ensures FilterLine(lib, Nodes(p), Edges(p), p.f) == Ok(l) && l.target == p.proxy
  {
    PathIntent(p);
    var intent := IntentData(SourceNode(p).data, FilterNode(p).data, TargetNode(p).data);
    assert SourceCidr(lib, p.ip).Ok?;
    l := RenderIntent(lib, intent).value;
    RenderedTarget(lib, intent);
  }

  lemma PathCompiles(lib: Library, p: OnePath)
    requires ThreeNodes(p) && Renders(lib, p)
    ensures Compiled(lib, SnapshotOf(p)).Some? && TargetNames(CanvasLines(lib, SnapshotOf(p))) == {p.proxy}
  {
    PathCatalog(p);
    PathCompilable(lib, p);
  }

  lemma PathCompilable(lib: Library, p: OnePath)
    requires ThreeNodes(p) && Renders(lib, p)
    ensures Compilable(lib, Nodes(p), Edges(p)) && TargetNames(LinesOf(OutcomesOf(lib, Nodes(p), Edges(p)))) == {p.proxy}
  {
    PathWiring(p);
    var l := PathLine(lib, p);
    LineIsAll(OutcomesOf(lib, Nodes(p), Edges(p)), p.f, l);
  }

  lemma LineIsAll(outcomes: Outcomes, f: string, l: Line)
    requires outcomes.Keys == {f} && outcomes[f] == Ok(l)
    ensures Failing(outcomes) == {} && TargetNames(LinesOf(outcomes)) == {l.target}
  {
    assert f in outcomes;
    assert LinesOf(outcomes) == {l};
    assert l in LinesOf(outcomes);
  }

  // The canvas compiles and wants the device's traffic at its proxy, but serves no packet.
  lemma MappedSourceServesNothing(lib: Library, p: OnePath, a: Address, pkt: Packet)
    requires ThreeNodes(p) && Renders(lib, p) && lib.parseAddr(TrimSpace(p.ip)) == Some(a) && IsMapped(a)
    ensures Compiled(lib, SnapshotOf(p)).Some?
    ensures Wanted(lib, SnapshotOf(p), Packet(Unmap(a), p.host), p.proxy)
    ensures forall t :: !Served(lib, SnapshotOf(p), pkt, t)
  {
    PathCompiles(lib, p);
    PathCatalog(p);
    PathIsWanted(lib, p, a);
    forall s, f, t | Path(Nodes(p), Edges(p), s, f, t) ensures s == p.s && f == p.f && t == p.t {
      OnlyPath(p, s, f, t);
    }
  }

  lemma PathIsWanted(lib: Library, p: OnePath, a: Address)
    requires ThreeNodes(p) && Renders(lib, p) && lib.parseAddr(TrimSpace(p.ip)) == Some(a) && IsMapped(a)
    ensures Path(Nodes(p), Edges(p), p.s, p.f, p.t)
    ensures PathMatches(lib, Nodes(p), p.s, p.f, p.t, Packet(Unmap(a), p.host), p.proxy)
  {
    PathWiring(p);
    MatchedHost(lib, p.host);
  }

  lemma MatchedHost(lib: Library, host: string)
    requires MihomoMatch(lib, MatchSpec(MatchDomain, host)) == Ok(Matcher(DomainType, host))
    ensures MatchesHost(lib, MatchSpec(MatchDomain, host), host)
  {
  }

  // So the merged configuration decides every packet as the base does.
  lemma MappedSourceRoutesNothing(lib: Library, p: OnePath, a: Address, user: UserSemantics, root: seq<Entry>, pkt: Packet)
    requires LawfulAddresses(lib) && Distinguishes(lib, "flowcanvas", {p.proxy})
    requires ThreeNodes(p) && Renders(lib, p) && lib.parseAddr(TrimSpace(p.ip)) == Some(a) && IsMapped(a)
    ensures Compiled(lib, SnapshotOf(p)).Some?
    ensures var merged := MergeEntries(root, Compiled(lib, SnapshotOf(p)).value);
      merged.Ok? ==> Route(lib, user, merged.value, pkt) == RouteUser(user, root, pkt)
  {
    PathCompiles(lib, p);
    MappedSourceServesNothing(lib, p, a, pkt);
    if MergeEntries(root, Compiled(lib, SnapshotOf(p)).value).Ok? {
      MergedMeaning(lib, user, SnapshotOf(p), root, pkt);
    }
  }

  // There are such canvases.
  lemma SomePathRenders(lib: Library, ip: string)
    requires MapChars(lib.toLower, "a.b") == "a.b" && lib.parseAddr("a.b").None? && lib.parseAddr(TrimSpace(ip)).Some?
    ensures var p := OnePath("s", "f", "t", "d", ip, "a.b", "p"); ThreeNodes(p) && Renders(lib, p)
  {
    Trimmed("a.b");
    Trimmed("p");
    assert SafeText("a.b") && SafeText("p");
  }
}
