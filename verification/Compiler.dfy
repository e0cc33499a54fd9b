// Compilation of a Source -> Filter -> Target canvas into grouped, ordered rules.
module Compiler {
  import opened Wrappers
  import opened Text
  import opened Library
  import opened Domain

  const MANAGED_PREFIX := "flowcanvas-"

  datatype Code =
    | NodeUnavailable
    | InvalidEdgeDirection
    | SourceAmbiguous
    | TargetAmbiguous
    | NodeDataInvalid
    | ForeignFilter
    | InvalidSourceIP
    | InvalidMatch
    | UnsupportedMatchKind
    | InvalidTarget

  // ---- one intent ----

  datatype IntentData = IntentData(source: NodeData, filter: NodeData, target: NodeData)

  function ResolveIntentNodes(catalog: Catalog, sourceId: string, filterId: string, targetId: string)
    : (r: Result<IntentData, Code>)
    ensures r.Ok? ==>
      && r.value.source.SourceData? && r.value.filter.FilterData? && r.value.target.TargetData?
      && r.value.source.deviceId == r.value.filter.deviceId
  {
    if sourceId !in catalog || filterId !in catalog || targetId !in catalog then Err(NodeUnavailable)
    else
      var source, filter, target := catalog[sourceId].data, catalog[filterId].data, catalog[targetId].data;
      if !source.SourceData? || !filter.FilterData? || !target.TargetData? then Err(NodeDataInvalid)
      else if source.deviceId != filter.deviceId then Err(ForeignFilter)
      else Ok(IntentData(source, filter, target))
  }

  function SourceCidr(lib: Library, rawIP: string): Result<string, Code> {
    match lib.parseAddr(TrimSpace(rawIP))
    case None => Err(InvalidSourceIP)
    case Some(a) => Ok(PrefixText(lib, Unmap(a), if a.V4? then WIDTH4 else WIDTH6))
  }

  const SEPARATORS := ",\r\n\0"

  predicate SafeText(s: string) {
    Free(s, SEPARATORS) && !ContainsControl(s)
  }

  function MatchValue(lib: Library, m: MatchSpec): string {
    TrimSpace(ToLower(lib, m.value))
  }

  datatype MatchType = DomainType | SuffixType | KeywordType

  function TypeText(t: MatchType): string {
    match t
    case DomainType => "DOMAIN"
    case SuffixType => "DOMAIN-SUFFIX"
    case KeywordType => "DOMAIN-KEYWORD"
  }

  datatype Matcher = Matcher(type_: MatchType, value: string)

  function MihomoMatch(lib: Library, m: MatchSpec): Result<Matcher, Code> {
    var value := MatchValue(lib, m);
    if value == "" || !SafeText(value) then Err(InvalidMatch)
    else match m.kind
      case MatchDomain => if lib.parseAddr(value).Some? then Err(InvalidMatch) else Ok(Matcher(DomainType, value))
      case MatchSuffix => Ok(Matcher(SuffixType, TrimPrefix(value, ".")))
      case MatchKeyword => Ok(Matcher(KeywordType, value))
      case OtherMatch => Err(UnsupportedMatchKind)
  }

  predicate ValidTargetName(name: string) {
    TrimSpace(name) != "" && SafeText(name)
  }

  function RuleText(prefix: string, matchType: string, value: string): string {
    "AND,((SRC-IP-CIDR," + prefix + "),(" + matchType + "," + value + "))"
  }

  // What one wired filter contributes: a rule for a target, and whether that target is
  // currently unavailable.
  datatype Line = Line(target: string, rule: string, unavailable: bool)

  function RenderIntent(lib: Library, intent: IntentData): Result<Line, Code>
    requires intent.source.SourceData? && intent.filter.FilterData? && intent.target.TargetData?
  {
    var prefix := SourceCidr(lib, intent.source.ip);
    var match_ := MihomoMatch(lib, intent.filter.match_);
    var name := intent.target.proxyName;
    if prefix.Err? then Err(prefix.error)
    else if match_.Err? then Err(match_.error)
    else if !ValidTargetName(name) then Err(InvalidTarget)
    else
      Ok(Line(name, RuleText(prefix.value, TypeText(match_.value.type_), match_.value.value), !intent.target.alive || intent.target.inactive))
  }

  // ---- the wiring of a canvas, independent of the order of its edges ----

  function EdgeSet(edges: seq<CanvasEdge>): set<CanvasEdge> {
    set e | e in edges
  }

  predicate Present(catalog: Catalog, e: CanvasEdge) {
    e.source in catalog && e.target in catalog
  }

  predicate EntersFilter(catalog: Catalog, e: CanvasEdge) {
    Present(catalog, e) && catalog[e.source].kind.SourceKind? && catalog[e.target].kind.FilterKind?
  }

  predicate LeavesFilter(catalog: Catalog, e: CanvasEdge) {
    Present(catalog, e) && catalog[e.source].kind.FilterKind? && catalog[e.target].kind.TargetKind?
  }

  predicate Directed(catalog: Catalog, e: CanvasEdge) {
    EntersFilter(catalog, e) || LeavesFilter(catalog, e)
  }

  // The error an edge that is not Source -> Filter or Filter -> Target deserves.
  function Undirected(catalog: Catalog, e: CanvasEdge): Option<Code> {
    if !Present(catalog, e) then Some(NodeUnavailable)
    else if !Directed(catalog, e) then Some(InvalidEdgeDirection)
    else None
  }

  function SourcesOf(catalog: Catalog, edges: set<CanvasEdge>, filter: string): set<string> {
    set e | e in edges && EntersFilter(catalog, e) && e.target == filter :: e.source
  }

  function TargetsOf(catalog: Catalog, edges: set<CanvasEdge>, filter: string): set<string> {
    set e | e in edges && LeavesFilter(catalog, e) && e.source == filter :: e.target
  }

  function WiredFilters(catalog: Catalog, edges: set<CanvasEdge>): set<string> {
    (set e | e in edges && EntersFilter(catalog, e) :: e.target) +
    (set e | e in edges && LeavesFilter(catalog, e) :: e.source)
  }

  ghost function TheOnly(s: set<string>): string
    requires |s| == 1
  {
    var x :| x in s; x
  }

  // The nodes a wired filter connects.
  ghost function FilterIntent(catalog: Catalog, edges: set<CanvasEdge>, filter: string): (r: Result<IntentData, Code>)
    ensures r.Ok? ==> r.value.source.SourceData? && r.value.filter.FilterData? && r.value.target.TargetData?
  {
    var sources, targets := SourcesOf(catalog, edges, filter), TargetsOf(catalog, edges, filter);
    if |sources| != 1 then Err(SourceAmbiguous)
    else if |targets| != 1 then Err(TargetAmbiguous)
    else ResolveIntentNodes(catalog, TheOnly(sources), filter, TheOnly(targets))
  }

  ghost function FilterLine(lib: Library, catalog: Catalog, edges: set<CanvasEdge>, filter: string): Result<Line, Code> {
    var intent := FilterIntent(catalog, edges, filter);
    if intent.Err? then Err(intent.error) else RenderIntent(lib, intent.value)
  }

  ghost predicate AllDirected(catalog: Catalog, edges: set<CanvasEdge>) {
    forall e :: e in edges ==> Directed(catalog, e)
  }

  // The outcome of every wired filter.
  type Outcomes = map<string, Result<Line, Code>>

  ghost function OutcomesOf(lib: Library, catalog: Catalog, edges: set<CanvasEdge>): Outcomes {
    map f | f in WiredFilters(catalog, edges) :: FilterLine(lib, catalog, edges, f)
  }

  function Failing(outcomes: Outcomes): set<string> {
    set f | f in outcomes && outcomes[f].Err?
  }

  function LinesOf(outcomes: Outcomes): set<Line> {
    set f | f in outcomes && outcomes[f].Ok? :: outcomes[f].value
  }

  ghost predicate Compilable(lib: Library, catalog: Catalog, edges: set<CanvasEdge>) {
    AllDirected(catalog, edges) && Failing(OutcomesOf(lib, catalog, edges)) == {}
  }

  // ---- the preview of a set of lines ----

  function TargetNames(lines: set<Line>): set<string> {
    set l | l in lines :: l.target
  }

  function RulesFor(lines: set<Line>, target: string): set<string> {
    set l | l in lines && l.target == target :: l.rule
  }

  function Notices(lib: Library, lines: set<Line>): set<string> {
    set l | l in lines && l.unavailable :: lib.unavailableNotice(l.target)
  }

  function ProviderName(lib: Library, target: string): string {
    StableId(lib, "flowcanvas", target)
  }

  function RuleSetText(lib: Library, target: string): string {
    "RULE-SET," + ProviderName(lib, target) + "," + target
  }

  ghost function Providers(lib: Library, lines: set<Line>, names: seq<string>): (r: seq<Provider>)
    ensures |r| == |names|
  {
    seq(|names|, i requires 0 <= i < |names| =>
      Provider(ProviderName(lib, names[i]), names[i], SortedKeys(RulesFor(lines, names[i]))))
  }

  function RuleSets(lib: Library, names: seq<string>): (r: seq<string>)
    ensures |r| == |names|
  {
    seq(|names|, i requires 0 <= i < |names| => RuleSetText(lib, names[i]))
  }

  function ProviderNode(payload: seq<string>): Node {
    Mapping([
      Entry(Scalar("type"), Scalar("inline")),
      Entry(Scalar("behavior"), Scalar("classical")),
      Entry(Scalar("payload"), SequenceNode(payload))])
  }

  function Scalars(values: seq<string>): (r: seq<Node>)
    ensures |r| == |values|
  {
    seq(|values|, i requires 0 <= i < |values| => Scalar(values[i]))
  }

  function SequenceNode(values: seq<string>): Node {
    Sequence(Scalars(values))
  }

  function ProviderEntries(providers: seq<Provider>): (r: seq<Entry>)
    ensures |r| == |providers|
  {
    seq(|providers|, i requires 0 <= i < |providers| =>
      Entry(Scalar(providers[i].name), ProviderNode(providers[i].payload)))
  }

  function OverlayNode(providers: seq<Provider>, rules: seq<string>): Node {
    Mapping([
      Entry(Scalar("rule-providers"), Mapping(ProviderEntries(providers))),
      Entry(Scalar("rules"), SequenceNode(rules))])
  }

  // Providers and rules depend on the lines only: one provider per target, targets and
  // payloads strictly sorted.
  ghost function PreviewOf(lib: Library, canvasId: string, revision: int, lines: set<Line>): Preview {
    var names := SortedKeys(TargetNames(lines));
    var providers, rules := Providers(lib, lines, names), RuleSets(lib, names);
    var managed := lib.emitYaml(OverlayNode(providers, rules));
    Preview(canvasId, revision, providers, rules, managed, lib.contentHash(managed), SortedKeys(Notices(lib, lines)))
  }

  ghost function CanvasLines(lib: Library, snapshot: Snapshot): set<Line> {
    var catalog, edges := CatalogOf(snapshot.nodes), EdgeSet(snapshot.edges);
    LinesOf(OutcomesOf(lib, catalog, edges))
  }

  // The specification of Compile: what it returns when it succeeds.
  ghost function Compiled(lib: Library, snapshot: Snapshot): Option<Preview> {
    if Compilable(lib, CatalogOf(snapshot.nodes), EdgeSet(snapshot.edges))
    then Some(PreviewOf(lib, snapshot.canvasId, snapshot.revision, CanvasLines(lib, snapshot)))
    else None
  }

  // The first edge in order that is not Source -> Filter or Filter -> Target.
  ghost predicate FirstUndirected(catalog: Catalog, edges: seq<CanvasEdge>, code: Code) {
    exists i :: 0 <= i < |edges| && Undirected(catalog, edges[i]) == Some(code) && forall k :: 0 <= k < i ==> Directed(catalog, edges[k])
  }

  // Why a compilation failed: the first undirected edge, or else the least failing filter.
  ghost predicate Explains(lib: Library, snapshot: Snapshot, code: Code) {
    var catalog, edges := CatalogOf(snapshot.nodes), EdgeSet(snapshot.edges);
    if AllDirected(catalog, edges) then
      exists f :: IsLeast(f, Failing(OutcomesOf(lib, catalog, edges))) && FilterLine(lib, catalog, edges, f) == Err(code)
    else FirstUndirected(catalog, snapshot.edges, code)
  }
}
