// The compiler's loops, verified against the order-free specification in Compiler.dfy.
module CompilerLoops {
  import opened Wrappers
  import opened Text
  import opened Library
  import opened Domain
  import opened Compiler

  function Elements(values: seq<string>): set<string> {
    set v | v in values
  }

  method UniqueSorted(values: seq<string>) returns (r: seq<string>)
    ensures r == SortedKeys(Elements(values))
  {
    var unique: set<string> := {};
    for i := 0 to |values|
      invariant unique == Elements(values[..i])
    {
      unique := unique + {values[i]};
      assert values[..i + 1] == values[..i] + [values[i]];
    }
    assert values[..|values|] == values;
    r := MapKeysSorted(unique);
  }

  lemma {:induction false} SortedKeysSize(s: set<string>)
    ensures |SortedKeys(s)| == |s|
  {
    var r := SortedKeys(s);
    Counted(r, s);
  }

  lemma {:induction false} Counted(r: seq<string>, s: set<string>)
    requires Sorted(r) && forall x :: x in r <==> x in s
    ensures |r| == |s|
  {
    if r == [] {
      assert s == {};
    } else {
      assert r[0] in r;
      forall x ensures x in r[1..] <==> x in s - {r[0]} {
        TailMember(r, x);
      }
      Counted(r[1..], s - {r[0]});
    }
  }

  lemma OnlyOne(s: set<string>)
    requires |s| == 1
    ensures SortedKeys(s) == [TheOnly(s)]
  {
    SortedKeysSize(s);
    var x := TheOnly(s);
    assert s - {x} == {} by {
      assert |s - {x}| == 0;
    }
    assert SortedKeys(s)[0] in SortedKeys(s);
  }

  // ---- grouping the edges by filter ----

  ghost predicate GroupAt(m: map<string, seq<string>>, f: string, s: set<string>) {
    if f in m then m[f] != [] && Elements(m[f]) == s else s == {}
  }

  ghost predicate GroupsSources(m: map<string, seq<string>>, catalog: Catalog, edges: set<CanvasEdge>) {
    forall f :: GroupAt(m, f, SourcesOf(catalog, edges, f))
  }

  ghost predicate GroupsTargets(m: map<string, seq<string>>, catalog: Catalog, edges: set<CanvasEdge>) {
    forall f :: GroupAt(m, f, TargetsOf(catalog, edges, f))
  }

  function Append(m: map<string, seq<string>>, f: string, x: string): map<string, seq<string>> {
    m[f := (if f in m then m[f] else []) + [x]]
  }

  lemma AppendAt(m: map<string, seq<string>>, g: string, x: string, f: string, s: set<string>)
    requires GroupAt(m, f, s)
    ensures GroupAt(Append(m, g, x), f, s + if f == g then {x} else {})
  {
    if f == g {
      var xs := if f in m then m[f] else [];
      assert Elements(xs + [x]) == Elements(xs) + {x};
    }
  }

  lemma OneMoreEdge(catalog: Catalog, edges: set<CanvasEdge>, e: CanvasEdge, f: string)
    ensures SourcesOf(catalog, edges + {e}, f) ==
      SourcesOf(catalog, edges, f) + if EntersFilter(catalog, e) && e.target == f then {e.source} else {}
    ensures TargetsOf(catalog, edges + {e}, f) ==
      TargetsOf(catalog, edges, f) + if LeavesFilter(catalog, e) && e.source == f then {e.target} else {}
  {
    var more := edges + {e};
    assert e in more;
    forall x | x in SourcesOf(catalog, edges, f) ensures x in SourcesOf(catalog, more, f) {
      var y :| y in edges && EntersFilter(catalog, y) && y.target == f && y.source == x;
      assert y in more;
    }
    forall x | x in TargetsOf(catalog, edges, f) ensures x in TargetsOf(catalog, more, f) {
      var y :| y in edges && LeavesFilter(catalog, y) && y.source == f && y.target == x;
      assert y in more;
    }
  }

  lemma GroupOneMore(sources: map<string, seq<string>>, targets: map<string, seq<string>>, catalog: Catalog, edges: set<CanvasEdge>, e: CanvasEdge)
    requires GroupsSources(sources, catalog, edges) && GroupsTargets(targets, catalog, edges) && Directed(catalog, e)
    ensures EntersFilter(catalog, e) ==>
      GroupsSources(Append(sources, e.target, e.source), catalog, edges + {e}) && GroupsTargets(targets, catalog, edges + {e})
    ensures LeavesFilter(catalog, e) ==>
      GroupsSources(sources, catalog, edges + {e}) && GroupsTargets(Append(targets, e.source, e.target), catalog, edges + {e})
  {
    forall f
      ensures EntersFilter(catalog, e) ==> GroupAt(Append(sources, e.target, e.source), f, SourcesOf(catalog, edges + {e}, f))
      ensures EntersFilter(catalog, e) ==> GroupAt(targets, f, TargetsOf(catalog, edges + {e}, f))
      ensures LeavesFilter(catalog, e) ==> GroupAt(sources, f, SourcesOf(catalog, edges + {e}, f))
      ensures LeavesFilter(catalog, e) ==> GroupAt(Append(targets, e.source, e.target), f, TargetsOf(catalog, edges + {e}, f))
    {
      OneMoreEdge(catalog, edges, e, f);
      assert GroupAt(sources, f, SourcesOf(catalog, edges, f));
      assert GroupAt(targets, f, TargetsOf(catalog, edges, f));
      AppendAt(sources, e.target, e.source, f, SourcesOf(catalog, edges, f));
      AppendAt(targets, e.source, e.target, f, TargetsOf(catalog, edges, f));
    }
  }

  method GroupEdges(catalog: Catalog, edges: seq<CanvasEdge>)
    returns (r: Result<(map<string, seq<string>>, map<string, seq<string>>), Code>)
    ensures r.Ok? <==> AllDirected(catalog, EdgeSet(edges))
    ensures r.Ok? ==> GroupsSources(r.value.0, catalog, EdgeSet(edges)) && GroupsTargets(r.value.1, catalog, EdgeSet(edges))
    ensures r.Err? ==> FirstUndirected(catalog, edges, r.error)
  {
    var sources: map<string, seq<string>>, targets: map<string, seq<string>> := map[], map[];
    for i := 0 to |edges|
      invariant AllDirected(catalog, EdgeSet(edges[..i]))
      invariant GroupsSources(sources, catalog, EdgeSet(edges[..i]))
      invariant GroupsTargets(targets, catalog, EdgeSet(edges[..i]))
    {
      var edge := edges[i];
      assert edge in EdgeSet(edges);
      assert forall k :: 0 <= k < i ==> edges[..i][k] == edges[k] && edges[k] in EdgeSet(edges[..i]);
      assert EdgeSet(edges[..i + 1]) == EdgeSet(edges[..i]) + {edge} by {
        assert edges[..i + 1] == edges[..i] + [edge];
      }
      if edge.source !in catalog || edge.target !in catalog {
        return Err(NodeUnavailable);
      }
      var source, target := catalog[edge.source], catalog[edge.target];
      if source.kind.SourceKind? && target.kind.FilterKind? {
        GroupOneMore(sources, targets, catalog, EdgeSet(edges[..i]), edge);
        sources := Append(sources, edge.target, edge.source);
      } else if source.kind.FilterKind? && target.kind.TargetKind? {
        GroupOneMore(sources, targets, catalog, EdgeSet(edges[..i]), edge);
        targets := Append(targets, edge.source, edge.target);
      } else {
        return Err(InvalidEdgeDirection);
      }
    }
    assert edges[..|edges|] == edges;
    r := Ok((sources, targets));
  }

  lemma GroupedFilters(sources: map<string, seq<string>>, targets: map<string, seq<string>>, catalog: Catalog, edges: set<CanvasEdge>)
    requires GroupsSources(sources, catalog, edges) && GroupsTargets(targets, catalog, edges)
    ensures sources.Keys + targets.Keys == WiredFilters(catalog, edges)
  {
    forall f ensures f in sources.Keys + targets.Keys <==> f in WiredFilters(catalog, edges) {
      assert GroupAt(sources, f, SourcesOf(catalog, edges, f));
      assert GroupAt(targets, f, TargetsOf(catalog, edges, f));
      if f in sources {
        assert sources[f][0] in Elements(sources[f]);
      }
      if f in targets {
        assert targets[f][0] in Elements(targets[f]);
      }
      if f in WiredFilters(catalog, edges) {
        var e :| e in edges && ((EntersFilter(catalog, e) && e.target == f) || (LeavesFilter(catalog, e) && e.source == f));
        assert EntersFilter(catalog, e) && e.target == f ==> e.source in SourcesOf(catalog, edges, f);
        assert LeavesFilter(catalog, e) && e.source == f ==> e.target in TargetsOf(catalog, edges, f);
      }
    }
  }

  // ---- compiling the wired filters in order ----

  ghost predicate GroupsRules(m: map<string, set<string>>, lines: set<Line>) {
    m.Keys == TargetNames(lines) && forall t :: t in m ==> m[t] == RulesFor(lines, t)
  }

  lemma OneMoreTarget(lines: set<Line>, l: Line)
    ensures TargetNames(lines + {l}) == TargetNames(lines) + {l.target}
  {
    var more := lines + {l};
    assert l in more;
    forall t | t in TargetNames(lines) ensures t in TargetNames(more) {
      var x :| x in lines && x.target == t;
      assert x in more;
    }
  }

  lemma OneMoreRule(lines: set<Line>, l: Line, t: string)
    ensures RulesFor(lines + {l}, t) == RulesFor(lines, t) + if t == l.target then {l.rule} else {}
    ensures t !in TargetNames(lines) ==> RulesFor(lines, t) == {}
  {
    var more := lines + {l};
    assert l in more;
    forall r | r in RulesFor(lines, t) ensures r in RulesFor(more, t) && t in TargetNames(lines) {
      var x :| x in lines && x.target == t && x.rule == r;
      assert x in more;
    }
  }

  lemma OneMoreNotice(lib: Library, lines: set<Line>, l: Line)
    ensures Notices(lib, lines + {l}) == Notices(lib, lines) + if l.unavailable then {lib.unavailableNotice(l.target)} else {}
  {
    var more := lines + {l};
    assert l in more;
    forall n | n in Notices(lib, lines) ensures n in Notices(lib, more) {
      var x :| x in lines && x.unavailable && lib.unavailableNotice(x.target) == n;
      assert x in more;
    }
  }

  lemma OneMoreLine(lib: Library, m: map<string, set<string>>, lines: set<Line>, l: Line)
    requires GroupsRules(m, lines)
    ensures GroupsRules(AddRule(m, l), lines + {l})
    ensures Notices(lib, lines + {l}) == Notices(lib, lines) + if l.unavailable then {lib.unavailableNotice(l.target)} else {}
  {
    OneMoreTarget(lines, l);
    OneMoreNotice(lib, lines, l);
    OneMoreRule(lines, l, l.target);
    forall t | t in AddRule(m, l) ensures AddRule(m, l)[t] == RulesFor(lines + {l}, t) {
      OneMoreRule(lines, l, t);
    }
  }

  ghost predicate Describes(outcomes: Outcomes, lib: Library, catalog: Catalog, edges: set<CanvasEdge>) {
    && outcomes.Keys == WiredFilters(catalog, edges)
    && forall f {:trigger Named(f)} :: f in outcomes ==> outcomes[f] == FilterLine(lib, catalog, edges, f)
  }

  // One iteration of the filter loop: the two uniqueness checks, then the intent.
  method CompileFilter(lib: Library, catalog: Catalog, sources: map<string, seq<string>>, targets: map<string, seq<string>>,
                       f: string, ghost edges: set<CanvasEdge>, ghost outcomes: Outcomes)
    returns (r: Result<Line, Code>)
    requires GroupsSources(sources, catalog, edges) && GroupsTargets(targets, catalog, edges)
    requires Describes(outcomes, lib, catalog, edges) && f in outcomes
    ensures r == outcomes[f]
  {
    assert Named(f);
    assert GroupAt(sources, f, SourcesOf(catalog, edges, f)) && GroupAt(targets, f, TargetsOf(catalog, edges, f));
    var ss := UniqueSorted(if f in sources then sources[f] else []);
    var ts := UniqueSorted(if f in targets then targets[f] else []);
    SortedKeysSize(SourcesOf(catalog, edges, f));
    SortedKeysSize(TargetsOf(catalog, edges, f));
    assert Elements([]) == {};
    if |ss| != 1 {
      return Err(SourceAmbiguous);
    }
    if |ts| != 1 {
      return Err(TargetAmbiguous);
    }
    OnlyOne(SourcesOf(catalog, edges, f));
    OnlyOne(TargetsOf(catalog, edges, f));
    var intent := ResolveIntentNodes(catalog, ss[0], f, ts[0]);
    if intent.Err? {
      return Err(intent.error);
    }
    r := RenderIntent(lib, intent.value);
  }

  // What the first i filters in order have contributed.
  ghost predicate CompiledUpTo(outcomes: Outcomes, lib: Library, ordered: seq<string>, i: nat,
                               rulesByTarget: map<string, set<string>>, warnings: set<string>)
  {
    && i <= |ordered|
    && (forall x :: x in ordered <==> x in outcomes)
    && (forall k :: 0 <= k < i ==> outcomes[ordered[k]].Ok?)
    && var lines := LinesOf(Restricted(outcomes, ordered[..i]));
       GroupsRules(rulesByTarget, lines) && warnings == Notices(lib, lines)
  }

  function Restricted(outcomes: Outcomes, filters: seq<string>): Outcomes {
    map f | f in filters && f in outcomes :: outcomes[f]
  }

  lemma OneMoreCompiled(outcomes: Outcomes, lib: Library, ordered: seq<string>, i: nat,
                        rulesByTarget: map<string, set<string>>, warnings: set<string>)
    requires i < |ordered| && ordered[i] in outcomes && outcomes[ordered[i]].Ok?
    requires CompiledUpTo(outcomes, lib, ordered, i, rulesByTarget, warnings)
    ensures var line := outcomes[ordered[i]].value;
      CompiledUpTo(outcomes, lib, ordered, i + 1, AddRule(rulesByTarget, line),
        warnings + if line.unavailable then {lib.unavailableNotice(line.target)} else {})
  {
    var f, line := ordered[i], outcomes[ordered[i]].value;
    var before, after := Restricted(outcomes, ordered[..i]), Restricted(outcomes, ordered[..i + 1]);
    OneMoreLine(lib, rulesByTarget, LinesOf(before), line);
    assert ordered[..i + 1] == ordered[..i] + [f];
    assert f in after;
    forall l | l in LinesOf(before) ensures l in LinesOf(after) {
      var g :| g in before && before[g] == Ok(l);
      assert g in after;
    }
    assert LinesOf(after) == LinesOf(before) + {line};
  }

  method CompileFilters(lib: Library, catalog: Catalog, sources: map<string, seq<string>>, targets: map<string, seq<string>>,
                        ghost edges: set<CanvasEdge>, ghost outcomes: Outcomes)
    returns (r: Result<(map<string, set<string>>, set<string>), Code>)
    requires GroupsSources(sources, catalog, edges) && GroupsTargets(targets, catalog, edges)
    requires Describes(outcomes, lib, catalog, edges)
    ensures FilterResult(r, lib, outcomes)
  {
    var ordered := OrderedFilters(catalog, sources, targets, edges, outcomes);
    var rulesByTarget: map<string, set<string>>, warnings: set<string> := map[], {};
    for i := 0 to |ordered|
      invariant CompiledUpTo(outcomes, lib, ordered, i, rulesByTarget, warnings)
    {
      var f := ordered[i];
      var compiled := CompileFilter(lib, catalog, sources, targets, f, edges, outcomes);
      if compiled.Err? {
        LeastFailing(outcomes, ordered, i);
        return Err(compiled.error);
      }
      var line := compiled.value;
      OneMoreCompiled(outcomes, lib, ordered, i, rulesByTarget, warnings);
      if line.unavailable {
        warnings := warnings + {lib.unavailableNotice(line.target)};
      }
      rulesByTarget := AddRule(rulesByTarget, line);
    }
    AllCompiled(outcomes, lib, ordered, rulesByTarget, warnings);
    r := Ok((rulesByTarget, warnings));
  }

  method OrderedFilters(catalog: Catalog, sources: map<string, seq<string>>, targets: map<string, seq<string>>,
                        ghost edges: set<CanvasEdge>, ghost outcomes: Outcomes)
    returns (ordered: seq<string>)
    requires GroupsSources(sources, catalog, edges) && GroupsTargets(targets, catalog, edges)
    requires outcomes.Keys == WiredFilters(catalog, edges)
    ensures Sorted(ordered) && forall i :: 0 <= i < |ordered| ==> ordered[i] in outcomes
    ensures forall x :: x in ordered <==> x in outcomes
  {
    GroupedFilters(sources, targets, catalog, edges);
    ordered := MapKeysSorted(sources.Keys + targets.Keys);
    assert forall i :: 0 <= i < |ordered| ==> ordered[i] in ordered;
  }

  // All lines grouped, or the error of the least failing filter.
  ghost predicate FilterResult(r: Result<(map<string, set<string>>, set<string>), Code>, lib: Library, outcomes: Outcomes) {
    match r
    case Ok((rulesByTarget, warnings)) =>
      && Failing(outcomes) == {}
      && GroupsRules(rulesByTarget, LinesOf(outcomes))
      && warnings == Notices(lib, LinesOf(outcomes))
    case Err(code) =>
      exists f :: IsLeast(f, Failing(outcomes)) && outcomes[f] == Err(code)
  }

  lemma AllCompiled(outcomes: Outcomes, lib: Library, ordered: seq<string>, rulesByTarget: map<string, set<string>>, warnings: set<string>)
    requires CompiledUpTo(outcomes, lib, ordered, |ordered|, rulesByTarget, warnings)
    ensures FilterResult(Ok((rulesByTarget, warnings)), lib, outcomes)
  {
    assert ordered[..|ordered|] == ordered;
    assert Restricted(outcomes, ordered) == outcomes;
    forall f | f in outcomes ensures outcomes[f].Ok? {
      assert f in ordered;
    }
  }

  function AddRule(m: map<string, set<string>>, l: Line): map<string, set<string>> {
    m[l.target := (if l.target in m then m[l.target] else {}) + {l.rule}]
  }

  lemma LeastFailing(outcomes: Outcomes, ordered: seq<string>, i: nat)
    requires i < |ordered| && Sorted(ordered) && forall x :: x in ordered <==> x in outcomes
    requires forall k :: 0 <= k < i ==> outcomes[ordered[k]].Ok?
    requires ordered[i] in outcomes && outcomes[ordered[i]].Err?
    ensures IsLeast(ordered[i], Failing(outcomes))
  {
    forall g | g in Failing(outcomes) && g != ordered[i] ensures Less(ordered[i], g) {
      assert g in ordered;
      var j :| 0 <= j < |ordered| && ordered[j] == g;
    }
  }

  // ---- emitting providers and rules in target order ----

  method EmitProviders(lib: Library, rulesByTarget: map<string, set<string>>, ghost lines: set<Line>)
    returns (providers: seq<Provider>, rules: seq<string>)
    requires GroupsRules(rulesByTarget, lines)
    ensures var names := SortedKeys(TargetNames(lines));
      providers == Providers(lib, lines, names) && rules == RuleSets(lib, names)
  {
    var names := MapKeysSorted(rulesByTarget.Keys);
    providers, rules := [], [];
    for i := 0 to |names|
      invariant |providers| == |rules| == i
      invariant forall k :: 0 <= k < i ==> Emitted(lib, lines, names[k], providers[k], rules[k])
    {
      assert names[i] in names;
      var provider, rule := EmitProvider(lib, names[i], rulesByTarget[names[i]], lines);
      providers := providers + [provider];
      rules := rules + [rule];
    }
    EmittedAll(lib, lines, names, providers, rules);
  }

  ghost predicate Emitted(lib: Library, lines: set<Line>, name: string, provider: Provider, rule: string) {
    forall n {:trigger Named(n)} :: n == name ==>
      provider == Provider(ProviderName(lib, n), n, SortedKeys(RulesFor(lines, n))) && rule == RuleSetText(lib, n)
  }

  method EmitProvider(lib: Library, name: string, ruleSet: set<string>, ghost lines: set<Line>) returns (provider: Provider, rule: string)
    requires ruleSet == RulesFor(lines, name)
    ensures Emitted(lib, lines, name, provider, rule)
  {
    var payload := MapKeysSorted(ruleSet);
    provider := Provider(ProviderName(lib, name), name, payload);
    rule := RuleSetText(lib, name);
  }

  lemma EmittedAll(lib: Library, lines: set<Line>, names: seq<string>, providers: seq<Provider>, rules: seq<string>)
    requires |providers| == |rules| == |names|
    requires forall k :: 0 <= k < |names| ==> Emitted(lib, lines, names[k], providers[k], rules[k])
    ensures providers == Providers(lib, lines, names) && rules == RuleSets(lib, names)
  {
    forall k | 0 <= k < |names|
      ensures providers[k] == Providers(lib, lines, names)[k]
      ensures rules[k] == RuleSets(lib, names)[k]
    {
      assert Named(names[k]);
    }
  }

  method BuildCatalog(nodes: seq<CanvasNode>) returns (catalog: Catalog)
    ensures catalog == CatalogOf(nodes)
  {
    catalog := map[];
    for i := 0 to |nodes|
      invariant catalog == CatalogOf(nodes[..i])
    {
      assert nodes[..i + 1][..i] == nodes[..i];
      catalog := catalog[nodes[i].id := nodes[i]];
    }
    assert nodes[..|nodes|] == nodes;
  }

  lemma FailureExplained(lib: Library, snapshot: Snapshot, outcomes: Outcomes, code: Code)
    requires var catalog, edges := CatalogOf(snapshot.nodes), EdgeSet(snapshot.edges);
      && outcomes == OutcomesOf(lib, catalog, edges)
      && AllDirected(catalog, edges)
      && FilterResult(Err(code), lib, outcomes)
    ensures Explains(lib, snapshot, code) && Compiled(lib, snapshot).None?
  {
    var f :| IsLeast(f, Failing(outcomes)) && outcomes[f] == Err(code);
  }

  method Compile(lib: Library, snapshot: Snapshot) returns (r: Result<Preview, Code>)
    ensures r.Ok? <==> Compiled(lib, snapshot).Some?
    ensures r.Ok? ==> Compiled(lib, snapshot) == Some(r.value)
    ensures r.Err? ==> Explains(lib, snapshot, r.error)
  {
    var catalog := BuildCatalog(snapshot.nodes);
    ghost var edges := EdgeSet(snapshot.edges);
    var grouped := GroupEdges(catalog, snapshot.edges);
    if grouped.Err? {
      return Err(grouped.error);
    }
    var (sources, targets) := grouped.value;
    ghost var outcomes := OutcomesOf(lib, catalog, edges);
    var compiled := CompileFilters(lib, catalog, sources, targets, edges, outcomes);
    if compiled.Err? {
      FailureExplained(lib, snapshot, outcomes, compiled.error);
      return Err(compiled.error);
    }
    var (rulesByTarget, warnings) := compiled.value;
    ghost var lines := CanvasLines(lib, snapshot);
    var providers, rules := EmitProviders(lib, rulesByTarget, lines);
    var managed := lib.emitYaml(OverlayNode(providers, rules));
    var notices := MapKeysSorted(warnings);
    r := Ok(Preview(snapshot.canvasId, snapshot.revision, providers, rules, managed, lib.contentHash(managed), notices));
  }
}
