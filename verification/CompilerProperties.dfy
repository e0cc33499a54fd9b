// What a successful compilation guarantees, whatever order the canvas was given in.
module CompilerProperties {
  import opened Wrappers
  import opened Text
  import opened Library
  import opened Domain
  import opened Compiler
  import opened ConfigMerge
  import opened ConfigMergeLaws
  import opened RuleSyntax

  // ---- order of the input ----

  // Permuting or repeating edges, and permuting nodes with distinct ids, changes neither
  // success nor any part of the preview.
  lemma OrderIndependent(lib: Library, a: Snapshot, b: Snapshot)
    requires a.canvasId == b.canvasId && a.revision == b.revision
    requires DistinctNodeIds(a.nodes) && forall n :: n in a.nodes <==> n in b.nodes
    requires forall e :: e in a.edges <==> e in b.edges
    ensures Compiled(lib, a) == Compiled(lib, b)
  {
    CatalogIgnoresOrder(a.nodes, b.nodes);
    assert EdgeSet(a.edges) == EdgeSet(b.edges);
  }

  // ---- the lines of a canvas ----

  ghost function CanvasOutcomes(lib: Library, snapshot: Snapshot): Outcomes {
    OutcomesOf(lib, CatalogOf(snapshot.nodes), EdgeSet(snapshot.edges))
  }

  lemma LineHasFilter(outcomes: Outcomes, l: Line)
    ensures l in LinesOf(outcomes) <==> exists f :: f in outcomes && outcomes[f] == Ok(l)
  {
    if l in LinesOf(outcomes) {
      var f :| f in outcomes && outcomes[f].Ok? && outcomes[f].value == l;
      assert outcomes[f] == Ok(l);
    }
  }

  // The (target, rule) pairs a preview contains.
  ghost predicate HasPair(p: Preview, target: string, rule: string) {
    exists i :: 0 <= i < |p.providers| && p.providers[i].targetName == target && rule in p.providers[i].payload
  }

  lemma PairsOfLines(lib: Library, lines: set<Line>, p: Preview, target: string, rule: string)
    requires p.providers == Providers(lib, lines, SortedKeys(TargetNames(lines)))
    ensures HasPair(p, target, rule) <==> exists l :: l in lines && l.target == target && l.rule == rule
  {
    var names := SortedKeys(TargetNames(lines));
    if HasPair(p, target, rule) {
      var i :| 0 <= i < |p.providers| && p.providers[i].targetName == target && rule in p.providers[i].payload;
      assert rule in RulesFor(lines, target);
    }
    if l :| l in lines && l.target == target && l.rule == rule {
      assert target in TargetNames(lines);
      var i :| 0 <= i < |names| && names[i] == target;
      assert rule in RulesFor(lines, target);
      assert p.providers[i].targetName == target && rule in p.providers[i].payload;
    }
  }

  lemma {:induction false} PayloadNotEmpty(lib: Library, lines: set<Line>, i: nat)
    requires i < |SortedKeys(TargetNames(lines))|
    ensures Providers(lib, lines, SortedKeys(TargetNames(lines)))[i].payload != []
  {
    var name := SortedKeys(TargetNames(lines))[i];
    assert name in SortedKeys(TargetNames(lines));
    var l :| l in lines && l.target == name;
    assert l.rule in RulesFor(lines, name);
    assert l.rule in SortedKeys(RulesFor(lines, name));
  }

  // A compiled preview holds exactly one (target, rule) pair per wired filter (equal
  // pairs once), grouped by target, strictly sorted, with one RULE-SET line per group.
  lemma PreviewShape(lib: Library, snapshot: Snapshot)
    requires Compiled(lib, snapshot).Some?
    ensures var p := Compiled(lib, snapshot).value;
      && (forall target, rule :: HasPair(p, target, rule) <==>
            exists l :: l in CanvasLines(lib, snapshot) && l.target == target && l.rule == rule)
      && (forall i, j :: 0 <= i < j < |p.providers| ==> Less(p.providers[i].targetName, p.providers[j].targetName))
      && (forall i :: 0 <= i < |p.providers| ==> Sorted(p.providers[i].payload) && p.providers[i].payload != [])
      && |p.rules| == |p.providers|
      && (forall i :: 0 <= i < |p.rules| ==>
            && p.providers[i].name == ProviderName(lib, p.providers[i].targetName)
            && p.rules[i] == RuleSetText(lib, p.providers[i].targetName))
  {
    var p, lines := Compiled(lib, snapshot).value, CanvasLines(lib, snapshot);
    assert p.providers == Providers(lib, lines, SortedKeys(TargetNames(lines)));
    forall target, rule
      ensures HasPair(p, target, rule) <==> exists l :: l in lines && l.target == target && l.rule == rule
    {
      PairsOfLines(lib, lines, p, target, rule);
    }
    forall i | 0 <= i < |p.providers| ensures p.providers[i].payload != [] {
      PayloadNotEmpty(lib, lines, i);
    }
  }

  // Success leaves no filter out: every wired filter has exactly one source and one
  // target, and contributes its pair.
  lemma EveryWiredFilterContributes(lib: Library, snapshot: Snapshot, f: string)
    requires Compiled(lib, snapshot).Some?
    requires f in WiredFilters(CatalogOf(snapshot.nodes), EdgeSet(snapshot.edges))
    ensures var catalog, edges := CatalogOf(snapshot.nodes), EdgeSet(snapshot.edges);
      && |SourcesOf(catalog, edges, f)| == 1 && |TargetsOf(catalog, edges, f)| == 1
      && FilterLine(lib, catalog, edges, f).Ok?
      && FilterLine(lib, catalog, edges, f).value in CanvasLines(lib, snapshot)
  {
    var outcomes := OutcomesOf(lib, CatalogOf(snapshot.nodes), EdgeSet(snapshot.edges));
    assert f in outcomes;
    assert f !in Failing(outcomes);
    assert outcomes[f].value in LinesOf(outcomes);
  }

  // ---- a compiled preview is a managed one ----

  // A rendered line has a valid target and reads back as comma-free parts.
  ghost predicate WellRendered(l: Line) {
    && ValidTargetName(l.target)
    && exists prefix, matchType, value ::
         CommaFree(prefix) && CommaFree(matchType) && CommaFree(value) && l.rule == RuleText(prefix, matchType, value)
  }

  lemma SourceCidrCommaFree(lib: Library, ip: string)
    requires LawfulAddresses(lib) && SourceCidr(lib, ip).Ok?
    ensures CommaFree(SourceCidr(lib, ip).value)
  {
    var a := lib.parseAddr(TrimSpace(ip)).value;
    CidrCommaFree(lib, Unmap(a), if a.V4? then WIDTH4 else WIDTH6);
  }

  lemma RenderedLine(target: string, prefix: string, matchType: string, value: string, unavailable: bool)
    requires CommaFree(prefix) && CommaFree(matchType) && CommaFree(value) && ValidTargetName(target)
    ensures WellRendered(Line(target, RuleText(prefix, matchType, value), unavailable))
  {
  }

  // The comma-free parts an intent is rendered from.
  lemma RenderedParts(lib: Library, intent: IntentData) returns (prefix: string, m: Matcher)
    requires LawfulAddresses(lib)
    requires intent.source.SourceData? && intent.filter.FilterData? && intent.target.TargetData?
    requires RenderIntent(lib, intent).Ok?
    ensures SourceCidr(lib, intent.source.ip) == Ok(prefix) && CommaFree(prefix)
    ensures Rendered(intent.filter.match_.kind, MatchValue(lib, intent.filter.match_), m) && CommaFree(m.value)
    ensures RenderIntent(lib, intent).value.rule == RuleText(prefix, TypeText(m.type_), m.value)
  {
    var spec := intent.filter.match_;
    prefix, m := SourceCidr(lib, intent.source.ip).value, MihomoMatch(lib, spec).value;
    SourceCidrCommaFree(lib, intent.source.ip);
    MatchIsRendered(lib, spec);
    RenderedCommaFree(spec.kind, MatchValue(lib, spec), m);
  }

  lemma IntentWellRendered(lib: Library, intent: IntentData)
    requires LawfulAddresses(lib)
    requires intent.source.SourceData? && intent.filter.FilterData? && intent.target.TargetData?
    requires RenderIntent(lib, intent).Ok?
    ensures WellRendered(RenderIntent(lib, intent).value)
  {
    var prefix, m := RenderedParts(lib, intent);
    TypeCommaFree(m.type_);
    RenderedLine(intent.target.proxyName, prefix, TypeText(m.type_), m.value, !intent.target.alive || intent.target.inactive);
  }

  lemma FilterLineWellRendered(lib: Library, catalog: Catalog, edges: set<CanvasEdge>, f: string)
    requires LawfulAddresses(lib) && FilterLine(lib, catalog, edges, f).Ok?
    ensures WellRendered(FilterLine(lib, catalog, edges, f).value)
  {
    IntentWellRendered(lib, FilterIntent(catalog, edges, f).value);
  }

  lemma LinesWellRendered(lib: Library, snapshot: Snapshot)
    requires LawfulAddresses(lib)
    ensures forall l :: l in CanvasLines(lib, snapshot) ==> WellRendered(l)
  {
    var outcomes := CanvasOutcomes(lib, snapshot);
    forall l | l in CanvasLines(lib, snapshot) ensures WellRendered(l) {
      LineHasFilter(outcomes, l);
      var f :| f in outcomes && outcomes[f] == Ok(l);
      FilterLineWellRendered(lib, CatalogOf(snapshot.nodes), EdgeSet(snapshot.edges), f);
    }
  }

  lemma RuleHasPayloadPrefix(prefix: string, matchType: string, value: string)
    ensures HasPrefix(RuleText(prefix, matchType, value), PAYLOAD_PREFIX)
  {
    var tail := prefix + "),(" + matchType + "," + value + "))";
    assert RuleText(prefix, matchType, value) == PAYLOAD_PREFIX + tail;
  }

  lemma LinesMakeManagedPreview(lib: Library, lines: set<Line>, p: Preview)
    requires forall l :: l in lines ==> WellRendered(l)
    requires p.providers == Providers(lib, lines, SortedKeys(TargetNames(lines)))
    requires p.rules == RuleSets(lib, SortedKeys(TargetNames(lines)))
    ensures ManagedPreview(p)
  {
    var names := SortedKeys(TargetNames(lines));
    forall i | 0 <= i < |names|
      ensures ManagedName(p.providers[i].name)
      ensures ManagedRule(Scalar(p.rules[i])) && ValidRule(Scalar(p.rules[i]))
    {
      assert names[i] in names;
      var l :| l in lines && l.target == names[i];
      ProviderNameManaged(lib, names[i]);
      RuleSetManaged(lib, names[i]);
      RuleSetValid(lib, names[i]);
    }
    forall i, k | 0 <= i < |p.providers| && 0 <= k < |p.providers[i].payload|
      ensures HasPrefix(p.providers[i].payload[k], PAYLOAD_PREFIX)
    {
      PayloadLinePrefix(lib, lines, names[i], k);
    }
  }

  lemma PayloadLinePrefix(lib: Library, lines: set<Line>, name: string, k: nat)
    requires forall l :: l in lines ==> WellRendered(l)
    requires k < |SortedKeys(RulesFor(lines, name))|
    ensures HasPrefix(SortedKeys(RulesFor(lines, name))[k], PAYLOAD_PREFIX)
  {
    var rule := SortedKeys(RulesFor(lines, name))[k];
    assert rule in SortedKeys(RulesFor(lines, name));
    var l :| l in lines && l.target == name && l.rule == rule;
    var prefix, matchType, value :|
      CommaFree(prefix) && CommaFree(matchType) && CommaFree(value) && l.rule == RuleText(prefix, matchType, value);
    RuleHasPayloadPrefix(prefix, matchType, value);
  }

  lemma CompiledIsManaged(lib: Library, snapshot: Snapshot)
    requires LawfulAddresses(lib) && Compiled(lib, snapshot).Some?
    ensures ManagedPreview(Compiled(lib, snapshot).value)
  {
    LinesWellRendered(lib, snapshot);
    LinesMakeManagedPreview(lib, CanvasLines(lib, snapshot), Compiled(lib, snapshot).value);
  }

  // Validation accepts every merge of a compiled canvas into a base whose two sections
  // have the right kinds; nothing else can make the merge fail.
  lemma CompiledMergeAccepted(lib: Library, snapshot: Snapshot, base: string)
    requires LawfulAddresses(lib) && LawfulYaml(lib) && Compiled(lib, snapshot).Some?
    ensures MergeText(lib, base, Compiled(lib, snapshot).value).Ok? <==>
      && lib.parseYaml(base).Some? && lib.parseYaml(base).value.Mapping?
      && var root := lib.parseYaml(base).value.entries;
         && (Lookup(root, PROVIDERS_KEY).None? || Lookup(root, PROVIDERS_KEY).value.Mapping?)
         && (Lookup(root, RULES_KEY).None? || Lookup(root, RULES_KEY).value.Sequence?)
  {
    var p := Compiled(lib, snapshot).value;
    CompiledIsManaged(lib, snapshot);
    if lib.parseYaml(base).Some? && lib.parseYaml(base).value.Mapping? {
      MergeTextIsMergedTree(lib, base, p);
      MergeSucceedsIff(lib.parseYaml(base).value.entries, p);
    }
  }

  // Applying twice is applying the second canvas once, as text.
  lemma CompiledLastMergeWins(lib: Library, first: Snapshot, second: Snapshot, base: string)
    requires LawfulAddresses(lib) && LawfulYaml(lib)
    requires Compiled(lib, first).Some? && Compiled(lib, second).Some?
    requires MergeText(lib, base, Compiled(lib, first).value).Ok?
    ensures var p, q := Compiled(lib, first).value, Compiled(lib, second).value;
      MergeText(lib, MergeText(lib, base, p).value, q) == MergeText(lib, base, q)
  {
    var p, q := Compiled(lib, first).value, Compiled(lib, second).value;
    CompiledIsManaged(lib, first);
    CompiledIsManaged(lib, second);
    MergeTextIsMergedTree(lib, base, p);
    MergeTextIsMergedTree(lib, base, q);
    LastMergeWins(lib.parseYaml(base).value.entries, p, q);
    MergeTextIsMergedTree(lib, MergeText(lib, base, p).value, q);
  }
}
