// The compiler and the merge preserve meaning: the merged configuration sends every
// packet to the least target the canvas wants, and leaves the rest to the user's rules.
module RoutingCorrect {
  import opened Wrappers
  import opened Text
  import opened Decimal
  import opened Library
  import opened Domain
  import opened Compiler
  import opened ConfigMerge
  import opened ConfigMergeLaws
  import opened RuleSyntax
  import opened CompilerProperties
  import opened Routing

  // ---- one rendered source ----

  lemma DecimalHasNoSlash(n: nat)
    ensures Free(DecimalText(n), "/")
  {
  }

  lemma PrefixTextSplits(lib: Library, a: Address, bits: nat)
    requires LawfulAddresses(lib) && bits <= Width(a)
    ensures Split(PrefixText(lib, a, bits), '/') == [lib.addrText(WithoutZone(a)), DecimalText(bits)]
  {
    var addr, num := lib.addrText(WithoutZone(a)), DecimalText(bits);
    assert Free(addr, ",/");
    forall i | 0 <= i < |addr| ensures addr[i] !in ['/'] {
      assert addr[i] !in ",/" && ",/"[1] == '/';
    }
    DecimalHasNoSlash(bits);
    forall i | 0 <= i < |num| ensures num[i] !in ['/'] {
      assert IsDigit(num[i]);
    }
    assert addr + "/" + num == addr + ['/'] + num;
    SplitAt(addr, '/', num);
    SplitFree(num, '/');
  }

  // A full-length prefix matches exactly its own address.
  lemma FullPrefixMatches(lib: Library, a: Address, src: Address)
    requires LawfulAddresses(lib)
    ensures CidrMatches(lib, PrefixText(lib, a, Width(a)), src) <==> WithoutZone(a) == WithoutZone(src)
  {
    PrefixTextSplits(lib, a, Width(a));
    DigitsRoundTrip(Width(a));
    assert lib.parseAddr(lib.addrText(WithoutZone(a))) == Some(WithoutZone(a));
    assert Pow2(0) == 1;
  }

  lemma InvalidPrefixMatchesNothing(lib: Library, src: Address)
    ensures !CidrMatches(lib, "invalid Prefix", src)
  {
    SplitFree("invalid Prefix", '/');
  }

  lemma SourceCidrText(lib: Library, ip: string)
    requires SourceCidr(lib, ip).Ok?
    ensures var a := lib.parseAddr(TrimSpace(ip)).value;
      SourceCidr(lib, ip).value == if IsMapped(a) then "invalid Prefix" else PrefixText(lib, a, Width(a))
  {
  }

  // The rendered source of a device matches its own traffic if and only if its address
  // is not IPv4-mapped; a mapped one matches nothing at all.
  lemma SourceRendersExactly(lib: Library, ip: string, src: Address)
    requires LawfulAddresses(lib) && SourceCidr(lib, ip).Ok?
    ensures CidrMatches(lib, SourceCidr(lib, ip).value, src) <==> Representable(lib, ip) && MatchesSource(lib, ip, src)
  {
    var a := lib.parseAddr(TrimSpace(ip)).value;
    SourceCidrText(lib, ip);
    if IsMapped(a) {
      InvalidPrefixMatchesNothing(lib, src);
    } else {
      FullPrefixMatches(lib, a, src);
    }
  }

  lemma TypeTextsDiffer()
    ensures TypeText(DomainType) != TypeText(SuffixType) && TypeText(DomainType) != TypeText(KeywordType) && TypeText(SuffixType) != TypeText(KeywordType)
  {
    assert |TypeText(DomainType)| == 6 && |TypeText(SuffixType)| == 13 && |TypeText(KeywordType)| == 14;
  }

  lemma MatchRendersExactly(lib: Library, m: MatchSpec, r: Matcher, host: string)
    requires Rendered(m.kind, MatchValue(lib, m), r)
    ensures HostMatches(TypeText(r.type_), r.value, host) <==> MatchesHost(lib, m, host)
  {
    TypeTextsDiffer();
  }

  lemma RuleMatchesIff(lib: Library, prefix: string, matchType: string, value: string, pkt: Packet)
    requires CommaFree(prefix) && CommaFree(matchType) && CommaFree(value)
    ensures PayloadMatches(lib, RuleText(prefix, matchType, value), pkt) <==>
      CidrMatches(lib, prefix, pkt.src) && HostMatches(matchType, value, pkt.host)
  {
    PayloadRoundTrip(prefix, matchType, value);
  }

  lemma IntentRendersExactly(lib: Library, intent: IntentData, pkt: Packet)
    requires LawfulAddresses(lib)
    requires intent.source.SourceData? && intent.filter.FilterData? && intent.target.TargetData?
    requires RenderIntent(lib, intent).Ok?
    ensures PayloadMatches(lib, RenderIntent(lib, intent).value.rule, pkt) <==>
      Representable(lib, intent.source.ip) && IntentMatches(lib, intent.source.ip, intent.filter.match_, pkt)
  {
    var prefix, m := RenderedParts(lib, intent);
    PartsMatchExactly(lib, intent.source.ip, intent.filter.match_, prefix, m, pkt);
  }

  lemma RenderedTarget(lib: Library, intent: IntentData)
    requires intent.source.SourceData? && intent.filter.FilterData? && intent.target.TargetData?
    requires RenderIntent(lib, intent).Ok?
    ensures RenderIntent(lib, intent).value.target == intent.target.proxyName
  {
  }

  lemma PartsMatchExactly(lib: Library, ip: string, spec: MatchSpec, prefix: string, m: Matcher, pkt: Packet)
    requires LawfulAddresses(lib)
    requires SourceCidr(lib, ip) == Ok(prefix) && CommaFree(prefix)
    requires Rendered(spec.kind, MatchValue(lib, spec), m) && CommaFree(m.value)
    ensures PayloadMatches(lib, RuleText(prefix, TypeText(m.type_), m.value), pkt) <==>
      Representable(lib, ip) && IntentMatches(lib, ip, spec, pkt)
  {
    TypeCommaFree(m.type_);
    RuleMatchesIff(lib, prefix, TypeText(m.type_), m.value, pkt);
    SourceRendersExactly(lib, ip, pkt.src);
    MatchRendersExactly(lib, spec, m, pkt.host);
  }

  // ---- lines against paths ----

  ghost predicate LineServes(lib: Library, lines: set<Line>, pkt: Packet, target: string) {
    exists l :: l in lines && l.target == target && PayloadMatches(lib, l.rule, pkt)
  }

  lemma UniquePath(catalog: Catalog, edges: set<CanvasEdge>, s: string, f: string, t: string)
    requires |SourcesOf(catalog, edges, f)| == 1 && |TargetsOf(catalog, edges, f)| == 1
    ensures Path(catalog, edges, s, f, t) <==>
      s == TheOnly(SourcesOf(catalog, edges, f)) && t == TheOnly(TargetsOf(catalog, edges, f))
  {
    var ss, ts := SourcesOf(catalog, edges, f), TargetsOf(catalog, edges, f);
    assert s in ss <==> exists e :: e in edges && EntersFilter(catalog, e) && e.source == s && e.target == f;
    assert t in ts <==> exists e :: e in edges && LeavesFilter(catalog, e) && e.source == f && e.target == t;
    Singleton(ss, s);
    Singleton(ts, t);
  }

  lemma Singleton(s: set<string>, x: string)
    requires |s| == 1
    ensures x in s <==> x == TheOnly(s)
  {
    assert s - {TheOnly(s)} == {} by {
      assert |s - {TheOnly(s)}| == 0;
    }
  }

  lemma LineServesPath(lib: Library, catalog: Catalog, edges: set<CanvasEdge>, f: string, pkt: Packet, s: string, t: string)
    requires LawfulAddresses(lib) && FilterLine(lib, catalog, edges, f).Ok?
    requires Path(catalog, edges, s, f, t)
    ensures var l := FilterLine(lib, catalog, edges, f).value;
      && s in catalog && catalog[s].data.SourceData?
      && (PayloadMatches(lib, l.rule, pkt) <==>
            PathMatches(lib, catalog, s, f, t, pkt, l.target) && Representable(lib, catalog[s].data.ip))
      && (forall target :: PathMatches(lib, catalog, s, f, t, pkt, target) ==> target == l.target)
  {
    var intent := LineIsIntent(catalog, edges, f, s, t);
    IntentRendersExactly(lib, intent, pkt);
    RenderedTarget(lib, intent);
  }

  // The line of a filter on a path renders the data of the path's nodes.
  lemma LineIsIntent(catalog: Catalog, edges: set<CanvasEdge>, f: string, s: string, t: string) returns (intent: IntentData)
    requires FilterIntent(catalog, edges, f).Ok? && Path(catalog, edges, s, f, t)
    ensures s in catalog && f in catalog && t in catalog
    ensures intent == IntentData(catalog[s].data, catalog[f].data, catalog[t].data)
    ensures intent.source.SourceData? && intent.filter.FilterData? && intent.target.TargetData?
    ensures FilterIntent(catalog, edges, f) == Ok(intent)
  {
    UniquePath(catalog, edges, s, f, t);
    intent := ResolveIntentNodes(catalog, s, f, t).value;
  }

  lemma FilterHasPath(lib: Library, catalog: Catalog, edges: set<CanvasEdge>, f: string)
    requires FilterLine(lib, catalog, edges, f).Ok?
    ensures exists s, t :: Path(catalog, edges, s, f, t)
  {
    UniquePath(catalog, edges, TheOnly(SourcesOf(catalog, edges, f)), f, TheOnly(TargetsOf(catalog, edges, f)));
  }

  lemma LinesServeExactly(lib: Library, snapshot: Snapshot, pkt: Packet, target: string)
    requires LawfulAddresses(lib) && Compiled(lib, snapshot).Some?
    ensures LineServes(lib, CanvasLines(lib, snapshot), pkt, target) <==> Served(lib, snapshot, pkt, target)
  {
    var catalog, edges := CatalogOf(snapshot.nodes), EdgeSet(snapshot.edges);
    var outcomes, lines := CanvasOutcomes(lib, snapshot), CanvasLines(lib, snapshot);
    if LineServes(lib, lines, pkt, target) {
      var l :| l in lines && l.target == target && PayloadMatches(lib, l.rule, pkt);
      LineHasFilter(outcomes, l);
      var f :| f in outcomes && outcomes[f] == Ok(l);
      FilterHasPath(lib, catalog, edges, f);
      var s, t :| Path(catalog, edges, s, f, t);
      LineServesPath(lib, catalog, edges, f, pkt, s, t);
    }
    if Served(lib, snapshot, pkt, target) {
      var s, f, t :| Path(catalog, edges, s, f, t) && PathMatches(lib, catalog, s, f, t, pkt, target)
        && Representable(lib, catalog[s].data.ip);
      EveryWiredFilterContributes(lib, snapshot, f);
      LineServesPath(lib, catalog, edges, f, pkt, s, t);
      assert FilterLine(lib, catalog, edges, f).value in lines;
    }
  }

  // ---- providers of the merged configuration ----

  lemma {:induction false} LookupAppend(a: seq<Entry>, b: seq<Entry>, key: string)
    ensures Lookup(a + b, key) == if Lookup(a, key).Some? then Lookup(a, key) else Lookup(b, key)
  {
    if a == [] {
      assert a + b == b;
    } else {
      LookupAppend(a[1..], b, key);
      assert (a + b)[1..] == a[1..] + b;
    }
  }

  lemma {:induction false} LookupAbsent(a: seq<Entry>, key: string)
    requires forall i :: 0 <= i < |a| ==> KeyText(a[i].key) != key
    ensures Lookup(a, key) == None
  {
    if a != [] {
      assert forall i :: 0 <= i < |a[1..]| ==> a[1..][i] == a[i + 1];
      LookupAbsent(a[1..], key);
    }
  }

  lemma {:induction false} LookupAt(a: seq<Entry>, key: string, i: nat)
    requires i < |a| && KeyText(a[i].key) == key
    requires forall k :: 0 <= k < i ==> KeyText(a[k].key) != key
    ensures Lookup(a, key) == Some(a[i].value)
  {
    if i > 0 {
      assert forall k :: 0 <= k < |a[1..]| ==> a[1..][k] == a[k + 1];
      LookupAt(a[1..], key, i - 1);
    }
  }

  lemma PayloadOfProviderNode(payload: seq<string>)
    ensures Lookup(ProviderNode(payload).entries, "payload") == Some(SequenceNode(payload))
  {
    var entries := ProviderNode(payload).entries;
    assert KeyText(entries[0].key)[0] == 't' && KeyText(entries[1].key)[0] == 'b' && "payload"[0] == 'p';
    LookupAt(entries, "payload", 2);
  }

  lemma ScalarsMatch(lib: Library, payload: seq<string>, pkt: Packet)
    ensures AnyPayloadMatches(lib, Scalars(payload), pkt) <==> exists r :: r in payload && PayloadMatches(lib, r, pkt)
  {
    var items := Scalars(payload);
    if r :| r in payload && PayloadMatches(lib, r, pkt) {
      var i :| 0 <= i < |payload| && payload[i] == r;
      assert items[i].Scalar? && PayloadMatches(lib, items[i].text, pkt);
    }
    if i :| 0 <= i < |items| && items[i].Scalar? && PayloadMatches(lib, items[i].text, pkt) {
      assert payload[i] in payload;
    }
  }

  lemma PayloadServes(lib: Library, lines: set<Line>, name: string, pkt: Packet)
    ensures (exists r :: r in SortedKeys(RulesFor(lines, name)) && PayloadMatches(lib, r, pkt)) <==> LineServes(lib, lines, pkt, name)
  {
    if r :| r in SortedKeys(RulesFor(lines, name)) && PayloadMatches(lib, r, pkt) {
      var l :| l in lines && l.target == name && l.rule == r;
      assert LineServes(lib, lines, pkt, name);
    }
    if l :| l in lines && l.target == name && PayloadMatches(lib, l.rule, pkt) {
      assert l.rule in RulesFor(lines, name);
      assert l.rule in SortedKeys(RulesFor(lines, name));
    }
  }

  // The provider of a target in the merged mapping, found past the user's providers.
  lemma MergedProviderServes(lib: Library, lines: set<Line>, user: seq<Entry>, i: nat, pkt: Packet)
    requires i < |SortedKeys(TargetNames(lines))|
    requires Distinguishes(lib, "flowcanvas", TargetNames(lines))
    requires forall k :: 0 <= k < |user| ==> !ManagedName(KeyText(user[k].key))
    ensures var names := SortedKeys(TargetNames(lines));
      ProviderMatches(lib, user + ProviderEntries(Providers(lib, lines, names)), ProviderName(lib, names[i]), pkt) ==
      LineServes(lib, lines, pkt, names[i])
  {
    var names := SortedKeys(TargetNames(lines));
    var key, entries := ProviderName(lib, names[i]), ProviderEntries(Providers(lib, lines, names));
    var payload := SortedKeys(RulesFor(lines, names[i]));
    ProviderNameManaged(lib, names[i]);
    LookupAbsent(user, key);
    LookupAppend(user, entries, key);
    forall k | 0 <= k < i ensures KeyText(entries[k].key) != key {
      assert names[k] in names && names[i] in names;
      LessTotal(names[k], names[i]);
    }
    LookupAt(entries, key, i);
    PayloadOfProviderNode(payload);
    ScalarsMatch(lib, payload, pkt);
    PayloadServes(lib, lines, names[i], pkt);
  }

  // ---- first match over the managed rules, then over the user's ----

  lemma {:induction false} FirstMatchSkips(lib: Library, user: UserSemantics, root: seq<Entry>, rules: seq<Node>, n: nat, pkt: Packet)
    requires n <= |rules| && forall k :: 0 <= k < n ==> RuleTarget(lib, user, root, rules[k], pkt).None?
    ensures FirstMatch(lib, user, root, rules, pkt) == FirstMatch(lib, user, root, rules[n..], pkt)
  {
    if n == 0 {
      assert rules[0..] == rules;
    } else {
      assert forall k :: 0 <= k < |rules[1..]| ==> rules[1..][k] == rules[k + 1];
      FirstMatchSkips(lib, user, root, rules[1..], n - 1, pkt);
      assert rules[1..][n - 1..] == rules[n..];
    }
  }

  lemma {:induction false} UserRulesRoute(lib: Library, user: UserSemantics, root: seq<Entry>, rules: seq<Node>, pkt: Packet)
    requires forall k :: 0 <= k < |rules| ==> !ManagedRule(rules[k])
    ensures FirstMatch(lib, user, root, rules, pkt) == FirstUserMatch(user, View(root), rules, pkt)
  {
    if rules != [] {
      assert forall k :: 0 <= k < |rules[1..]| ==> rules[1..][k] == rules[k + 1];
      UserRulesRoute(lib, user, root, rules[1..], pkt);
    }
  }

  lemma RuleSetDecides(lib: Library, providers: seq<Entry>, target: string, pkt: Packet)
    requires ValidTargetName(target)
    ensures RuleSetTarget(lib, providers, RuleSetText(lib, target), pkt) ==
      if ProviderMatches(lib, providers, ProviderName(lib, target), pkt) then Some(target) else None
  {
    SafeTextCommaFree(target);
    RuleSetFields(lib, target);
  }

  // A managed rule of the merged configuration sends the packet to its target exactly
  // when a line serves it.
  lemma ManagedRuleDecides(lib: Library, user: UserSemantics, root: seq<Entry>, p: Preview, lines: set<Line>, i: nat, pkt: Packet)
    requires forall l :: l in lines ==> WellRendered(l)
    requires p.providers == Providers(lib, lines, SortedKeys(TargetNames(lines)))
    requires i < |SortedKeys(TargetNames(lines))|
    requires Distinguishes(lib, "flowcanvas", TargetNames(lines))
    requires MergeEntries(root, p).Ok?
    ensures var m, name := MergeEntries(root, p).value, SortedKeys(TargetNames(lines))[i];
      RuleTarget(lib, user, m, Scalar(RuleSetText(lib, name)), pkt) ==
        if LineServes(lib, lines, pkt, name) then Some(name) else None
  {
    var m, name := MergeEntries(root, p).value, SortedKeys(TargetNames(lines))[i];
    MergedSections(root, p);
    UserProvidersTwice(ProvidersIn(root));
    assert name in SortedKeys(TargetNames(lines));
    var l :| l in lines && l.target == name;
    MergedProviderServes(lib, lines, UserProviders(ProvidersIn(root)), i, pkt);
    RuleSetManaged(lib, name);
    RuleSetDecides(lib, ProvidersIn(m), name, pkt);
  }

  // ---- the theorem, over lines ----

  ghost predicate LeastServed(lib: Library, lines: set<Line>, pkt: Packet, t: string) {
    && LineServes(lib, lines, pkt, t)
    && forall u :: LineServes(lib, lines, pkt, u) && u != t ==> Less(t, u)
  }

  lemma {:induction false} FirstServing(lib: Library, lines: set<Line>, names: seq<string>, pkt: Packet) returns (i: nat)
    ensures i <= |names| && forall k :: 0 <= k < i ==> !LineServes(lib, lines, pkt, names[k])
    ensures i < |names| ==> LineServes(lib, lines, pkt, names[i])
  {
    if names == [] || LineServes(lib, lines, pkt, names[0]) {
      i := 0;
    } else {
      var j := FirstServing(lib, lines, names[1..], pkt);
      i := j + 1;
      assert forall k :: 1 <= k < i ==> names[k] == names[1..][k - 1];
    }
  }

  lemma ServedNamesListed(lib: Library, lines: set<Line>, pkt: Packet, t: string)
    requires LineServes(lib, lines, pkt, t)
    ensures t in SortedKeys(TargetNames(lines))
  {
    var l :| l in lines && l.target == t;
  }

  lemma MergedRoutesLines(lib: Library, user: UserSemantics, root: seq<Entry>, p: Preview, lines: set<Line>, pkt: Packet)
    requires forall l :: l in lines ==> WellRendered(l)
    requires p.providers == Providers(lib, lines, SortedKeys(TargetNames(lines)))
    requires p.rules == RuleSets(lib, SortedKeys(TargetNames(lines)))
    requires Distinguishes(lib, "flowcanvas", TargetNames(lines))
    requires MergeEntries(root, p).Ok?
    ensures var r := Route(lib, user, MergeEntries(root, p).value, pkt);
      && (forall t :: LeastServed(lib, lines, pkt, t) ==> r == Some(t))
      && ((forall t :: !LineServes(lib, lines, pkt, t)) ==> r == RouteUser(user, root, pkt))
      && ((exists t :: LineServes(lib, lines, pkt, t)) ==> exists t :: LeastServed(lib, lines, pkt, t))
  {
    var names := SortedKeys(TargetNames(lines));
    var i := FirstServing(lib, lines, names, pkt);
    RouteAfterSkipping(lib, user, root, p, lines, i, pkt);
    FirstIsLeast(lib, lines, i, pkt);
  }

  // Targets are listed in order, so the first that serves is the least.
  lemma FirstIsLeast(lib: Library, lines: set<Line>, i: nat, pkt: Packet)
    requires var names := SortedKeys(TargetNames(lines));
      && i <= |names|
      && (forall k :: 0 <= k < i ==> !LineServes(lib, lines, pkt, names[k]))
      && (i < |names| ==> LineServes(lib, lines, pkt, names[i]))
    ensures var names := SortedKeys(TargetNames(lines));
      if i < |names| then LeastServed(lib, lines, pkt, names[i]) && forall t :: LeastServed(lib, lines, pkt, t) ==> t == names[i]
      else forall t :: !LineServes(lib, lines, pkt, t)
  {
    var names := SortedKeys(TargetNames(lines));
    forall t | LineServes(lib, lines, pkt, t)
      ensures i < |names| && (t == names[i] || Less(names[i], t))
    {
      ServedNamesListed(lib, lines, pkt, t);
      var j :| 0 <= j < |names| && names[j] == t;
    }
    if i < |names| {
      forall t | LeastServed(lib, lines, pkt, t) ensures t == names[i] {
        LessTotal(t, names[i]);
      }
    }
  }

  // The first i managed rules pass; the next one, or the user's rules, decide.
  lemma RouteAfterSkipping(lib: Library, user: UserSemantics, root: seq<Entry>, p: Preview, lines: set<Line>, i: nat, pkt: Packet)
    requires forall l :: l in lines ==> WellRendered(l)
    requires p.providers == Providers(lib, lines, SortedKeys(TargetNames(lines)))
    requires p.rules == RuleSets(lib, SortedKeys(TargetNames(lines)))
    requires Distinguishes(lib, "flowcanvas", TargetNames(lines))
    requires MergeEntries(root, p).Ok?
    requires i <= |SortedKeys(TargetNames(lines))|
    requires forall k :: 0 <= k < i ==> !LineServes(lib, lines, pkt, SortedKeys(TargetNames(lines))[k])
    requires i < |SortedKeys(TargetNames(lines))| ==> LineServes(lib, lines, pkt, SortedKeys(TargetNames(lines))[i])
    ensures var names := SortedKeys(TargetNames(lines));
      Route(lib, user, MergeEntries(root, p).value, pkt) ==
        if i < |names| then Some(names[i]) else RouteUser(user, root, pkt)
  {
    var m, names := MergeEntries(root, p).value, SortedKeys(TargetNames(lines));
    MergedSections(root, p);
    var managed, own := Scalars(p.rules), UserRules(RulesIn(root));
    var rules := managed + own;
    forall k | 0 <= k <= i && k < |names|
      ensures RuleTarget(lib, user, m, rules[k], pkt) == if k < i then None else Some(names[k])
    {
      ManagedRuleDecides(lib, user, root, p, lines, k, pkt);
      assert rules[k] == Scalar(RuleSetText(lib, names[k]));
    }
    FirstMatchSkips(lib, user, m, rules, i, pkt);
    if i < |names| {
      assert rules[i..][0] == rules[i];
    } else {
      assert rules[i..] == own;
      UserRulesTwice(RulesIn(root));
      UserRulesRoute(lib, user, m, own, pkt);
      LinesMakeManagedPreview(lib, lines, p);
      MergeKeepsView(root, p);
    }
  }

  // ---- the theorem, over canvases ----

  ghost predicate LeastTarget(lib: Library, snapshot: Snapshot, pkt: Packet, t: string) {
    && Served(lib, snapshot, pkt, t)
    && forall u :: Served(lib, snapshot, pkt, u) && u != t ==> Less(t, u)
  }

  // For every canvas that compiles and every base the merge accepts: a packet some intent
  // serves goes to the byte-least target serving it (and there is one); any other packet
  // goes where the base's own rules send it.
  lemma MergedMeaning(lib: Library, user: UserSemantics, snapshot: Snapshot, root: seq<Entry>, pkt: Packet)
    requires LawfulAddresses(lib) && Compiled(lib, snapshot).Some?
    requires Distinguishes(lib, "flowcanvas", TargetNames(CanvasLines(lib, snapshot)))
    requires MergeEntries(root, Compiled(lib, snapshot).value).Ok?
    ensures var r := Route(lib, user, MergeEntries(root, Compiled(lib, snapshot).value).value, pkt);
      if exists t :: Served(lib, snapshot, pkt, t)
      then exists t :: LeastTarget(lib, snapshot, pkt, t) && r == Some(t)
      else r == RouteUser(user, root, pkt)
  {
    var p, lines := Compiled(lib, snapshot).value, CanvasLines(lib, snapshot);
    LinesWellRendered(lib, snapshot);
    MergedRoutesLines(lib, user, root, p, lines, pkt);
    forall t ensures LineServes(lib, lines, pkt, t) <==> Served(lib, snapshot, pkt, t) {
      LinesServeExactly(lib, snapshot, pkt, t);
    }
    if exists t :: Served(lib, snapshot, pkt, t) {
      var t :| LeastServed(lib, lines, pkt, t);
      assert LeastTarget(lib, snapshot, pkt, t);
    }
  }

  // When no path that matches the packet starts at an IPv4-mapped address, serving it is
  // wanting it.
  lemma ServedIsWanted(lib: Library, snapshot: Snapshot, pkt: Packet, target: string)
    requires MatchedSourcesRepresentable(lib, snapshot, pkt)
    ensures Served(lib, snapshot, pkt, target) <==> Wanted(lib, snapshot, pkt, target)
  {
    var catalog, edges := CatalogOf(snapshot.nodes), EdgeSet(snapshot.edges);
    if s, f, t :| Path(catalog, edges, s, f, t) && PathMatches(lib, catalog, s, f, t, pkt, target) {
      assert Representable(lib, catalog[s].data.ip);
      assert Served(lib, snapshot, pkt, target);
    }
  }

  ghost predicate LeastWanted(lib: Library, snapshot: Snapshot, pkt: Packet, t: string) {
    && Wanted(lib, snapshot, pkt, t)
    && forall u :: Wanted(lib, snapshot, pkt, u) && u != t ==> Less(t, u)
  }

  lemma LeastServedIsLeastWanted(lib: Library, snapshot: Snapshot, pkt: Packet)
    requires MatchedSourcesRepresentable(lib, snapshot, pkt)
    ensures forall t :: Served(lib, snapshot, pkt, t) <==> Wanted(lib, snapshot, pkt, t)
    ensures forall t :: LeastTarget(lib, snapshot, pkt, t) ==> LeastWanted(lib, snapshot, pkt, t)
  {
    forall t ensures Served(lib, snapshot, pkt, t) <==> Wanted(lib, snapshot, pkt, t) {
      ServedIsWanted(lib, snapshot, pkt, t);
    }
  }

  // A decision is the canvas's: the least target wanted, or else the fallback.
  ghost predicate DecidedByCanvas(lib: Library, snapshot: Snapshot, pkt: Packet, decision: Option<string>, fallback: Option<string>) {
    if exists t :: Wanted(lib, snapshot, pkt, t)
    then exists t :: LeastWanted(lib, snapshot, pkt, t) && decision == Some(t)
    else decision == fallback
  }

  lemma MergedTreeMeaning(lib: Library, user: UserSemantics, snapshot: Snapshot, root: seq<Entry>, pkt: Packet)
    requires LawfulAddresses(lib) && Compiled(lib, snapshot).Some?
    requires Distinguishes(lib, "flowcanvas", TargetNames(CanvasLines(lib, snapshot)))
    requires MatchedSourcesRepresentable(lib, snapshot, pkt)
    requires MergeEntries(root, Compiled(lib, snapshot).value).Ok?
    ensures DecidedByCanvas(lib, snapshot, pkt,
      Route(lib, user, MergeEntries(root, Compiled(lib, snapshot).value).value, pkt), RouteUser(user, root, pkt))
  {
    MergedMeaning(lib, user, snapshot, root, pkt);
    LeastServedIsLeastWanted(lib, snapshot, pkt);
  }

  // Where a configuration text sends a packet; text that is no mapping sends it nowhere.
  function RouteText(lib: Library, user: UserSemantics, text: string, pkt: Packet): Option<string> {
    match lib.parseYaml(text)
    case Some(Mapping(root)) => Route(lib, user, root, pkt)
    case _ => None
  }

  function RouteUserText(lib: Library, user: UserSemantics, text: string, pkt: Packet): Option<string> {
    match lib.parseYaml(text)
    case Some(Mapping(root)) => RouteUser(user, root, pkt)
    case _ => None
  }

  lemma MergedText(lib: Library, base: string, p: Preview) returns (root: seq<Entry>)
    requires LawfulYaml(lib) && ManagedPreview(p) && MergeText(lib, base, p).Ok?
    ensures lib.parseYaml(base) == Some(Mapping(root)) && MergeEntries(root, p).Ok?
    ensures lib.parseYaml(MergeText(lib, base, p).value) == Some(Mapping(MergeEntries(root, p).value))
  {
    root := lib.parseYaml(base).value.entries;
    MergeTextIsMergedTree(lib, base, p);
  }

  // On configuration text, for every packet: the least target serving it, or else the
  // base's own rules.
  lemma CandidateServes(lib: Library, user: UserSemantics, snapshot: Snapshot, base: string, pkt: Packet)
    requires LawfulAddresses(lib) && LawfulYaml(lib) && Compiled(lib, snapshot).Some?
    requires Distinguishes(lib, "flowcanvas", TargetNames(CanvasLines(lib, snapshot)))
    requires MergeText(lib, base, Compiled(lib, snapshot).value).Ok?
    ensures var r := RouteText(lib, user, MergeText(lib, base, Compiled(lib, snapshot).value).value, pkt);
      if exists t :: Served(lib, snapshot, pkt, t)
      then exists t :: LeastTarget(lib, snapshot, pkt, t) && r == Some(t)
      else r == RouteUserText(lib, user, base, pkt)
  {
    var p := Compiled(lib, snapshot).value;
    CompiledIsManaged(lib, snapshot);
    var root := MergedText(lib, base, p);
    MergedMeaning(lib, user, snapshot, root, pkt);
  }

  // On configuration text, for every packet that no IPv4-mapped source matches: the candidate the
  // merge returns sends each packet to the byte-least target some path of the canvas
  // wants it at, and where the base's own rules send it if no path does.
  lemma CandidateMeaning(lib: Library, user: UserSemantics, snapshot: Snapshot, base: string, pkt: Packet)
    requires LawfulAddresses(lib) && LawfulYaml(lib) && Compiled(lib, snapshot).Some?
    requires Distinguishes(lib, "flowcanvas", TargetNames(CanvasLines(lib, snapshot)))
    requires MatchedSourcesRepresentable(lib, snapshot, pkt)
    requires MergeText(lib, base, Compiled(lib, snapshot).value).Ok?
    ensures DecidedByCanvas(lib, snapshot, pkt,
      RouteText(lib, user, MergeText(lib, base, Compiled(lib, snapshot).value).value, pkt), RouteUserText(lib, user, base, pkt))
  {
    CandidateServes(lib, user, snapshot, base, pkt);
    LeastServedIsLeastWanted(lib, snapshot, pkt);
  }

  // ---- matches that reach no host ----

  // Host names are not empty and do not end in the root dot.
  predicate IsHost(host: string) {
    host != "" && host[|host| - 1] != '.'
  }

  ghost predicate ReachesHost(lib: Library, m: MatchSpec) {
    exists h :: IsHost(h) && MatchesHost(lib, m, h)
  }

  // Which match specifications that compile match any host at all: a domain or suffix
  // exactly if it does not end in a dot, a keyword always.
  lemma CompiledMatchReachesHostIff(lib: Library, m: MatchSpec)
    requires MihomoMatch(lib, m).Ok?
    ensures MatchValue(lib, m) != ""
    ensures ReachesHost(lib, m) <==> m.kind.MatchKeyword? || IsHost(MatchValue(lib, m))
  {
    var value := MatchValue(lib, m);
    match m.kind {
      case MatchDomain => DomainReachesIff(lib, m);
      case MatchSuffix => SuffixReachesIff(lib, m);
      case MatchKeyword => KeywordReaches(lib, m);
      case OtherMatch =>
    }
  }

  lemma DomainReachesIff(lib: Library, m: MatchSpec)
    requires m.kind.MatchDomain?
    ensures ReachesHost(lib, m) <==> IsHost(MatchValue(lib, m))
  {
    assert MatchesHost(lib, m, MatchValue(lib, m));
  }

  lemma SuffixReachesIff(lib: Library, m: MatchSpec)
    requires m.kind.MatchSuffix? && MatchValue(lib, m) != ""
    ensures ReachesHost(lib, m) <==> IsHost(MatchValue(lib, m))
  {
    var value := MatchValue(lib, m);
    var suffix := TrimPrefix(value, ".");
    var dotted := "." + suffix;
    assert dotted[|dotted| - 1] == value[|value| - 1];
    if IsHost(value) {
      assert suffix[|suffix| - 1] == value[|value| - 1];
      assert MatchesHost(lib, m, suffix);
    }
    forall h | IsHost(h) && MatchesHost(lib, m, h) ensures h[|h| - 1] == value[|value| - 1] {
      if HasSuffix(h, dotted) {
        assert h[|h| - |dotted|..][|dotted| - 1] == h[|h| - 1];
      }
    }
  }

  lemma KeywordReaches(lib: Library, m: MatchSpec)
    requires m.kind.MatchKeyword?
    ensures ReachesHost(lib, m)
  {
    var value := MatchValue(lib, m);
    var h := value + "x";
    assert PartAt(h, value, 0);
    assert IsHost(h) && MatchesHost(lib, m, h);
  }

  // A suffix match of a lone dot compiles, to an empty suffix, and is such a match.
  lemma BareDotSuffixMatchesNoHost(lib: Library, m: MatchSpec, host: string)
    requires m.kind.MatchSuffix? && MatchValue(lib, m) == "."
    requires IsHost(host)
    ensures MihomoMatch(lib, m) == Ok(Matcher(SuffixType, ""))
    ensures !MatchesHost(lib, m, host)
  {
    assert SafeText(".");
    assert TrimPrefix(".", ".") == "";
    assert "." + "" == ".";
  }
}
