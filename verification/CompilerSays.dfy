// What the compiler says, in terms of the texts it is given: what it accepts, what it
// renders, which error it reports and which warnings it leaves.
module CompilerSays {
  import opened Wrappers
  import opened Text
  import opened Decimal
  import opened Library
  import opened Domain
  import opened Compiler
  import opened ConfigMerge
  import opened CompilerProperties
  import opened RoutingCorrect
  import opened Routing

  // ---- matches, targets and sources ----

  // Neither commas nor control characters.
  predicate Harmless(s: string) {
    forall i :: 0 <= i < |s| ==> s[i] != ',' && ' ' <= s[i] && !('\U{7F}' <= s[i] <= '\U{9F}')
  }

  lemma SafeTextIff(s: string)
    ensures SafeText(s) <==> Harmless(s)
  {
    var cs := SEPARATORS;
    assert cs[0] == ',' && cs[1] == '\r' && cs[2] == '\n' && cs[3] == '\0' && |cs| == 4;
    assert forall c :: c in cs <==> c == ',' || c == '\r' || c == '\n' || c == '\0';
  }

  // A match value is cleaned of case and surrounding spaces. It must not be empty or hold a
  // comma or a control character; a domain must not be an address, and a suffix loses one
  // leading dot.
  lemma MatchSays(lib: Library, m: MatchSpec, v: string)
    requires IsTrimmed(ToLower(lib, m.value), v)
    ensures MatchValue(lib, m) == v
    ensures MihomoMatch(lib, m) ==
      if v == "" || !Harmless(v) then Err(InvalidMatch)
      else match m.kind
        case MatchDomain => if lib.parseAddr(v).Some? then Err(InvalidMatch) else Ok(Matcher(DomainType, v))
        case MatchSuffix => Ok(Matcher(SuffixType, if v[0] == '.' then v[1..] else v))
        case MatchKeyword => Ok(Matcher(KeywordType, v))
        case OtherMatch => Err(UnsupportedMatchKind)
  {
    TrimSpaceIff(ToLower(lib, m.value), v);
    SafeTextIff(v);
    if v != "" {
      assert v[..1] == [v[0]] && "."[0] == '.';
    }
  }

  lemma TypesSay()
    ensures TypeText(DomainType) == "DOMAIN" && TypeText(SuffixType) == "DOMAIN-SUFFIX" && TypeText(KeywordType) == "DOMAIN-KEYWORD"
  {
  }

  lemma TargetSays(name: string)
    ensures ValidTargetName(name) <==> !Blank(name) && Harmless(name)
  {
    BlankIff(name);
    SafeTextIff(name);
  }

  // An IPv6 address of the form ::ffff:a.b.c.d.
  predicate Mapped(a: Address) {
    a.V6? && 0xFFFF_0000_0000 <= a.bits6 <= 0xFFFF_FFFF_FFFF
  }

  lemma MappedSays(a: Address)
    ensures IsMapped(a) <==> Mapped(a)
    ensures Mapped(a) ==> Unmap(a) == V4(a.bits6 - 0xFFFF_0000_0000)
    ensures !Mapped(a) ==> Unmap(a) == a
  {
  }

  lemma LengthTexts()
    ensures DecimalText(32) == "32" && DecimalText(128) == "128"
  {
    assert DecimalText(3) == [Digit(3)] && DecimalText(1) == [Digit(1)];
    assert DecimalText(32) == DecimalText(3) + [Digit(2)];
    assert DecimalText(12) == DecimalText(1) + [Digit(2)];
    assert DecimalText(128) == DecimalText(12) + [Digit(8)];
  }

  // The full-length prefix of an address, without its zone; a mapped one has none.
  function FullPrefix(lib: Library, a: Address): string {
    match a
    case V4(bits) => lib.addrText(V4(bits)) + "/32"
    case V6(bits, zone) => if Mapped(a) then "invalid Prefix" else lib.addrText(V6(bits, "")) + "/128"
  }

  lemma PrefixSays(lib: Library, a: Address)
    ensures PrefixText(lib, Unmap(a), if a.V4? then 32 else 128) == FullPrefix(lib, a)
  {
    LengthTexts();
    MappedSays(a);
    match a {
      case V4(bits) => assert lib.addrText(V4(bits)) + "/32" == lib.addrText(V4(bits)) + "/" + "32";
      case V6(bits, zone) => assert lib.addrText(V6(bits, "")) + "/128" == lib.addrText(V6(bits, "")) + "/" + "128";
    }
  }

  lemma SourceSays(lib: Library, ip: string, t: string)
    requires IsTrimmed(ip, t)
    ensures SourceCidr(lib, ip) ==
      if lib.parseAddr(t).None? then Err(InvalidSourceIP) else Ok(FullPrefix(lib, lib.parseAddr(t).value))
  {
    TrimSpaceIff(ip, t);
    if lib.parseAddr(t).Some? {
      PrefixSays(lib, lib.parseAddr(t).value);
    }
  }

  // ---- one edge ----

  ghost predicate Runs(catalog: Catalog, e: CanvasEdge, from: NodeKind, to: NodeKind) {
    e.source in catalog && e.target in catalog && catalog[e.source].kind == from && catalog[e.target].kind == to
  }

  // Which edges wire a filter, and which errors the others have.
  lemma EdgeSays(catalog: Catalog, e: CanvasEdge)
    ensures EntersFilter(catalog, e) <==> Runs(catalog, e, SourceKind, FilterKind)
    ensures LeavesFilter(catalog, e) <==> Runs(catalog, e, FilterKind, TargetKind)
    ensures Undirected(catalog, e) ==
      if e.source !in catalog || e.target !in catalog then Some(NodeUnavailable)
      else if !Runs(catalog, e, SourceKind, FilterKind) && !Runs(catalog, e, FilterKind, TargetKind) then Some(InvalidEdgeDirection)
      else None
  {
  }

  // ---- one filter ----

  // The line of an intent, or its first error.
  lemma IntentSays(lib: Library, intent: IntentData)
    requires intent.source.SourceData? && intent.filter.FilterData? && intent.target.TargetData?
    ensures RenderIntent(lib, intent) ==
      var prefix, m, name := SourceCidr(lib, intent.source.ip), MihomoMatch(lib, intent.filter.match_), intent.target.proxyName;
      if prefix.Err? then Err(InvalidSourceIP)
      else if m.Err? then Err(m.error)
      else if !ValidTargetName(name) then Err(InvalidTarget)
      else Ok(Line(name, "AND,((SRC-IP-CIDR," + prefix.value + "),(" + TypeText(m.value.type_) + "," + m.value.value + "))",
                   intent.target.inactive || !intent.target.alive))
  {
  }

  // Which error a wired filter has, or that it has none and renders its path.
  lemma FilterSays(lib: Library, catalog: Catalog, edges: set<CanvasEdge>, f: string)
    ensures |SourcesOf(catalog, edges, f)| != 1 ==> FilterLine(lib, catalog, edges, f) == Err(SourceAmbiguous)
    ensures |SourcesOf(catalog, edges, f)| == 1 && |TargetsOf(catalog, edges, f)| != 1 ==>
      FilterLine(lib, catalog, edges, f) == Err(TargetAmbiguous)
    ensures |SourcesOf(catalog, edges, f)| == 1 && |TargetsOf(catalog, edges, f)| == 1 ==>
      forall s, t :: Path(catalog, edges, s, f, t) ==> PathSays(lib, catalog, edges, s, f, t)
  {
    if |SourcesOf(catalog, edges, f)| == 1 && |TargetsOf(catalog, edges, f)| == 1 {
      forall s, t | Path(catalog, edges, s, f, t) ensures PathSays(lib, catalog, edges, s, f, t) {
        UniquePath(catalog, edges, s, f, t);
      }
    }
  }

  ghost predicate PathSays(lib: Library, catalog: Catalog, edges: set<CanvasEdge>, s: string, f: string, t: string)
    requires Path(catalog, edges, s, f, t)
  {
    var source, filter, target := catalog[s].data, catalog[f].data, catalog[t].data;
    FilterLine(lib, catalog, edges, f) ==
      if !source.SourceData? || !filter.FilterData? || !target.TargetData? then Err(NodeDataInvalid)
      else if source.deviceId != filter.deviceId then Err(ForeignFilter)
      else RenderIntent(lib, IntentData(source, filter, target))
  }

  // ---- the whole preview ----

  // A proxy of some path that is dead or inactive.
  ghost predicate Unavailable(snapshot: Snapshot, name: string) {
    var catalog, edges := CatalogOf(snapshot.nodes), EdgeSet(snapshot.edges);
    exists s, f, t :: Path(catalog, edges, s, f, t) && IsUnavailable(catalog, t, name)
  }

  predicate IsUnavailable(catalog: Catalog, t: string, name: string) {
    t in catalog && catalog[t].data.TargetData? && catalog[t].data.proxyName == name && (!catalog[t].data.alive || catalog[t].data.inactive)
  }

  // A preview warns exactly of the unavailable proxies that are wired, once each and sorted.
  lemma WarningsSay(lib: Library, snapshot: Snapshot)
    requires Compiled(lib, snapshot).Some?
    ensures Sorted(Compiled(lib, snapshot).value.warnings)
    ensures forall w :: w in Compiled(lib, snapshot).value.warnings <==>
      exists name :: Unavailable(snapshot, name) && w == lib.unavailableNotice(name)
  {
    var p, lines := Compiled(lib, snapshot).value, CanvasLines(lib, snapshot);
    assert p.warnings == SortedKeys(Notices(lib, lines));
    forall w | w in p.warnings ensures exists name :: Unavailable(snapshot, name) && w == lib.unavailableNotice(name) {
      var l :| l in lines && l.unavailable && w == lib.unavailableNotice(l.target);
      LineIsUnavailable(lib, snapshot, l);
    }
    forall name | Unavailable(snapshot, name) ensures lib.unavailableNotice(name) in p.warnings {
      var l := UnavailableHasLine(lib, snapshot, name);
    }
  }

  lemma LineIsUnavailable(lib: Library, snapshot: Snapshot, l: Line)
    requires l in CanvasLines(lib, snapshot) && l.unavailable
    ensures Unavailable(snapshot, l.target)
  {
    var catalog, edges := CatalogOf(snapshot.nodes), EdgeSet(snapshot.edges);
    LineHasFilter(CanvasOutcomes(lib, snapshot), l);
    var f :| f in CanvasOutcomes(lib, snapshot) && CanvasOutcomes(lib, snapshot)[f] == Ok(l);
    FilterHasPath(lib, catalog, edges, f);
    var s, t :| Path(catalog, edges, s, f, t);
    var intent := LineIsIntent(catalog, edges, f, s, t);
    IntentSays(lib, intent);
    assert IsUnavailable(catalog, t, l.target);
  }

  lemma UnavailableHasLine(lib: Library, snapshot: Snapshot, name: string) returns (l: Line)
    requires Compiled(lib, snapshot).Some? && Unavailable(snapshot, name)
    ensures l in CanvasLines(lib, snapshot) && l.unavailable && l.target == name
  {
    var catalog, edges := CatalogOf(snapshot.nodes), EdgeSet(snapshot.edges);
    var s, f, t :| Path(catalog, edges, s, f, t) && IsUnavailable(catalog, t, name);
    EveryWiredFilterContributes(lib, snapshot, f);
    var intent := LineIsIntent(catalog, edges, f, s, t);
    IntentSays(lib, intent);
    l := FilterLine(lib, catalog, edges, f).value;
  }

  // The rest of a preview: where it comes from, and a text that reads back as a mapping of
  // its providers and its rules, with the hash of that text.
  lemma PreviewSays(lib: Library, snapshot: Snapshot)
    requires LawfulYaml(lib) && Compiled(lib, snapshot).Some?
    ensures var p := Compiled(lib, snapshot).value;
      && p.canvasId == snapshot.canvasId && p.revision == snapshot.revision
      && p.contentHash == lib.contentHash(p.managedYaml)
      && lib.parseYaml(p.managedYaml) == Some(Mapping([
           Entry(Scalar("rule-providers"), Mapping(ProviderEntries(p.providers))),
           Entry(Scalar("rules"), Sequence(Scalars(p.rules)))]))
  {
  }

  // A provider's entry: its name, and an inline provider with classical payload.
  lemma ProviderEntrySays(providers: seq<Provider>, i: nat)
    requires i < |providers|
    ensures var e := ProviderEntries(providers)[i];
      && e.key == Scalar(providers[i].name)
      && e.value == Mapping([Entry(Scalar("type"), Scalar("inline")), Entry(Scalar("behavior"), Scalar("classical")),
                             Entry(Scalar("payload"), Sequence(Scalars(providers[i].payload)))])
  {
  }

  // ---- identifiers ----

  function HexValue(c: char): int {
    if '0' <= c <= '9' then c as int - '0' as int else c as int - 'a' as int + 10
  }

  // Two digits a byte, from which the bytes can be read back.
  lemma {:induction false} HexSays(bytes: seq<Byte>, i: nat)
    requires i < |bytes|
    ensures |Hex(bytes)| == 2 * |bytes|
    ensures 16 * HexValue(Hex(bytes)[2 * i]) + HexValue(Hex(bytes)[2 * i + 1]) == bytes[i] as int
  {
    var n := bytes[0] as int;
    assert HexValue(HexDigit(n / 16)) == n / 16 && HexValue(HexDigit(n % 16)) == n % 16;
    if |bytes| > 1 {
      HexSays(bytes[1..], if i > 0 then i - 1 else 0);
    }
  }

  lemma ProviderNameSays(lib: Library, target: string)
    ensures ProviderName(lib, target) == "flowcanvas-" + Hex(lib.digest(target))
  {
    assert "flowcanvas" + "-" == "flowcanvas-";
  }
}
