// From an observed connection to the rule that routes it: the telemetry side and the
// compiler side agree on what a discovered flow is.
module ObservedRouting {
  import opened Wrappers
  import opened Text
  import opened Library
  import opened Domain
  import opened Compiler
  import CompilerProperties
  import opened ConfigMerge
  import opened Routing
  import opened RoutingCorrect
  import opened Models

  // An address without a zone renders to a text that neither starts nor ends with a
  // space; a zone, which is any non-empty text, is appended after a percent sign.
  ghost predicate PlainAddresses(lib: Library) {
    && (forall a: Address :: Unzoned(a) ==> Tight(lib.addrText(a)))
    && (forall bits: Bits6 :: lib.parseAddr(lib.addrText(V6(bits, "")) + "%") == None)
    && (forall bits: Bits6, zone: string :: zone != "" ==>
          && lib.addrText(V6(bits, zone)) == lib.addrText(V6(bits, "")) + "%" + zone
          && lib.parseAddr(lib.addrText(V6(bits, zone))) == Some(V6(bits, zone)))
  }

  predicate Tight(s: string) {
    s != "" && !IsSpace(s[0]) && !IsSpace(s[|s| - 1])
  }

  predicate Unzoned(a: Address) {
    a.V6? ==> a.zone == ""
  }

  predicate BlankZone(a: Address) {
    a.V6? && a.zone != "" && Blank(a.zone)
  }

  // The stored text of an address, read again as the compiler does, gives the address
  // back up to its zone; only a zone of nothing but spaces is no longer readable.
  lemma AddressSurvivesIff(lib: Library, a: Address)
    requires LawfulAddresses(lib) && PlainAddresses(lib)
    ensures var again := lib.parseAddr(TrimSpace(lib.addrText(a)));
      if BlankZone(a) then again.None? else again.Some? && WithoutZone(again.value) == WithoutZone(a)
  {
    if Unzoned(a) {
      assert Tight(lib.addrText(a));
      Trimmed(lib.addrText(a));
      assert lib.parseAddr(lib.addrText(a)) == Some(a);
    } else {
      var base := lib.addrText(V6(a.bits6, ""));
      assert Unzoned(V6(a.bits6, "")) && Tight(base);
      TrimZone(base, a.zone);
      TrimRightBlank(a.zone);
      var zone := TrimRight(a.zone);
      if zone == "" {
        assert base + "%" + zone == base + "%";
      } else {
        assert lib.addrText(V6(a.bits6, zone)) == base + "%" + zone;
      }
    }
  }

  lemma TrimZone(base: string, zone: string)
    requires Tight(base)
    ensures TrimSpace(base + "%" + zone) == base + "%" + TrimRight(zone)
  {
    var head := base + "%";
    assert (head + zone)[0] == base[0];
    assert TrimLeft(head + zone) == head + zone;
    TrimRightAppend(head, zone);
  }

  lemma HostMatchesItselfIff(lib: Library, raw: string)
    requires LawfulCase(lib) && CanonicalHost(lib, raw) != ""
    ensures var h := CanonicalHost(lib, raw);
      MatchesHost(lib, MatchSpec(MatchDomain, h), h) <==> !EndsInSpace(h)
  {
    var h := CanonicalHost(lib, raw);
    CanonicalShape(lib, raw);
    assert MatchValue(lib, MatchSpec(MatchDomain, h)) == TrimSpace(h);
    TrimmedIff(h);
  }

  lemma SourceMatchesItselfIff(lib: Library, a: Address)
    requires LawfulAddresses(lib) && PlainAddresses(lib)
    ensures MatchesSource(lib, lib.addrText(a), a) <==> !IsMapped(a) && !BlankZone(a)
  {
    AddressSurvivesIff(lib, a);
  }

  // The flow discovered from a connection, as a canvas intent, matches the traffic of
  // that connection, unless its address is IPv4-mapped or has a blank zone, or a space
  // ends its host.
  lemma FlowMatchesItsConnectionIff(lib: Library, c: Connection, observedAt: int)
    requires LawfulAddresses(lib) && PlainAddresses(lib) && LawfulCase(lib)
    requires NormalizeConnection(lib, c, observedAt).Some? && lib.parseAddr(c.sourceIP).Some?
    ensures var f, a := NormalizeConnection(lib, c, observedAt).value, lib.parseAddr(c.sourceIP).value;
      IntentMatches(lib, f.sourceIP, MatchSpec(MatchDomain, f.host), Packet(a, f.host)) <==>
        !IsMapped(a) && !BlankZone(a) && !EndsInSpace(f.host)
  {
    var f, a := NormalizeConnection(lib, c, observedAt).value, lib.parseAddr(c.sourceIP).value;
    Admitted(lib, c, observedAt);
    SourceMatchesItselfIff(lib, a);
    var raw := if f.host == CanonicalHost(lib, c.sniffHost) then c.sniffHost else c.host;
    assert f.host == CanonicalHost(lib, raw);
    HostMatchesItselfIff(lib, raw);
  }

  // The nodes of a path stand for an observed connection and a proxy.
  ghost predicate Wires(catalog: Catalog, s: string, f: string, t: string, feature: Telemetry.Feature, name: string) {
    && s in catalog && f in catalog && t in catalog
    && catalog[s].data.SourceData? && catalog[s].data.ip == feature.sourceIP
    && catalog[f].data.FilterData? && catalog[f].data.match_ == MatchSpec(MatchDomain, feature.host)
    && catalog[t].data.TargetData? && catalog[t].data.proxyName == name
  }

  // The source of a path of a canvas that compiles has an address.
  lemma WiredSourceParses(lib: Library, snapshot: Snapshot, s: string, f: string, t: string)
    requires Compiled(lib, snapshot).Some? && Path(CatalogOf(snapshot.nodes), EdgeSet(snapshot.edges), s, f, t)
    ensures var catalog := CatalogOf(snapshot.nodes);
      s in catalog && catalog[s].data.SourceData? && lib.parseAddr(TrimSpace(catalog[s].data.ip)).Some?
  {
    var catalog, edges := CatalogOf(snapshot.nodes), EdgeSet(snapshot.edges);
    CompilerProperties.EveryWiredFilterContributes(lib, snapshot, f);
    var intent := LineIsIntent(catalog, edges, f, s, t);
    assert RenderIntent(lib, intent).Ok?;
    assert SourceCidr(lib, intent.source.ip).Ok?;
  }

  // Once a discovered flow is wired to a proxy and the canvas compiles, the merged
  // configuration sends the traffic of that very connection to the least proxy serving
  // it, whatever the user's own rules say; that is the wired one unless another path
  // claims the same traffic for a lesser name. It is the least proxy wanted, too, unless
  // an IPv4-mapped spelling of the same address wants it elsewhere.
  lemma WiredConnectionIsRouted(lib: Library, user: UserSemantics, snapshot: Snapshot, base: string,
                                c: Connection, observedAt: int, s: string, f: string, t: string, name: string)
    requires LawfulAddresses(lib) && LawfulYaml(lib) && PlainAddresses(lib) && LawfulCase(lib)
    requires Compiled(lib, snapshot).Some? && MergeText(lib, base, Compiled(lib, snapshot).value).Ok?
    requires Distinguishes(lib, "flowcanvas", TargetNames(CanvasLines(lib, snapshot)))
    requires NormalizeConnection(lib, c, observedAt).Some? && lib.parseAddr(c.sourceIP).Some?
    requires !IsMapped(lib.parseAddr(c.sourceIP).value) && !EndsInSpace(NormalizeConnection(lib, c, observedAt).value.host)
    requires Path(CatalogOf(snapshot.nodes), EdgeSet(snapshot.edges), s, f, t)
    requires Wires(CatalogOf(snapshot.nodes), s, f, t, NormalizeConnection(lib, c, observedAt).value, name)
    ensures var pkt := Packet(lib.parseAddr(c.sourceIP).value, NormalizeConnection(lib, c, observedAt).value.host);
      var route := RouteText(lib, user, MergeText(lib, base, Compiled(lib, snapshot).value).value, pkt);
      && route.Some? && LeastTarget(lib, snapshot, pkt, route.value)
      && (route == Some(name) || Less(route.value, name))
      && (MatchedSourcesRepresentable(lib, snapshot, pkt) ==> LeastWanted(lib, snapshot, pkt, route.value))
  {
    var feature, a := NormalizeConnection(lib, c, observedAt).value, lib.parseAddr(c.sourceIP).value;
    var pkt := Packet(a, feature.host);
    WiredConnectionIsServed(lib, snapshot, c, observedAt, s, f, t, name);
    CandidateServes(lib, user, snapshot, base, pkt);
    if MatchedSourcesRepresentable(lib, snapshot, pkt) {
      LeastServedIsLeastWanted(lib, snapshot, pkt);
    }
  }

  lemma WiredConnectionIsServed(lib: Library, snapshot: Snapshot, c: Connection, observedAt: int, s: string, f: string, t: string, name: string)
    requires LawfulAddresses(lib) && PlainAddresses(lib) && LawfulCase(lib) && Compiled(lib, snapshot).Some?
    requires NormalizeConnection(lib, c, observedAt).Some? && lib.parseAddr(c.sourceIP).Some?
    requires !IsMapped(lib.parseAddr(c.sourceIP).value) && !EndsInSpace(NormalizeConnection(lib, c, observedAt).value.host)
    requires Path(CatalogOf(snapshot.nodes), EdgeSet(snapshot.edges), s, f, t)
    requires Wires(CatalogOf(snapshot.nodes), s, f, t, NormalizeConnection(lib, c, observedAt).value, name)
    ensures Served(lib, snapshot, Packet(lib.parseAddr(c.sourceIP).value, NormalizeConnection(lib, c, observedAt).value.host), name)
  {
    var feature, a := NormalizeConnection(lib, c, observedAt).value, lib.parseAddr(c.sourceIP).value;
    var catalog := CatalogOf(snapshot.nodes);
    Admitted(lib, c, observedAt);
    WiredSourceParses(lib, snapshot, s, f, t);
    AddressSurvivesIff(lib, a);
    FlowMatchesItsConnectionIff(lib, c, observedAt);
    assert PathMatches(lib, catalog, s, f, t, Packet(a, feature.host), name);
    assert Representable(lib, catalog[s].data.ip);
  }
}
