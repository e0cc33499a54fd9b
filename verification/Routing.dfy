// A first-match semantics of the rule language, and what the canvas means without any
// compilation: the two sides of the compiler's correctness theorem.
module Routing {
  import opened Wrappers
  import opened Text
  import opened Decimal
  import opened Library
  import opened Domain
  import opened Compiler
  import opened ConfigMerge
  import opened ConfigMergeLaws
  import opened RuleSyntax

  datatype Packet = Packet(src: Address, host: string)

  // What a user's own rule decides. It may depend on everything the user wrote, but not
  // on managed entries.
  type UserSemantics = (Node, UserView, Packet) -> Option<string>

  // ---- matching a payload line ----

  function Pow2(n: nat): (r: nat)
    ensures r > 0
  {
    if n == 0 then 1 else 2 * Pow2(n - 1)
  }

  function BitsOf(a: Address): nat {
    if a.V4? then a.bits4 else a.bits6
  }

  predicate SameNetwork(a: Address, b: Address, bits: nat)
    requires bits <= Width(a)
  {
    a.V4? == b.V4? && BitsOf(a) / Pow2(Width(a) - bits) == BitsOf(b) / Pow2(Width(a) - bits)
  }

  predicate CidrMatches(lib: Library, text: string, src: Address) {
    var parts := Split(text, '/');
    && |parts| == 2
    && var a, bits := lib.parseAddr(parts[0]), ParseDigits(parts[1]);
       a.Some? && bits.Some? && bits.value <= Width(a.value) && SameNetwork(a.value, src, bits.value)
  }

  predicate HostMatches(matchType: string, value: string, host: string) {
    if matchType == "DOMAIN" then host == value
    else if matchType == "DOMAIN-SUFFIX" then host == value || HasSuffix(host, "." + value)
    else matchType == "DOMAIN-KEYWORD" && Contains(host, value)
  }

  predicate PayloadMatches(lib: Library, text: string, pkt: Packet) {
    var p := ParsePayload(text);
    p.Some? && CidrMatches(lib, p.value.prefix, pkt.src) && HostMatches(p.value.matchType, p.value.value, pkt.host)
  }

  predicate AnyPayloadMatches(lib: Library, items: seq<Node>, pkt: Packet) {
    exists i :: 0 <= i < |items| && items[i].Scalar? && PayloadMatches(lib, items[i].text, pkt)
  }

  predicate ProviderMatches(lib: Library, providers: seq<Entry>, name: string, pkt: Packet) {
    match Lookup(providers, name)
    case Some(Mapping(entries)) =>
      (match Lookup(entries, "payload")
       case Some(Sequence(items)) => AnyPayloadMatches(lib, items, pkt)
       case _ => false)
    case _ => false
  }

  // ---- first match ----

  function RuleSetTarget(lib: Library, providers: seq<Entry>, text: string, pkt: Packet): Option<string> {
    var parts := Split(text, ',');
    if |parts| == 3 && ProviderMatches(lib, providers, parts[1], pkt) then Some(parts[2]) else None
  }

  function RuleTarget(lib: Library, user: UserSemantics, root: seq<Entry>, rule: Node, pkt: Packet): Option<string> {
    if ManagedRule(rule) then RuleSetTarget(lib, ProvidersIn(root), rule.text, pkt)
    else user(rule, View(root), pkt)
  }

  function FirstMatch(lib: Library, user: UserSemantics, root: seq<Entry>, rules: seq<Node>, pkt: Packet): Option<string> {
    if rules == [] then None
    else
      var t := RuleTarget(lib, user, root, rules[0], pkt);
      if t.Some? then t else FirstMatch(lib, user, root, rules[1..], pkt)
  }

  // Where a configuration sends a packet.
  function Route(lib: Library, user: UserSemantics, root: seq<Entry>, pkt: Packet): Option<string> {
    FirstMatch(lib, user, root, RulesIn(root), pkt)
  }

  // Where the user's own rules alone send it.
  function FirstUserMatch(user: UserSemantics, view: UserView, rules: seq<Node>, pkt: Packet): Option<string> {
    if rules == [] then None
    else
      var t := user(rules[0], view, pkt);
      if t.Some? then t else FirstUserMatch(user, view, rules[1..], pkt)
  }

  function RouteUser(user: UserSemantics, root: seq<Entry>, pkt: Packet): Option<string> {
    FirstUserMatch(user, View(root), View(root).rules, pkt)
  }

  // ---- the canvas by itself ----

  // An intent wants the traffic of its device to its hosts.
  predicate MatchesHost(lib: Library, m: MatchSpec, host: string) {
    var value := MatchValue(lib, m);
    match m.kind
    case MatchDomain => host == value
    case MatchSuffix =>
      var suffix := TrimPrefix(value, ".");
      host == suffix || HasSuffix(host, "." + suffix)
    case MatchKeyword => Contains(host, value)
    case OtherMatch => false
  }

  predicate MatchesSource(lib: Library, ip: string, src: Address) {
    var a := lib.parseAddr(TrimSpace(ip));
    a.Some? && WithoutZone(Unmap(a.value)) == WithoutZone(src)
  }

  // The source can be written as a prefix: it is not an IPv4-mapped IPv6 address.
  predicate Representable(lib: Library, ip: string) {
    var a := lib.parseAddr(TrimSpace(ip));
    a.Some? && !IsMapped(a.value)
  }

  predicate IntentMatches(lib: Library, ip: string, m: MatchSpec, pkt: Packet) {
    MatchesSource(lib, ip, pkt.src) && MatchesHost(lib, m, pkt.host)
  }

  // A path source -> filter -> target of the canvas, straight from its edges.
  ghost predicate Path(catalog: Catalog, edges: set<CanvasEdge>, s: string, f: string, t: string) {
    && (exists e :: e in edges && EntersFilter(catalog, e) && e.source == s && e.target == f)
    && (exists e :: e in edges && LeavesFilter(catalog, e) && e.source == f && e.target == t)
  }

  ghost predicate PathMatches(lib: Library, catalog: Catalog, s: string, f: string, t: string, pkt: Packet, target: string) {
    && s in catalog && f in catalog && t in catalog
    && catalog[s].data.SourceData? && catalog[f].data.FilterData? && catalog[t].data.TargetData?
    && catalog[t].data.proxyName == target
    && IntentMatches(lib, catalog[s].data.ip, catalog[f].data.match_, pkt)
  }

  // Some path of the canvas sends the packet to the target.
  ghost predicate Wanted(lib: Library, snapshot: Snapshot, pkt: Packet, target: string) {
    var catalog, edges := CatalogOf(snapshot.nodes), EdgeSet(snapshot.edges);
    exists s, f, t :: Path(catalog, edges, s, f, t) && PathMatches(lib, catalog, s, f, t, pkt, target)
  }

  // The same, through a source whose address can be written as a prefix.
  ghost predicate Served(lib: Library, snapshot: Snapshot, pkt: Packet, target: string) {
    var catalog, edges := CatalogOf(snapshot.nodes), EdgeSet(snapshot.edges);
    exists s, f, t ::
      && Path(catalog, edges, s, f, t)
      && PathMatches(lib, catalog, s, f, t, pkt, target)
      && Representable(lib, catalog[s].data.ip)
  }

  // Every path that matches the packet starts at an address that can be written as a
  // prefix. Other devices, wired or not, do not matter.
  ghost predicate MatchedSourcesRepresentable(lib: Library, snapshot: Snapshot, pkt: Packet) {
    var catalog, edges := CatalogOf(snapshot.nodes), EdgeSet(snapshot.edges);
    forall s, f, t, target :: Path(catalog, edges, s, f, t) && PathMatches(lib, catalog, s, f, t, pkt, target) ==>
      Representable(lib, catalog[s].data.ip)
  }
}
