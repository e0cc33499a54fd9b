// Splicing a compiled overlay into a complete configuration tree.
module ConfigMerge {
  import opened Wrappers
  import opened Text
  import opened Library
  import opened Domain
  import opened Compiler

  const PROVIDERS_KEY := "rule-providers"
  const RULES_KEY := "rules"
  const MANAGED_RULE_PREFIX := "RULE-SET,flowcanvas-"
  const PAYLOAD_PREFIX := "AND,((SRC-IP-CIDR,"

  datatype MergeError =
    | UnparsableBase
    | RootNotMapping
    | ProvidersNotMapping
    | RulesNotSequence
    | ManagedProviderInvalid
    | ManagedRuleMalformed

  // ---- reading the tree ----

  // The text a key is compared by: a scalar's value, an alias's name.
  function KeyText(n: Node): string {
    match n
    case Scalar(text) => text
    case Alias(name) => name
    case _ => ""
  }

  function Lookup(entries: seq<Entry>, key: string): Option<Node> {
    if entries == [] then None
    else if KeyText(entries[0].key) == key then Some(entries[0].value)
    else Lookup(entries[1..], key)
  }

  function SetEntry(entries: seq<Entry>, key: string, value: Node): seq<Entry> {
    if entries == [] then [Entry(Scalar(key), value)]
    else if KeyText(entries[0].key) == key then [Entry(entries[0].key, value)] + entries[1..]
    else [entries[0]] + SetEntry(entries[1..], key, value)
  }

  predicate ManagedName(name: string) {
    HasPrefix(name, MANAGED_PREFIX)
  }

  predicate ManagedRule(n: Node) {
    n.Scalar? && HasPrefix(TrimSpace(n.text), MANAGED_RULE_PREFIX)
  }

  function UserProviders(entries: seq<Entry>): seq<Entry> {
    if entries == [] then []
    else
      var front, e := UserProviders(entries[..|entries| - 1]), entries[|entries| - 1];
      if ManagedName(KeyText(e.key)) then front else front + [e]
  }

  function UserRules(items: seq<Node>): seq<Node> {
    if items == [] then []
    else
      var front, n := UserRules(items[..|items| - 1]), items[|items| - 1];
      if ManagedRule(n) then front else front + [n]
  }

  // ---- merging ----

  function ReplacedProviders(existing: Option<Node>, providers: seq<Provider>): Result<Node, MergeError> {
    match existing
    case None => Ok(Mapping(ProviderEntries(providers)))
    case Some(Mapping(entries)) => Ok(Mapping(UserProviders(entries) + ProviderEntries(providers)))
    case Some(_) => Err(ProvidersNotMapping)
  }

  function ReplacedRules(existing: Option<Node>, rules: seq<string>): Result<Node, MergeError> {
    match existing
    case None => Ok(Sequence(Scalars(rules)))
    case Some(Sequence(items)) => Ok(Sequence(Scalars(rules) + UserRules(items)))
    case Some(_) => Err(RulesNotSequence)
  }

  function MergeEntries(root: seq<Entry>, preview: Preview): Result<seq<Entry>, MergeError> {
    var providers := ReplacedProviders(Lookup(root, PROVIDERS_KEY), preview.providers);
    if providers.Err? then Err(providers.error)
    else
      var root' := SetEntry(root, PROVIDERS_KEY, providers.value);
      var rules := ReplacedRules(Lookup(root', RULES_KEY), preview.rules);
      if rules.Err? then Err(rules.error) else Ok(SetEntry(root', RULES_KEY, rules.value))
  }

  // ---- validating a candidate ----

  function ScalarAt(entries: seq<Entry>, key: string): string {
    match Lookup(entries, key)
    case Some(Scalar(text)) => text
    case _ => ""
  }

  predicate ValidPayload(n: Node) {
    n.Sequence? && forall i :: 0 <= i < |n.items| ==> n.items[i].Scalar? && HasPrefix(n.items[i].text, PAYLOAD_PREFIX)
  }

  predicate ValidManagedProvider(n: Node) {
    && n.Mapping?
    && ScalarAt(n.entries, "type") == "inline"
    && ScalarAt(n.entries, "behavior") == "classical"
    && var payload := Lookup(n.entries, "payload");
       payload.Some? && ValidPayload(payload.value)
  }

  predicate ValidProviderEntry(e: Entry) {
    ManagedName(KeyText(e.key)) ==> ValidManagedProvider(e.value)
  }

  predicate ValidRule(n: Node) {
    ManagedRule(n) ==>
      var parts := Split(n.text, ',');
      |parts| == 3 && ManagedName(parts[1]) && TrimSpace(parts[2]) != ""
  }

  function ValidateEntries(root: seq<Entry>): Result<(), MergeError> {
    match Lookup(root, PROVIDERS_KEY)
    case Some(Mapping(providers)) =>
      (match Lookup(root, RULES_KEY)
       case Some(Sequence(rules)) =>
         if exists i :: 0 <= i < |providers| && !ValidProviderEntry(providers[i]) then Err(ManagedProviderInvalid)
         else if exists i :: 0 <= i < |rules| && !ValidRule(rules[i]) then Err(ManagedRuleMalformed)
         else Ok(())
       case _ => Err(RulesNotSequence))
    case _ => Err(ProvidersNotMapping)
  }

  function ValidateText(lib: Library, candidate: string): Result<(), MergeError> {
    match lib.parseYaml(candidate)
    case None => Err(UnparsableBase)
    case Some(Mapping(root)) => ValidateEntries(root)
    case Some(_) => Err(RootNotMapping)
  }

  function MergeText(lib: Library, base: string, preview: Preview): Result<string, MergeError> {
    match lib.parseYaml(base)
    case None => Err(UnparsableBase)
    case Some(Mapping(root)) =>
      var merged := MergeEntries(root, preview);
      if merged.Err? then Err(merged.error)
      else
        var candidate := lib.emitYaml(Mapping(merged.value));
        var valid := ValidateText(lib, candidate);
        if valid.Err? then Err(valid.error) else Ok(candidate)
    case Some(_) => Err(RootNotMapping)
  }
}
