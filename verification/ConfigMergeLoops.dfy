// The merge as the program runs it: the root mapping edited in place, the replaced
// sections appended to in loops.
module ConfigMergeLoops {
  import opened Wrappers
  import opened Text
  import opened Library
  import opened Domain
  import opened Compiler
  import opened ConfigMerge

  class MappingNode {
    var entries: seq<Entry>

    constructor (entries: seq<Entry>)
      ensures this.entries == entries
    {
      this.entries := entries;
    }

    method MappingValue(key: string) returns (r: Option<Node>)
      ensures r == Lookup(entries, key)
    {
      var i := 0;
      while i < |entries|
        invariant 0 <= i <= |entries|
        invariant Lookup(entries, key) == Lookup(entries[i..], key)
      {
        if KeyText(entries[i].key) == key {
          return Some(entries[i].value);
        }
        assert entries[i..][1..] == entries[i + 1..];
        i := i + 1;
      }
      r := None;
    }

    // Overwrites the first entry with that key, or appends one.
    method SetMappingValue(key: string, value: Node)
      modifies this
      ensures entries == SetEntry(old(entries), key, value)
    {
      var i := 0;
      while i < |entries|
        invariant 0 <= i <= |entries| && entries == old(entries)
        invariant SetEntry(entries, key, value) == entries[..i] + SetEntry(entries[i..], key, value)
      {
        SetEntryAt(entries, i, key, value);
        if KeyText(entries[i].key) == key {
          entries := entries[i := Entry(entries[i].key, value)];
          return;
        }
        i := i + 1;
      }
      entries := entries + [Entry(Scalar(key), value)];
    }
  }

  lemma SetEntryAt(entries: seq<Entry>, i: nat, key: string, value: Node)
    requires i < |entries| && SetEntry(entries, key, value) == entries[..i] + SetEntry(entries[i..], key, value)
    ensures SetEntry(entries, key, value) ==
      if KeyText(entries[i].key) == key then entries[i := Entry(entries[i].key, value)]
      else entries[..i + 1] + SetEntry(entries[i + 1..], key, value)
  {
    assert entries[i..][1..] == entries[i + 1..];
    if KeyText(entries[i].key) == key {
      UpdateSplits(entries, i, Entry(entries[i].key, value));
    } else {
      PrefixGrows(entries, i, SetEntry(entries[i + 1..], key, value));
    }
  }

  lemma UpdateSplits(entries: seq<Entry>, i: nat, e: Entry)
    requires i < |entries|
    ensures entries[i := e] == entries[..i] + ([e] + entries[i + 1..])
  {
  }

  lemma PrefixGrows(entries: seq<Entry>, i: nat, rest: seq<Entry>)
    requires i < |entries|
    ensures entries[..i] + ([entries[i]] + rest) == entries[..i + 1] + rest
  {
  }

  method ReplaceManagedProviders(existing: Option<Node>, providers: seq<Provider>) returns (r: Result<Node, MergeError>)
    ensures r == ReplacedProviders(existing, providers)
  {
    if existing.Some? && !existing.value.Mapping? {
      return Err(ProvidersNotMapping);
    }
    var content: seq<Entry> := [];
    if existing.Some? {
      var old_ := existing.value.entries;
      for i := 0 to |old_|
        invariant content == UserProviders(old_[..i])
      {
        assert old_[..i + 1][..i] == old_[..i];
        if ManagedName(KeyText(old_[i].key)) {
          continue;
        }
        content := content + [old_[i]];
      }
      assert old_[..|old_|] == old_;
    }
    ghost var user := content;
    for i := 0 to |providers|
      invariant |content| == |user| + i && content[..|user|] == user
      invariant forall k :: 0 <= k < i ==> content[|user| + k] == ProviderEntries(providers)[k]
    {
      content := content + [Entry(Scalar(providers[i].name), ProviderNode(providers[i].payload))];
    }
    assert content == user + ProviderEntries(providers);
    r := Ok(Mapping(content));
  }

  method ReplaceManagedRules(existing: Option<Node>, managedRules: seq<string>) returns (r: Result<Node, MergeError>)
    ensures r == ReplacedRules(existing, managedRules)
  {
    if existing.Some? && !existing.value.Sequence? {
      return Err(RulesNotSequence);
    }
    var content: seq<Node> := [];
    for i := 0 to |managedRules|
      invariant |content| == i && forall k :: 0 <= k < i ==> content[k] == Scalars(managedRules)[k]
    {
      content := content + [Scalar(managedRules[i])];
    }
    assert content == Scalars(managedRules);
    if existing.None? {
      return Ok(Sequence(content));
    }
    var items := existing.value.items;
    for i := 0 to |items|
      invariant content == Scalars(managedRules) + UserRules(items[..i])
    {
      assert items[..i + 1][..i] == items[..i];
      if ManagedRule(items[i]) {
        continue;
      }
      content := content + [items[i]];
    }
    assert items[..|items|] == items;
    r := Ok(Sequence(content));
  }

  method ValidateProviders(providers: seq<Entry>) returns (r: Result<(), MergeError>)
    ensures r == if exists i :: 0 <= i < |providers| && !ValidProviderEntry(providers[i]) then Err(ManagedProviderInvalid) else Ok(())
  {
    for i := 0 to |providers|
      invariant forall k :: 0 <= k < i ==> ValidProviderEntry(providers[k])
    {
      if !ManagedName(KeyText(providers[i].key)) {
        continue;
      }
      if !ValidManagedProvider(providers[i].value) {
        assert !ValidProviderEntry(providers[i]);
        return Err(ManagedProviderInvalid);
      }
    }
    r := Ok(());
  }

  method ValidateRules(rules: seq<Node>) returns (r: Result<(), MergeError>)
    ensures r == if exists i :: 0 <= i < |rules| && !ValidRule(rules[i]) then Err(ManagedRuleMalformed) else Ok(())
  {
    for i := 0 to |rules|
      invariant forall k :: 0 <= k < i ==> ValidRule(rules[k])
    {
      if !ManagedRule(rules[i]) {
        continue;
      }
      var parts := Split(rules[i].text, ',');
      if |parts| != 3 || !ManagedName(parts[1]) || TrimSpace(parts[2]) == "" {
        assert !ValidRule(rules[i]);
        return Err(ManagedRuleMalformed);
      }
    }
    r := Ok(());
  }

  method ValidateManagedConfiguration(lib: Library, candidate: string) returns (r: Result<(), MergeError>)
    ensures r == ValidateText(lib, candidate)
  {
    var document := lib.parseYaml(candidate);
    if document.None? {
      return Err(UnparsableBase);
    }
    if !document.value.Mapping? {
      return Err(RootNotMapping);
    }
    var root := new MappingNode(document.value.entries);
    var providers := root.MappingValue(PROVIDERS_KEY);
    if providers.None? || !providers.value.Mapping? {
      return Err(ProvidersNotMapping);
    }
    var rules := root.MappingValue(RULES_KEY);
    if rules.None? || !rules.value.Sequence? {
      return Err(RulesNotSequence);
    }
    r := ValidateProviders(providers.value.entries);
    if r.Ok? {
      r := ValidateRules(rules.value.items);
    }
  }

  method MergeManagedOverlay(lib: Library, base: string, preview: Preview) returns (r: Result<string, MergeError>)
    ensures r == MergeText(lib, base, preview)
  {
    var document := lib.parseYaml(base);
    if document.None? {
      return Err(UnparsableBase);
    }
    if !document.value.Mapping? {
      return Err(RootNotMapping);
    }
    var root := new MappingNode(document.value.entries);
    var existingProviders := root.MappingValue(PROVIDERS_KEY);
    var providers := ReplaceManagedProviders(existingProviders, preview.providers);
    if providers.Err? {
      return Err(providers.error);
    }
    root.SetMappingValue(PROVIDERS_KEY, providers.value);
    var existingRules := root.MappingValue(RULES_KEY);
    var rules := ReplaceManagedRules(existingRules, preview.rules);
    if rules.Err? {
      return Err(rules.error);
    }
    root.SetMappingValue(RULES_KEY, rules.value);
    var candidate := lib.emitYaml(Mapping(root.entries));
    var valid := ValidateManagedConfiguration(lib, candidate);
    if valid.Err? {
      return Err(valid.error);
    }
    r := Ok(candidate);
  }
}
