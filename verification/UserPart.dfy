// What belongs to the user of a configuration, said about texts and positions alone, and
// what merging and validating do to it.
module UserPart {
  import opened Wrappers
  import opened Text
  import opened Library
  import opened Domain
  import opened Compiler
  import opened ConfigMerge
  import opened ConfigMergeLaws

  // ---- managed keys and rules ----

  // A scalar that, leading spaces aside, starts with the managed rule prefix.
  ghost predicate IsManagedItem(n: Node) {
    n.Scalar? && exists k :: 0 <= k <= |n.text| && Blank(n.text[..k]) && PartAt(n.text, "RULE-SET,flowcanvas-", k)
  }

  ghost predicate IsManagedKey(key: Node) {
    || (key.Scalar? && PartAt(key.text, "flowcanvas-", 0))
    || (key.Alias? && PartAt(key.name, "flowcanvas-", 0))
  }

  lemma ManagedKeyIff(key: Node)
    ensures ManagedName(KeyText(key)) <==> IsManagedKey(key)
  {
    assert MANAGED_PREFIX == "flowcanvas-";
  }

  lemma ManagedRuleIff(n: Node)
    ensures ManagedRule(n) <==> IsManagedItem(n)
  {
    if n.Scalar? {
      TrimmedPrefixIff(n.text, "RULE-SET,flowcanvas-");
    }
  }

  // Trimming does not touch a prefix that neither starts nor ends with a space.
  lemma TrimmedPrefixIff(s: string, prefix: string)
    requires prefix != "" && !IsSpace(prefix[0]) && !IsSpace(prefix[|prefix| - 1])
    ensures HasPrefix(TrimSpace(s), prefix) <==> exists k :: 0 <= k <= |s| && Blank(s[..k]) && PartAt(s, prefix, k)
  {
    var i, j := TrimSpaceExactly(s);
    BlankStart(s, i);
    BlankEnd(s, j);
    if HasPrefix(TrimSpace(s), prefix) {
      assert s[i..i + |prefix|] == TrimSpace(s)[..|prefix|];
      assert PartAt(s, prefix, i);
    }
    if k :| 0 <= k <= |s| && Blank(s[..k]) && PartAt(s, prefix, k) {
      var part := s[k..k + |prefix|];
      assert part[0] == s[k] && part[|prefix| - 1] == s[k + |prefix| - 1];
      BlankStart(s, k);
      assert i == k && k + |prefix| <= j;
      assert TrimSpace(s)[..|prefix|] == s[i..i + |prefix|];
    }
  }

  // ---- the user's own items, in order ----

  // The items that keep selects, in their order.
  function Filter<T>(items: seq<T>, keep: T -> bool): seq<T> {
    if items == [] then []
    else if keep(items[0]) then [items[0]] + Filter(items[1..], keep)
    else Filter(items[1..], keep)
  }

  lemma {:induction false} FilterAppend<T>(a: seq<T>, b: seq<T>, keep: T -> bool)
    ensures Filter(a + b, keep) == Filter(a, keep) + Filter(b, keep)
  {
    if a == [] {
      assert a + b == b;
    } else {
      FilterAppend(a[1..], b, keep);
      assert (a + b)[1..] == a[1..] + b;
    }
  }

  ghost function OwnRule(): Node -> bool {
    n => !IsManagedItem(n)
  }

  ghost function OwnProvider(): Entry -> bool {
    (e: Entry) => !IsManagedKey(e.key)
  }

  lemma {:induction false} UserRulesFiltered(items: seq<Node>)
    ensures UserRules(items) == Filter(items, OwnRule())
  {
    if items != [] {
      var front, n := items[..|items| - 1], items[|items| - 1];
      UserRulesFiltered(front);
      FilterAppend(front, [n], OwnRule());
      FilterOne(n, OwnRule());
      ManagedRuleIff(n);
      assert items == front + [n];
    }
  }

  lemma {:induction false} UserProvidersFiltered(entries: seq<Entry>)
    ensures UserProviders(entries) == Filter(entries, OwnProvider())
  {
    if entries != [] {
      var front, e := entries[..|entries| - 1], entries[|entries| - 1];
      UserProvidersFiltered(front);
      FilterAppend(front, [e], OwnProvider());
      FilterOne(e, OwnProvider());
      ManagedKeyIff(e.key);
      assert entries == front + [e];
    }
  }

  lemma FilterOne<T>(x: T, keep: T -> bool)
    ensures Filter([x], keep) == if keep(x) then [x] else []
  {
    assert [x][1..] == [];
  }

  // ---- sections of a root ----

  predicate HasKey(e: Entry, key: string) {
    e.key == Scalar(key) || e.key == Alias(key)
  }

  // The first entry with that key.
  ghost predicate FirstAt(root: seq<Entry>, key: string, i: int) {
    0 <= i < |root| && HasKey(root[i], key) && forall j :: 0 <= j < i ==> !HasKey(root[j], key)
  }

  ghost predicate Missing(root: seq<Entry>, key: string) {
    forall i :: 0 <= i < |root| ==> !HasKey(root[i], key)
  }

  lemma {:induction false} LookupIsFirst(root: seq<Entry>, key: string)
    requires key != ""
    ensures Lookup(root, key).None? <==> Missing(root, key)
    ensures forall i :: FirstAt(root, key, i) ==> Lookup(root, key) == Some(root[i].value)
    ensures Lookup(root, key).Some? ==> exists i :: FirstAt(root, key, i)
  {
    if root != [] {
      assert KeyText(root[0].key) == key <==> HasKey(root[0], key);
      if HasKey(root[0], key) {
        assert FirstAt(root, key, 0);
      } else {
        LookupIsFirst(root[1..], key);
        assert forall i :: 0 <= i < |root[1..]| ==> root[1..][i] == root[i + 1];
        assert forall i :: FirstAt(root, key, i) ==> FirstAt(root[1..], key, i - 1);
        if i :| FirstAt(root[1..], key, i) {
          assert FirstAt(root, key, i + 1);
        }
      }
    }
  }

  // The user's providers and rules, and the other entries of the root, in order.
  ghost predicate ProvidersOf(root: seq<Entry>, all: seq<Entry>) {
    || (Missing(root, "rule-providers") && all == [])
    || exists i :: FirstAt(root, "rule-providers", i) && all == if root[i].value.Mapping? then root[i].value.entries else []
  }

  ghost predicate RulesOf(root: seq<Entry>, all: seq<Node>) {
    || (Missing(root, "rules") && all == [])
    || exists i :: FirstAt(root, "rules", i) && all == if root[i].value.Sequence? then root[i].value.items else []
  }

  // rest is the root without its first entry for the key.
  ghost predicate Drops(root: seq<Entry>, key: string, rest: seq<Entry>) {
    || (Missing(root, key) && rest == root)
    || exists i :: FirstAt(root, key, i) && rest == root[..i] + root[i + 1..]
  }

  ghost predicate IsUserPart(root: seq<Entry>, u: UserView) {
    && (exists all :: ProvidersOf(root, all) && u.providers == Filter(all, OwnProvider()))
    && (exists all :: RulesOf(root, all) && u.rules == Filter(all, OwnRule()))
    && (exists part :: Drops(root, "rule-providers", part) && Drops(part, "rules", u.rest))
  }

  lemma SectionsFound(root: seq<Entry>)
    ensures ProvidersOf(root, ProvidersIn(root)) && RulesOf(root, RulesIn(root))
    ensures forall all :: ProvidersOf(root, all) ==> all == ProvidersIn(root)
    ensures forall all :: RulesOf(root, all) ==> all == RulesIn(root)
  {
    LookupIsFirst(root, "rule-providers");
    LookupIsFirst(root, "rules");
  }

  lemma {:induction false} WithoutDrops(root: seq<Entry>, key: string)
    requires key != ""
    ensures Drops(root, key, Without(root, key))
    ensures forall rest :: Drops(root, key, rest) ==> rest == Without(root, key)
  {
    if root != [] {
      assert KeyText(root[0].key) == key <==> HasKey(root[0], key);
      if HasKey(root[0], key) {
        assert FirstAt(root, key, 0) && root[..0] + root[1..] == root[1..];
        assert forall i :: FirstAt(root, key, i) ==> i == 0;
      } else {
        WithoutDrops(root[1..], key);
        DropsTail(root, key);
      }
    }
  }

  lemma DropsTail(root: seq<Entry>, key: string)
    requires root != [] && !HasKey(root[0], key)
    requires Drops(root[1..], key, Without(root[1..], key))
    requires forall rest :: Drops(root[1..], key, rest) ==> rest == Without(root[1..], key)
    ensures Drops(root, key, [root[0]] + Without(root[1..], key))
    ensures forall rest :: Drops(root, key, rest) ==> rest == [root[0]] + Without(root[1..], key)
  {
    var tail := root[1..];
    assert Missing(root, key) <==> Missing(tail, key);
    if i :| FirstAt(tail, key, i) && Without(tail, key) == tail[..i] + tail[i + 1..] {
      assert FirstAt(root, key, i + 1);
      assert [root[0]] + (tail[..i] + tail[i + 1..]) == root[..i + 1] + root[i + 2..];
    } else {
      assert [root[0]] + tail == root;
    }
    forall rest | Drops(root, key, rest) ensures rest == [root[0]] + Without(tail, key) {
      if i :| FirstAt(root, key, i) && rest == root[..i] + root[i + 1..] {
        assert FirstAt(tail, key, i - 1);
        assert Drops(tail, key, tail[..i - 1] + tail[i..]);
        assert rest == [root[0]] + (tail[..i - 1] + tail[i..]);
      } else {
        assert Drops(tail, key, tail) && rest == [root[0]] + tail;
      }
    }
  }

  // ---- the user's part ----

  // Every root has exactly one user part: its view.
  lemma UserPartIff(root: seq<Entry>, u: UserView)
    ensures IsUserPart(root, u) <==> u == View(root)
  {
    SectionsFound(root);
    UserProvidersFiltered(ProvidersIn(root));
    UserRulesFiltered(RulesIn(root));
    WithoutDrops(root, "rule-providers");
    WithoutDrops(Without(root, "rule-providers"), "rules");
  }

  // A text's user part: for a mapping the part of its root.
  ghost predicate IsPartOf(lib: Library, text: string, u: UserView) {
    lib.parseYaml(text).Some? && lib.parseYaml(text).value.Mapping? && IsUserPart(lib.parseYaml(text).value.entries, u)
  }

  // ---- a merge ----

  // The rules of a merged root are the compiled ones, and after them the base's own ones;
  // its providers are the base's own ones, and after them the compiled ones; and the user's
  // part is what it was.
  lemma MergedRoot(root: seq<Entry>, p: Preview)
    requires MergeEntries(root, p).Ok? && ManagedPreview(p)
    ensures var merged := MergeEntries(root, p).value;
      && (exists i, all :: FirstAt(merged, "rules", i) && RulesOf(root, all)
            && merged[i].value == Sequence(Scalars(p.rules) + Filter(all, OwnRule())))
      && (exists i, all :: FirstAt(merged, "rule-providers", i) && ProvidersOf(root, all)
            && merged[i].value == Mapping(Filter(all, OwnProvider()) + ProviderEntries(p.providers)))
      && (forall u :: IsUserPart(merged, u) <==> IsUserPart(root, u))
  {
    var merged := MergeEntries(root, p).value;
    MergedSections(root, p);
    SectionsFound(root);
    UserRulesFiltered(RulesIn(root));
    UserProvidersFiltered(ProvidersIn(root));
    LookupIsFirst(merged, "rules");
    LookupIsFirst(merged, "rule-providers");
    MergeKeepsView(root, p);
    forall u ensures IsUserPart(merged, u) <==> IsUserPart(root, u) {
      UserPartIff(merged, u);
      UserPartIff(root, u);
    }
  }

  // Every other entry of the root stays where it is.
  lemma MergedRest(root: seq<Entry>, p: Preview, i: nat)
    requires MergeEntries(root, p).Ok? && i < |root|
    ensures var merged := MergeEntries(root, p).value;
      |merged| >= |root| && merged[i].key == root[i].key
      && (!HasKey(root[i], "rules") && !HasKey(root[i], "rule-providers") ==> merged[i] == root[i])
  {
    MergeFrame(root, p, i);
    assert KeyText(root[i].key) == "rules" <==> HasKey(root[i], "rules");
    assert KeyText(root[i].key) == "rule-providers" <==> HasKey(root[i], "rule-providers");
  }

  // What merging a managed preview into a text gives, case by case.
  lemma MergeSays(lib: Library, base: string, p: Preview)
    requires LawfulYaml(lib) && ManagedPreview(p)
    ensures match lib.parseYaml(base)
      case None => MergeText(lib, base, p) == Err(UnparsableBase)
      case Some(Mapping(root)) =>
        if exists i :: FirstAt(root, "rule-providers", i) && !root[i].value.Mapping? then MergeText(lib, base, p) == Err(ProvidersNotMapping)
        else if exists i :: FirstAt(root, "rules", i) && !root[i].value.Sequence? then MergeText(lib, base, p) == Err(RulesNotSequence)
        else MergeEntries(root, p).Ok? && MergeText(lib, base, p) == Ok(lib.emitYaml(Mapping(MergeEntries(root, p).value)))
      case Some(_) => MergeText(lib, base, p) == Err(RootNotMapping)
  {
    if lib.parseYaml(base).Some? && lib.parseYaml(base).value.Mapping? {
      var root := lib.parseYaml(base).value.entries;
      LookupIsFirst(root, "rule-providers");
      LookupIsFirst(root, "rules");
      MergeSucceedsIff(root, p);
      MergeTextIsMergedTree(lib, base, p);
      MergeErrors(root, p);
    }
  }

  lemma MergeErrors(root: seq<Entry>, p: Preview)
    ensures var providers, rules := Lookup(root, "rule-providers"), Lookup(root, "rules");
      MergeEntries(root, p).Err? ==>
        MergeEntries(root, p).error == if providers.Some? && !providers.value.Mapping? then ProvidersNotMapping else RulesNotSequence
  {
    var providers := ReplacedProviders(Lookup(root, PROVIDERS_KEY), p.providers);
    if providers.Ok? {
      LookupAfterSet(root, PROVIDERS_KEY, providers.value, RULES_KEY);
    }
  }

  // ---- validation ----

  // The first field of that name is that scalar.
  ghost predicate FieldIs(entries: seq<Entry>, name: string, text: string) {
    exists i :: FirstAt(entries, name, i) && entries[i].value == Scalar(text)
  }

  ghost predicate GoodProvider(n: Node) {
    && n.Mapping? && FieldIs(n.entries, "type", "inline") && FieldIs(n.entries, "behavior", "classical")
    && exists i :: FirstAt(n.entries, "payload", i) && n.entries[i].value.Sequence? && GoodPayload(n.entries[i].value.items)
  }

  ghost predicate GoodPayload(items: seq<Node>) {
    forall i :: 0 <= i < |items| ==> items[i].Scalar? && PartAt(items[i].text, "AND,((SRC-IP-CIDR,", 0)
  }

  // Three fields between commas, the second a managed name, the third not blank.
  ghost predicate GoodRule(text: string) {
    exists a, b, c :: Fields(text, a, b, c) && PartAt(b, "flowcanvas-", 0) && !Blank(c)
  }

  ghost predicate Fields(text: string, a: string, b: string, c: string) {
    text == a + "," + b + "," + c && Free(a, ",") && Free(b, ",") && Free(c, ",")
  }

  ghost predicate GoodProviders(entries: seq<Entry>) {
    forall i :: 0 <= i < |entries| && IsManagedKey(entries[i].key) ==> GoodProvider(entries[i].value)
  }

  ghost predicate GoodRules(items: seq<Node>) {
    forall i :: 0 <= i < |items| && IsManagedItem(items[i]) ==> GoodRule(items[i].text)
  }

  // A text is its first field, and the rest behind a comma if there is more than one.
  lemma {:induction false} SplitHead(s: string) returns (rest: string)
    ensures var parts := Split(s, ','); Free(parts[0], ",") && if |parts| == 1 then s == parts[0] else s == parts[0] + "," + rest && Split(rest, ',') == parts[1..]
  {
    rest := "";
    if s != "" {
      assert s == [s[0]] + s[1..];
      if s[0] == ',' {
        rest := s[1..];
      } else {
        rest := SplitHead(s[1..]);
      }
    }
  }

  lemma FieldsSplit(s: string, a: string, b: string, c: string)
    requires Fields(s, a, b, c)
    ensures Split(s, ',') == [a, b, c]
  {
    CommaFree(a);
    CommaFree(b);
    CommaFree(c);
    var tail := b + [','] + c;
    assert s == a + [','] + tail;
    SplitAt(a, ',', tail);
    SplitAt(b, ',', c);
    SplitFree(c, ',');
  }

  lemma SplitFields(s: string)
    requires |Split(s, ',')| == 3
    ensures var p := Split(s, ','); Fields(s, p[0], p[1], p[2])
  {
    var p := Split(s, ',');
    var rest := SplitHead(s);
    var last := SplitHead(rest);
    var none := SplitHead(last);
    assert p[1..][0] == p[1] && p[1..][1..][0] == p[2];
    assert s == p[0] + "," + (p[1] + "," + p[2]);
  }

  lemma ThreeFieldsIff(s: string, a: string, b: string, c: string)
    ensures Fields(s, a, b, c) <==> Split(s, ',') == [a, b, c]
  {
    if Fields(s, a, b, c) {
      FieldsSplit(s, a, b, c);
    } else if Split(s, ',') == [a, b, c] {
      SplitFields(s);
    }
  }

  lemma CommaFree(s: string)
    ensures Free(s, ",") <==> Free(s, [','])
  {
    assert "," == [','];
  }

  lemma GoodRuleIff(n: Node)
    ensures ValidRule(n) <==> (IsManagedItem(n) ==> GoodRule(n.text))
  {
    ManagedRuleIff(n);
    if n.Scalar? {
      var parts := Split(n.text, ',');
      if |parts| == 3 {
        assert parts == [parts[0], parts[1], parts[2]];
        ThreeFieldsIff(n.text, parts[0], parts[1], parts[2]);
        BlankIff(parts[2]);
      }
      forall a, b, c | Fields(n.text, a, b, c) ensures parts == [a, b, c] {
        ThreeFieldsIff(n.text, a, b, c);
      }
    }
  }

  lemma FieldIsIff(entries: seq<Entry>, name: string, text: string)
    requires name != "" && text != ""
    ensures ScalarAt(entries, name) == text <==> FieldIs(entries, name, text)
  {
    LookupIsFirst(entries, name);
  }

  lemma GoodProviderIff(n: Node)
    ensures ValidManagedProvider(n) <==> GoodProvider(n)
  {
    if n.Mapping? {
      FieldIsIff(n.entries, "type", "inline");
      FieldIsIff(n.entries, "behavior", "classical");
      LookupIsFirst(n.entries, "payload");
    }
  }

  // What validation says of a candidate text, case by case.
  lemma ValidationSays(lib: Library, text: string)
    ensures ValidateText(lib, text) ==
      match lib.parseYaml(text)
      case None => Err(UnparsableBase)
      case Some(Mapping(root)) =>
        if !exists i :: FirstAt(root, "rule-providers", i) && root[i].value.Mapping? then Err(ProvidersNotMapping)
        else if !exists i :: FirstAt(root, "rules", i) && root[i].value.Sequence? then Err(RulesNotSequence)
        else if !exists i :: FirstAt(root, "rule-providers", i) && root[i].value.Mapping? && GoodProviders(root[i].value.entries)
        then Err(ManagedProviderInvalid)
        else if !exists i :: FirstAt(root, "rules", i) && root[i].value.Sequence? && GoodRules(root[i].value.items)
        then Err(ManagedRuleMalformed)
        else Ok(())
      case Some(_) => Err(RootNotMapping)
  {
    if lib.parseYaml(text).Some? && lib.parseYaml(text).value.Mapping? {
      var root := lib.parseYaml(text).value.entries;
      LookupIsFirst(root, "rule-providers");
      LookupIsFirst(root, "rules");
      forall e: Entry ensures ValidProviderEntry(e) <==> (IsManagedKey(e.key) ==> GoodProvider(e.value)) {
        ManagedKeyIff(e.key);
        GoodProviderIff(e.value);
      }
      forall n ensures ValidRule(n) <==> (IsManagedItem(n) ==> GoodRule(n.text)) {
        GoodRuleIff(n);
      }
    }
  }
}
