// The algebra of merging: what belongs to the user stays, the last overlay wins, and a
// compiled overlay is always accepted.
module ConfigMergeLaws {
  import opened Wrappers
  import opened Text
  import opened Library
  import opened Domain
  import opened Compiler
  import opened ConfigMerge

  // ---- what belongs to the user ----

  // Everything but the two managed sections, in order.
  function Without(entries: seq<Entry>, key: string): seq<Entry> {
    if entries == [] then []
    else if KeyText(entries[0].key) == key then entries[1..]
    else [entries[0]] + Without(entries[1..], key)
  }

  function ProvidersIn(root: seq<Entry>): seq<Entry> {
    match Lookup(root, PROVIDERS_KEY)
    case Some(Mapping(entries)) => entries
    case _ => []
  }

  function RulesIn(root: seq<Entry>): seq<Node> {
    match Lookup(root, RULES_KEY)
    case Some(Sequence(items)) => items
    case _ => []
  }

  // A configuration with its managed entries stripped; an absent section counts as empty.
  datatype UserView = UserView(rest: seq<Entry>, providers: seq<Entry>, rules: seq<Node>)

  function View(root: seq<Entry>): UserView {
    UserView(Without(Without(root, PROVIDERS_KEY), RULES_KEY), UserProviders(ProvidersIn(root)), UserRules(RulesIn(root)))
  }

  // What a preview must be for merging to be well behaved; every compiled one is.
  ghost predicate ManagedPreview(p: Preview) {
    && (forall i :: 0 <= i < |p.providers| ==> ManagedName(p.providers[i].name))
    && (forall i, k :: 0 <= i < |p.providers| && 0 <= k < |p.providers[i].payload| ==>
          HasPrefix(p.providers[i].payload[k], PAYLOAD_PREFIX))
    && (forall i :: 0 <= i < |p.rules| ==> ManagedRule(Scalar(p.rules[i])) && ValidRule(Scalar(p.rules[i])))
  }

  // ---- setting an entry ----

  lemma {:induction false} LookupAfterSet(entries: seq<Entry>, key: string, value: Node, other: string)
    ensures Lookup(SetEntry(entries, key, value), other) == if other == key then Some(value) else Lookup(entries, other)
  {
    if entries != [] && KeyText(entries[0].key) != key {
      LookupAfterSet(entries[1..], key, value, other);
    }
  }

  lemma {:induction false} SetTwice(entries: seq<Entry>, key: string, value: Node, again: Node)
    ensures SetEntry(SetEntry(entries, key, value), key, again) == SetEntry(entries, key, again)
  {
    if entries != [] && KeyText(entries[0].key) != key {
      SetTwice(entries[1..], key, value, again);
      assert SetEntry(entries, key, value)[1..] == SetEntry(entries[1..], key, value);
    }
  }

  // Setting two different keys commutes once the first of them is present.
  lemma {:induction false} SetCommutes(entries: seq<Entry>, key: string, value: Node, other: string, value': Node)
    requires key != other && Lookup(entries, key).Some?
    ensures SetEntry(SetEntry(entries, key, value), other, value') == SetEntry(SetEntry(entries, other, value'), key, value)
  {
    var a, b := SetEntry(entries, key, value), SetEntry(entries, other, value');
    if KeyText(entries[0].key) == key {
      assert a[1..] == entries[1..];
      assert b == [entries[0]] + SetEntry(entries[1..], other, value');
    } else if KeyText(entries[0].key) == other {
      assert b[1..] == entries[1..];
      assert a == [entries[0]] + SetEntry(entries[1..], key, value);
    } else {
      SetCommutes(entries[1..], key, value, other, value');
      assert a[1..] == SetEntry(entries[1..], key, value);
      assert b[1..] == SetEntry(entries[1..], other, value');
    }
  }

  lemma {:induction false} WithoutAfterSet(entries: seq<Entry>, key: string, value: Node)
    ensures Without(SetEntry(entries, key, value), key) == Without(entries, key)
  {
    if entries != [] && KeyText(entries[0].key) != key {
      WithoutAfterSet(entries[1..], key, value);
      assert SetEntry(entries, key, value)[1..] == SetEntry(entries[1..], key, value);
    }
  }

  lemma {:induction false} WithoutOtherAfterSet(entries: seq<Entry>, key: string, value: Node, other: string)
    requires key != other
    ensures Without(SetEntry(entries, key, value), other) == SetEntry(Without(entries, other), key, value)
  {
    if entries != [] {
      var set_ := SetEntry(entries, key, value);
      if KeyText(entries[0].key) == key {
        assert set_[1..] == entries[1..];
      } else if KeyText(entries[0].key) == other {
        assert set_[1..] == SetEntry(entries[1..], key, value);
      } else {
        WithoutOtherAfterSet(entries[1..], key, value, other);
        assert set_[1..] == SetEntry(entries[1..], key, value);
      }
    }
  }

  // Setting a key touches at most one entry: every other one keeps its place, key and value.
  lemma {:induction false} SetFrame(entries: seq<Entry>, key: string, value: Node, i: nat)
    requires i < |entries|
    ensures |entries| <= |SetEntry(entries, key, value)| <= |entries| + 1
    ensures SetEntry(entries, key, value)[i].key == entries[i].key
    ensures KeyText(entries[i].key) != key ==> SetEntry(entries, key, value)[i] == entries[i]
  {
    if KeyText(entries[0].key) != key {
      if i == 0 {
        if |entries| > 1 { SetFrame(entries[1..], key, value, 0); }
      } else {
        SetFrame(entries[1..], key, value, i - 1);
      }
    }
  }

  // ---- filters ----

  lemma UserProvidersSnoc(a: seq<Entry>, e: Entry)
    ensures UserProviders(a + [e]) == if ManagedName(KeyText(e.key)) then UserProviders(a) else UserProviders(a) + [e]
  {
    assert (a + [e])[..|a|] == a;
  }

  lemma {:induction false} UserProvidersAppend(a: seq<Entry>, b: seq<Entry>)
    ensures UserProviders(a + b) == UserProviders(a) + UserProviders(b)
  {
    if b == [] {
      assert a + b == a;
    } else {
      var front, e := b[..|b| - 1], b[|b| - 1];
      assert b == front + [e] && a + b == (a + front) + [e];
      UserProvidersAppend(a, front);
      UserProvidersSnoc(a + front, e);
      UserProvidersSnoc(front, e);
    }
  }

  lemma UserRulesSnoc(a: seq<Node>, n: Node)
    ensures UserRules(a + [n]) == if ManagedRule(n) then UserRules(a) else UserRules(a) + [n]
  {
    assert (a + [n])[..|a|] == a;
  }

  lemma {:induction false} UserRulesAppend(a: seq<Node>, b: seq<Node>)
    ensures UserRules(a + b) == UserRules(a) + UserRules(b)
  {
    if b == [] {
      assert a + b == a;
    } else {
      var front, n := b[..|b| - 1], b[|b| - 1];
      assert b == front + [n] && a + b == (a + front) + [n];
      UserRulesAppend(a, front);
      UserRulesSnoc(a + front, n);
      UserRulesSnoc(front, n);
    }
  }

  lemma {:induction false} UserProvidersTwice(entries: seq<Entry>)
    ensures UserProviders(UserProviders(entries)) == UserProviders(entries)
    ensures forall i :: 0 <= i < |UserProviders(entries)| ==> !ManagedName(KeyText(UserProviders(entries)[i].key))
  {
    if entries != [] {
      var front := entries[..|entries| - 1];
      UserProvidersTwice(front);
      if UserProviders(entries) != UserProviders(front) {
        assert UserProviders(entries)[..|UserProviders(front)|] == UserProviders(front);
      }
    }
  }

  lemma {:induction false} UserRulesTwice(items: seq<Node>)
    ensures UserRules(UserRules(items)) == UserRules(items)
    ensures forall i :: 0 <= i < |UserRules(items)| ==> !ManagedRule(UserRules(items)[i])
  {
    if items != [] {
      var front := items[..|items| - 1];
      UserRulesTwice(front);
      if UserRules(items) != UserRules(front) {
        assert UserRules(items)[..|UserRules(front)|] == UserRules(front);
      }
    }
  }

  lemma {:induction false} NoUserProviders(entries: seq<Entry>)
    requires forall i :: 0 <= i < |entries| ==> ManagedName(KeyText(entries[i].key))
    ensures UserProviders(entries) == []
  {
    if entries != [] { NoUserProviders(entries[..|entries| - 1]); }
  }

  lemma {:induction false} NoUserRules(items: seq<Node>)
    requires forall i :: 0 <= i < |items| ==> ManagedRule(items[i])
    ensures UserRules(items) == []
  {
    if items != [] { NoUserRules(items[..|items| - 1]); }
  }

  // ---- one merge ----

  // The shape of a successful merge: user entries keep their order, managed providers
  // come last, managed rules come first, nothing else changes.
  lemma MergedSections(root: seq<Entry>, p: Preview)
    requires MergeEntries(root, p).Ok?
    ensures var merged := MergeEntries(root, p).value;
      && Lookup(merged, PROVIDERS_KEY) == Some(Mapping(UserProviders(ProvidersIn(root)) + ProviderEntries(p.providers)))
      && Lookup(merged, RULES_KEY) == Some(Sequence(Scalars(p.rules) + UserRules(RulesIn(root))))
      && (forall key :: key != PROVIDERS_KEY && key != RULES_KEY ==> Lookup(merged, key) == Lookup(root, key))
  {
    var providers := ReplacedProviders(Lookup(root, PROVIDERS_KEY), p.providers).value;
    var root' := SetEntry(root, PROVIDERS_KEY, providers);
    var rules := ReplacedRules(Lookup(root', RULES_KEY), p.rules).value;
    forall key
      ensures Lookup(SetEntry(root', RULES_KEY, rules), key) ==
        if key == RULES_KEY then Some(rules) else if key == PROVIDERS_KEY then Some(providers) else Lookup(root, key)
    {
      LookupAfterSet(root, PROVIDERS_KEY, providers, key);
      LookupAfterSet(root', RULES_KEY, rules, key);
    }
    LookupAfterSet(root, PROVIDERS_KEY, providers, RULES_KEY);
    assert UserProviders([]) + ProviderEntries(p.providers) == ProviderEntries(p.providers);
    assert Scalars(p.rules) + UserRules([]) == Scalars(p.rules);
  }

  // Whether a merge succeeds depends on the kinds of the two sections only.
  lemma MergeSucceedsIff(root: seq<Entry>, p: Preview)
    ensures MergeEntries(root, p).Ok? <==>
      var providers, rules := Lookup(root, PROVIDERS_KEY), Lookup(root, RULES_KEY);
      (providers.None? || providers.value.Mapping?) && (rules.None? || rules.value.Sequence?)
  {
    var providers := ReplacedProviders(Lookup(root, PROVIDERS_KEY), p.providers);
    if providers.Ok? {
      LookupAfterSet(root, PROVIDERS_KEY, providers.value, RULES_KEY);
    }
  }

  // Every root entry keeps its place and its key, and its value unless it is one of the
  // two sections; at most two entries are appended.
  lemma MergeFrame(root: seq<Entry>, p: Preview, i: nat)
    requires MergeEntries(root, p).Ok? && i < |root|
    ensures var merged := MergeEntries(root, p).value;
      && |root| <= |merged| <= |root| + 2
      && merged[i].key == root[i].key
      && (KeyText(root[i].key) != PROVIDERS_KEY && KeyText(root[i].key) != RULES_KEY ==> merged[i] == root[i])
  {
    var providers := ReplacedProviders(Lookup(root, PROVIDERS_KEY), p.providers).value;
    var root' := SetEntry(root, PROVIDERS_KEY, providers);
    SetFrame(root, PROVIDERS_KEY, providers, i);
    SetFrame(root', RULES_KEY, ReplacedRules(Lookup(root', RULES_KEY), p.rules).value, i);
  }

  // The user's part is the same before and after.
  lemma MergeKeepsView(root: seq<Entry>, p: Preview)
    requires MergeEntries(root, p).Ok? && ManagedPreview(p)
    ensures View(MergeEntries(root, p).value) == View(root)
  {
    MergedSections(root, p);
    StripProviders(ProvidersIn(root), p);
    StripRules(RulesIn(root), p);
    MergeKeepsRest(root, p);
  }

  lemma StripProviders(entries: seq<Entry>, p: Preview)
    requires ManagedPreview(p)
    ensures UserProviders(UserProviders(entries) + ProviderEntries(p.providers)) == UserProviders(entries)
  {
    UserProvidersTwice(entries);
    NoUserProviders(ProviderEntries(p.providers));
    UserProvidersAppend(UserProviders(entries), ProviderEntries(p.providers));
  }

  lemma StripRules(items: seq<Node>, p: Preview)
    requires ManagedPreview(p)
    ensures UserRules(Scalars(p.rules) + UserRules(items)) == UserRules(items)
  {
    UserRulesTwice(items);
    NoUserRules(Scalars(p.rules));
    UserRulesAppend(Scalars(p.rules), UserRules(items));
  }

  lemma MergeKeepsRest(root: seq<Entry>, p: Preview)
    requires MergeEntries(root, p).Ok?
    ensures View(MergeEntries(root, p).value).rest == View(root).rest
  {
    var providers := ReplacedProviders(Lookup(root, PROVIDERS_KEY), p.providers).value;
    var root' := SetEntry(root, PROVIDERS_KEY, providers);
    var rules := ReplacedRules(Lookup(root', RULES_KEY), p.rules).value;
    WithoutOtherAfterSet(root', RULES_KEY, rules, PROVIDERS_KEY);
    WithoutAfterSet(root, PROVIDERS_KEY, providers);
    WithoutAfterSet(Without(root', PROVIDERS_KEY), RULES_KEY, rules);
  }

  // ---- two merges ----

  // The last overlay wins: merging q over a merge of p is merging q over the base.
  lemma LastMergeWins(root: seq<Entry>, p: Preview, q: Preview)
    requires MergeEntries(root, p).Ok? && ManagedPreview(p)
    ensures MergeEntries(MergeEntries(root, p).value, q) == MergeEntries(root, q)
  {
    var m := MergeEntries(root, p).value;
    MergedSections(root, p);
    MergeSucceedsIff(root, p);
    MergeSucceedsIff(root, q);
    MergeSucceedsIff(m, q);
    MergedSections(m, q);
    MergedSections(root, q);
    MergeKeepsView(root, p);
    assert UserProviders(ProvidersIn(m)) == UserProviders(ProvidersIn(root));
    assert UserRules(RulesIn(m)) == UserRules(RulesIn(root));
    SettersAgree(root, p, q);
  }

  // A merge is two settings of keys, given the sections it ends up with.
  lemma MergeIsTwoSettings(root: seq<Entry>, p: Preview)
    requires MergeEntries(root, p).Ok?
    ensures MergeEntries(root, p).value == SetEntry(
      SetEntry(root, PROVIDERS_KEY, Mapping(UserProviders(ProvidersIn(root)) + ProviderEntries(p.providers))),
      RULES_KEY, Sequence(Scalars(p.rules) + UserRules(RulesIn(root))))
  {
    var providers := ReplacedProviders(Lookup(root, PROVIDERS_KEY), p.providers).value;
    LookupAfterSet(root, PROVIDERS_KEY, providers, RULES_KEY);
    assert UserProviders([]) + ProviderEntries(p.providers) == ProviderEntries(p.providers);
    assert Scalars(p.rules) + UserRules([]) == Scalars(p.rules);
  }

  lemma SettersAgree(root: seq<Entry>, p: Preview, q: Preview)
    requires MergeEntries(root, p).Ok? && MergeEntries(root, q).Ok?
    requires var m := MergeEntries(root, p).value;
      && MergeEntries(m, q).Ok?
      && UserProviders(ProvidersIn(m)) == UserProviders(ProvidersIn(root))
      && UserRules(RulesIn(m)) == UserRules(RulesIn(root))
    ensures MergeEntries(MergeEntries(root, p).value, q) == MergeEntries(root, q)
  {
    var m := MergeEntries(root, p).value;
    MergeIsTwoSettings(root, p);
    MergeIsTwoSettings(root, q);
    MergeIsTwoSettings(m, q);
    var pp := Mapping(UserProviders(ProvidersIn(root)) + ProviderEntries(p.providers));
    var pr := Sequence(Scalars(p.rules) + UserRules(RulesIn(root)));
    var qp := Mapping(UserProviders(ProvidersIn(root)) + ProviderEntries(q.providers));
    var qr := Sequence(Scalars(q.rules) + UserRules(RulesIn(root)));
    ResetBoth(root, pp, pr, qp, qr);
  }

  lemma ResetBoth(root: seq<Entry>, pp: Node, pr: Node, qp: Node, qr: Node)
    ensures SetEntry(SetEntry(SetEntry(SetEntry(root, PROVIDERS_KEY, pp), RULES_KEY, pr), PROVIDERS_KEY, qp), RULES_KEY, qr)
      == SetEntry(SetEntry(root, PROVIDERS_KEY, qp), RULES_KEY, qr)
  {
    var r1 := SetEntry(root, PROVIDERS_KEY, pp);
    LookupAfterSet(root, PROVIDERS_KEY, pp, PROVIDERS_KEY);
    SetCommutes(r1, PROVIDERS_KEY, qp, RULES_KEY, pr);
    SetTwice(root, PROVIDERS_KEY, pp, qp);
    SetTwice(SetEntry(root, PROVIDERS_KEY, qp), RULES_KEY, pr, qr);
  }

  // ---- acceptance ----

  lemma ProviderNodeValid(payload: seq<string>)
    requires forall k :: 0 <= k < |payload| ==> HasPrefix(payload[k], PAYLOAD_PREFIX)
    ensures ValidManagedProvider(ProviderNode(payload))
  {
    var entries := ProviderNode(payload).entries;
    var t, b, p := entries[0], entries[1], entries[2];
    assert entries == [t, b, p] && entries[1..] == [b, p] && entries[1..][1..] == [p];
    assert KeyText(t.key) == "type" && KeyText(b.key) == "behavior" && KeyText(p.key) == "payload";
    assert "type" != "behavior" && "type"[0] != "payload"[0] && "behavior"[0] != "payload"[0];
    assert Lookup(entries, "type") == Some(t.value);
    assert Lookup(entries, "behavior") == Lookup([b, p], "behavior") == Some(b.value);
    assert Lookup(entries, "payload") == Lookup([b, p], "payload") == Lookup([p], "payload") == Some(p.value);
  }

  // Validation accepts every successful merge of a managed preview.
  lemma MergeIsValid(root: seq<Entry>, p: Preview)
    requires MergeEntries(root, p).Ok? && ManagedPreview(p)
    ensures ValidateEntries(MergeEntries(root, p).value).Ok?
  {
    MergedSections(root, p);
    UserProvidersTwice(ProvidersIn(root));
    UserRulesTwice(RulesIn(root));
    var user := UserProviders(ProvidersIn(root));
    var providers := user + ProviderEntries(p.providers);
    var rules := Scalars(p.rules) + UserRules(RulesIn(root));
    forall i | 0 <= i < |providers| ensures ValidProviderEntry(providers[i]) {
      if i >= |user| {
        ProviderNodeValid(p.providers[i - |user|].payload);
      }
    }
    forall i | 0 <= i < |rules| ensures ValidRule(rules[i]) {
    }
  }

  // On text: given that parsing inverts emitting, the merge of a managed preview fails
  // only on the base, and its result parses to the merged tree.
  lemma MergeTextIsMergedTree(lib: Library, base: string, p: Preview)
    requires LawfulYaml(lib) && ManagedPreview(p)
    requires lib.parseYaml(base).Some? && lib.parseYaml(base).value.Mapping?
    ensures var merged := MergeEntries(lib.parseYaml(base).value.entries, p);
      MergeText(lib, base, p) ==
        if merged.Err? then Err(merged.error) else Ok(lib.emitYaml(Mapping(merged.value)))
  {
    var merged := MergeEntries(lib.parseYaml(base).value.entries, p);
    if merged.Ok? {
      MergeIsValid(lib.parseYaml(base).value.entries, p);
    }
  }
}
