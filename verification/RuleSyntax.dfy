// The compiled rule lines as text: split at commas they have a fixed number of fields,
// so what was rendered can be read back.
module RuleSyntax {
  import opened Wrappers
  import opened Text
  import opened Library
  import opened Decimal
  import opened Domain
  import opened Compiler
  import opened ConfigMerge

  predicate CommaFree(s: string) {
    Free(s, ",")
  }

  function Join2(a: string, b: string): string {
    a + [','] + b
  }

  lemma SplitJoin2(a: string, b: string)
    requires CommaFree(a)
    ensures Split(Join2(a, b), ',') == [a] + Split(b, ',')
  {
    assert [','] == ",";
    SplitAt(a, ',', b);
  }

  // ---- payload rules ----

  const RULE_HEAD := "AND"
  const SOURCE_HEAD := "((SRC-IP-CIDR"

  function RuleFieldSeq(prefix: string, matchType: string, value: string): seq<string> {
    [RULE_HEAD, SOURCE_HEAD, prefix + ")", "(" + matchType, value + "))"]
  }

  lemma RuleTextJoined(prefix: string, matchType: string, value: string)
    ensures RuleText(prefix, matchType, value) ==
      Join2(RULE_HEAD, Join2(SOURCE_HEAD, Join2(prefix + ")", Join2("(" + matchType, value + "))"))))
  {
    assert "AND,((SRC-IP-CIDR," == RULE_HEAD + [','] + SOURCE_HEAD + [','];
    assert "),(" == ")" + [','] + "(";
    var tail := matchType + [','] + (value + "))");
    assert matchType + "," + value + "))" == tail;
    assert "),(" + tail == ")" + ([','] + ("(" + tail));
  }

  lemma RuleFields(prefix: string, matchType: string, value: string)
    requires CommaFree(prefix) && CommaFree(matchType) && CommaFree(value)
    ensures Split(RuleText(prefix, matchType, value), ',') == RuleFieldSeq(prefix, matchType, value)
  {
    RuleTextJoined(prefix, matchType, value);
    var f2, f3, f4 := prefix + ")", "(" + matchType, value + "))";
    assert CommaFree(RULE_HEAD) && CommaFree(SOURCE_HEAD) && CommaFree(f2) && CommaFree(f3) && CommaFree(f4);
    SplitFree(f4, ',');
    SplitJoin2(f3, f4);
    SplitJoin2(f2, Join2(f3, f4));
    SplitJoin2(SOURCE_HEAD, Join2(f2, Join2(f3, f4)));
    SplitJoin2(RULE_HEAD, Join2(SOURCE_HEAD, Join2(f2, Join2(f3, f4))));
  }

  datatype Payload = Payload(prefix: string, matchType: string, value: string)

  // Reads a payload line back; lines of any other shape are not understood.
  function ParsePayload(text: string): Option<Payload> {
    var f := Split(text, ',');
    if |f| == 5 && f[0] == RULE_HEAD && f[1] == SOURCE_HEAD && HasSuffix(f[2], ")") && HasPrefix(f[3], "(") && HasSuffix(f[4], "))")
    then Some(Payload(f[2][..|f[2]| - 1], f[3][1..], f[4][..|f[4]| - 2]))
    else None
  }

  lemma PayloadRoundTrip(prefix: string, matchType: string, value: string)
    requires CommaFree(prefix) && CommaFree(matchType) && CommaFree(value)
    ensures ParsePayload(RuleText(prefix, matchType, value)) == Some(Payload(prefix, matchType, value))
  {
    RuleFields(prefix, matchType, value);
    var f := RuleFieldSeq(prefix, matchType, value);
    assert f[2][..|f[2]| - 1] == prefix && f[2][|f[2]| - 1..] == ")";
    assert f[3][1..] == matchType && f[3][..1] == "(";
    assert f[4][..|f[4]| - 2] == value && f[4][|f[4]| - 2..] == "))";
  }

  // Rendering is injective on comma-free parts.
  lemma RenderingInjective(a: Payload, b: Payload)
    requires CommaFree(a.prefix) && CommaFree(a.matchType) && CommaFree(a.value)
    requires CommaFree(b.prefix) && CommaFree(b.matchType) && CommaFree(b.value)
    ensures RuleText(a.prefix, a.matchType, a.value) == RuleText(b.prefix, b.matchType, b.value) <==> a == b
  {
    PayloadRoundTrip(a.prefix, a.matchType, a.value);
    PayloadRoundTrip(b.prefix, b.matchType, b.value);
  }

  // Without the comma check two different intents would render alike.
  lemma CommaMakesRenderingAmbiguous()
    ensures RuleText("p", "A", "b,c") == RuleText("p", "A,b", "c")
  {
  }

  // ---- top-level RULE-SET lines ----

  lemma ProviderNameManaged(lib: Library, target: string)
    ensures ManagedName(ProviderName(lib, target)) && CommaFree(ProviderName(lib, target))
  {
    HexIsHex(lib.digest(target));
    assert "flowcanvas" + "-" == MANAGED_PREFIX;
    var hex := Hex(lib.digest(target));
    assert ProviderName(lib, target) == MANAGED_PREFIX + hex;
    assert CommaFree(MANAGED_PREFIX);
    assert forall i :: 0 <= i < |hex| ==> IsHex(hex[i]);
    assert CommaFree(hex);
  }

  lemma RuleSetFields(lib: Library, target: string)
    requires CommaFree(target)
    ensures Split(RuleSetText(lib, target), ',') == ["RULE-SET", ProviderName(lib, target), target]
  {
    ProviderNameManaged(lib, target);
    var name := ProviderName(lib, target);
    assert "RULE-SET," == "RULE-SET" + [','];
    assert RuleSetText(lib, target) == Join2("RULE-SET", Join2(name, target));
    SplitFree(target, ',');
    SplitJoin2(name, target);
    SplitJoin2("RULE-SET", Join2(name, target));
  }

  // Trimming keeps a prefix whose ends are not spaces.
  lemma TrimKeepsPrefix(s: string, prefix: string)
    requires HasPrefix(s, prefix) && prefix != "" && !IsSpace(prefix[0]) && !IsSpace(prefix[|prefix| - 1])
    ensures HasPrefix(TrimSpace(s), prefix)
  {
    assert s[0] == prefix[0] && s[|prefix| - 1] == prefix[|prefix| - 1];
    assert TrimLeft(s) == s;
    TrimRightKeeps(s, |prefix| - 1);
    TrimRightIsPrefix(s);
    var r := TrimRight(s);
    assert r[..|prefix|] == s[..|prefix|];
  }

  lemma RuleSetManaged(lib: Library, target: string)
    ensures ManagedRule(Scalar(RuleSetText(lib, target)))
  {
    ProviderNameManaged(lib, target);
    var text, name := RuleSetText(lib, target), ProviderName(lib, target);
    assert name[..|MANAGED_PREFIX|] == MANAGED_PREFIX;
    assert "RULE-SET," + MANAGED_PREFIX == MANAGED_RULE_PREFIX;
    assert text == "RULE-SET," + name + "," + target;
    assert text[..|MANAGED_RULE_PREFIX|] == MANAGED_RULE_PREFIX;
    TrimKeepsPrefix(text, MANAGED_RULE_PREFIX);
  }

  lemma SafeTextCommaFree(s: string)
    requires SafeText(s)
    ensures CommaFree(s)
  {
    forall i | 0 <= i < |s| ensures s[i] !in "," {
      assert s[i] !in SEPARATORS && SEPARATORS[0] == ',';
    }
  }

  lemma RuleSetValid(lib: Library, target: string)
    requires ValidTargetName(target)
    ensures ValidRule(Scalar(RuleSetText(lib, target)))
  {
    SafeTextCommaFree(target);
    RuleSetFields(lib, target);
    ProviderNameManaged(lib, target);
  }

  // ---- the parts the compiler renders are comma-free ----

  lemma CidrCommaFree(lib: Library, a: Address, bits: nat)
    requires LawfulAddresses(lib)
    ensures CommaFree(PrefixText(lib, a, bits))
  {
    var text := lib.addrText(WithoutZone(a));
    assert Free(text, ",/");
    forall i | 0 <= i < |text| ensures text[i] !in "," {
      assert ",/"[0] == ',' && text[i] !in ",/";
    }
    assert CommaFree("invalid Prefix");
    assert CommaFree(DecimalText(bits));
    assert CommaFree("/");
  }

  lemma TrimPrefixCommaFree(s: string)
    requires CommaFree(s)
    ensures CommaFree(TrimPrefix(s, "."))
  {
  }

  // What an accepted match renders to, given its cleaned value.
  ghost predicate Rendered(kind: MatchKind, value: string, r: Matcher) {
    && SafeText(value)
    && match kind
       case MatchDomain => r == Matcher(DomainType, value)
       case MatchSuffix => r == Matcher(SuffixType, TrimPrefix(value, "."))
       case MatchKeyword => r == Matcher(KeywordType, value)
       case OtherMatch => false
  }

  lemma MatchIsRendered(lib: Library, m: MatchSpec)
    requires MihomoMatch(lib, m).Ok?
    ensures Rendered(m.kind, MatchValue(lib, m), MihomoMatch(lib, m).value)
  {
    var value := MatchValue(lib, m);
    assert SafeText(value);
  }

  lemma RenderedCommaFree(kind: MatchKind, value: string, r: Matcher)
    requires Rendered(kind, value, r)
    ensures CommaFree(r.value)
  {
    SafeTextCommaFree(value);
    TrimPrefixCommaFree(value);
  }

  lemma TypeCommaFree(t: MatchType)
    ensures CommaFree(TypeText(t))
  {
    assert CommaFree("DOMAIN") && CommaFree("DOMAIN-SUFFIX") && CommaFree("DOMAIN-KEYWORD");
  }
}
