// Which connections of a controller snapshot are admitted, and as what.
module Models {
  import opened Wrappers
  import opened Text
  import opened Library
  import opened Telemetry
  import opened Watcher
  import opened Domain
  import opened Compiler

  datatype Connection = Connection(
    id: string,
    sourceIP: string,
    host: string,
    sniffHost: string,
    network: string,
    sniffType: string)

  const MAX_HOST_BYTES := 253
  const MAX_LABEL_BYTES := 63

  // len of the UTF-8 text.
  function ByteLength(s: string): nat {
    if s == "" then 0
    else
      var c := s[0] as int;
      (if c < 0x80 then 1 else if c < 0x800 then 2 else if c < 0x1_0000 then 3 else 4) + ByteLength(s[1..])
  }

  predicate ValidLabel(part: string) {
    part != "" && ByteLength(part) <= MAX_LABEL_BYTES
  }

  function HostText(lib: Library, raw: string): string {
    TrimSuffix(ToLower(lib, TrimSpace(raw)), ".")
  }

  function CanonicalHost(lib: Library, raw: string): string {
    var host := HostText(lib, raw);
    if host == "" || ByteLength(host) > MAX_HOST_BYTES || !Free(host, " /\\@") then ""
    else if lib.parseAddr(host).Some? then ""
    else
      var labels := Split(host, '.');
      if |labels| < 2 || exists i :: 0 <= i < |labels| && !ValidLabel(labels[i]) then "" else host
  }

  function NormalizeNetwork(lib: Library, rawNetwork: string, rawSniffType: string): Network {
    var network, sniffType := ToLower(lib, TrimSpace(rawNetwork)), ToLower(lib, TrimSpace(rawSniffType));
    if network == "tcp" then Tcp
    else if network == "udp" then if sniffType == "quic" then Quic else Udp
    else if network == "quic" then Quic
    else UnknownNetwork
  }

  // The sniffed host is preferred to the requested one.
  function NormalizeConnection(lib: Library, c: Connection, observedAt: int): Option<Feature> {
    var source := lib.parseAddr(c.sourceIP);
    var sniffed := CanonicalHost(lib, c.sniffHost);
    var host := if sniffed != "" then sniffed else CanonicalHost(lib, c.host);
    var network := NormalizeNetwork(lib, c.network, c.sniffType);
    if c.id == "" || source.None? || host == "" || network.UnknownNetwork? then None
    else Some(Feature(c.id, lib.addrText(source.value), host, network, Some(observedAt)))
  }

  ghost predicate NonEmptyAddresses(lib: Library) {
    forall a: Address :: lib.addrText(a) != ""
  }

  // Every admitted connection can be stored, so the watcher may use this normalisation.
  lemma AdmittedCanBeStored(lib: Library, observedAt: int)
    requires NonEmptyAddresses(lib)
    ensures Normalises((c: Connection) => NormalizeConnection(lib, c, observedAt))
  {
    forall c | NormalizeConnection(lib, c, observedAt).Some? ensures WellFormed(NormalizeConnection(lib, c, observedAt).value) {
      Admitted(lib, c, observedAt);
    }
  }

  lemma Admitted(lib: Library, c: Connection, observedAt: int)
    requires NormalizeConnection(lib, c, observedAt).Some?
    ensures lib.parseAddr(c.sourceIP).Some?
    ensures var f := NormalizeConnection(lib, c, observedAt).value;
      && c.id != "" && f.connectionId == c.id
      && f.sourceIP == lib.addrText(lib.parseAddr(c.sourceIP).value)
      && f.host != "" && (f.host == CanonicalHost(lib, c.sniffHost) || f.host == CanonicalHost(lib, c.host))
  {
  }

  // ---- host names ----

  function Join(labels: seq<string>): string
    requires labels != []
  {
    if |labels| == 1 then labels[0] else labels[0] + "." + Join(labels[1..])
  }

  // Two labels or more with dots between them, each non-empty, dot-free and short.
  ghost predicate DottedName(h: string) {
    exists labels: seq<string> ::
      && |labels| >= 2 && h == Join(labels)
      && forall i :: 0 <= i < |labels| ==> 0 < ByteLength(labels[i]) <= 63 && Free(labels[i], ".")
  }

  ghost predicate IsHostName(lib: Library, h: string) {
    && DottedName(h)
    && ByteLength(h) <= 253
    && Free(h, " /\\@")
    && lib.parseAddr(h).None?
  }

  lemma FreeOfDots(s: string)
    ensures Free(s, ".") <==> Free(s, ['.'])
  {
    assert "." == ['.'];
  }

  lemma {:induction false} SplitJoins(s: string)
    ensures var labels := Split(s, '.'); s == Join(labels) && forall i :: 0 <= i < |labels| ==> Free(labels[i], ".")
  {
    if s != "" {
      SplitJoins(s[1..]);
      var rest, labels := Split(s[1..], '.'), Split(s, '.');
      assert s == [s[0]] + s[1..];
      if s[0] == '.' {
        assert labels[1..] == rest;
      } else {
        assert labels[1..] == rest[1..];
      }
    }
  }

  lemma {:induction false} JoinSplits(labels: seq<string>)
    requires labels != [] && forall i :: 0 <= i < |labels| ==> Free(labels[i], ".")
    ensures Split(Join(labels), '.') == labels
  {
    FreeOfDots(labels[0]);
    if |labels| == 1 {
      SplitFree(labels[0], '.');
    } else {
      JoinSplits(labels[1..]);
      SplitAt(labels[0], '.', Join(labels[1..]));
      assert Join(labels) == labels[0] + ['.'] + Join(labels[1..]);
    }
  }

  lemma DottedNameIff(h: string)
    ensures DottedName(h) <==>
      var labels := Split(h, '.'); |labels| >= 2 && forall i :: 0 <= i < |labels| ==> ValidLabel(labels[i])
  {
    SplitJoins(h);
    if DottedName(h) {
      var labels: seq<string> :| |labels| >= 2 && h == Join(labels)
        && forall i :: 0 <= i < |labels| ==> 0 < ByteLength(labels[i]) <= 63 && Free(labels[i], ".");
      JoinSplits(labels);
    }
  }

  lemma {:induction false} LastLabelNotEmpty(labels: seq<string>)
    requires labels != [] && forall i :: 0 <= i < |labels| ==> labels[i] != "" && Free(labels[i], ".")
    ensures Join(labels) != "" && Join(labels)[|Join(labels)| - 1] != '.'
  {
    if |labels| > 1 {
      LastLabelNotEmpty(labels[1..]);
    } else {
      assert labels[0][|labels[0]| - 1] !in ".";
    }
  }

  lemma DottedNameEnd(h: string)
    requires DottedName(h)
    ensures h != "" && h[|h| - 1] != '.'
  {
    var labels: seq<string> :| |labels| >= 2 && h == Join(labels)
      && forall i :: 0 <= i < |labels| ==> 0 < ByteLength(labels[i]) <= 63 && Free(labels[i], ".");
    LastLabelNotEmpty(labels);
  }

  // A raw text stands for a host name exactly when, trimmed and in lower case, it is that
  // name or that name with its root dot; every other text stands for none.
  lemma CanonicalHostIff(lib: Library, raw: string, h: string)
    requires h != ""
    ensures CanonicalHost(lib, raw) == h <==>
      IsHostName(lib, h) && ToLower(lib, TrimSpace(raw)) in {h, h + "."}
  {
    var t := ToLower(lib, TrimSpace(raw));
    AcceptedIffHostName(lib, HostText(lib, raw));
    if IsHostName(lib, h) {
      DottedNameEnd(h);
      RootDotComesOff(t, h);
    }
  }

  lemma AcceptedIffHostName(lib: Library, h: string)
    ensures IsHostName(lib, h) <==>
      && h != "" && ByteLength(h) <= MAX_HOST_BYTES && Free(h, " /\\@") && lib.parseAddr(h).None?
      && var labels := Split(h, '.'); |labels| >= 2 && !exists i :: 0 <= i < |labels| && !ValidLabel(labels[i])
  {
    DottedNameIff(h);
    if DottedName(h) {
      DottedNameEnd(h);
    }
  }

  lemma RootDotComesOff(t: string, h: string)
    requires h != "" && h[|h| - 1] != '.'
    ensures TrimSuffix(t, ".") == h <==> t in {h, h + "."}
  {
    if t == h + "." {
      assert t[|t| - 1..] == "." && t[..|t| - 1] == h;
    }
    if TrimSuffix(t, ".") == h && t != h {
      assert t == h + ".";
    }
    if t == h {
      assert t[|t| - 1..] == [t[|t| - 1]];
    }
  }

  // ---- stability ----

  // Lower-casing keeps spaces and dots what they are, and does nothing twice.
  ghost predicate LawfulCase(lib: Library) {
    forall c :: CaseKept(lib, c)
  }

  predicate CaseKept(lib: Library, c: char) {
    var l := lib.toLower(c);
    lib.toLower(l) == l && (IsSpace(l) <==> IsSpace(c)) && (l == '.' <==> c == '.')
  }

  predicate EndsInSpace(s: string) {
    s != "" && IsSpace(s[|s| - 1])
  }

  // Trimmed of the root dot before or after lower-casing, the text ends the same way.
  lemma LowerKeepsEnds(lib: Library, s: string)
    requires LawfulCase(lib)
    ensures TrimSuffix(ToLower(lib, s), ".") == ToLower(lib, TrimSuffix(s, "."))
    ensures EndsInSpace(ToLower(lib, s)) <==> EndsInSpace(s)
    ensures ToLower(lib, ToLower(lib, s)) == ToLower(lib, s)
    ensures s != "" ==> (IsSpace(ToLower(lib, s)[0]) <==> IsSpace(s[0]))
  {
    var t := ToLower(lib, s);
    forall i | 0 <= i < |s| ensures CaseKept(lib, s[i]) {
    }
    assert ToLower(lib, t) == t;
    if s != "" {
      var n := |s| - 1;
      assert s[n..] == [s[n]] && t[n..] == [t[n]];
      assert s[n] == '.' <==> t[n] == '.';
    }
  }

  // A host name is in lower case and does not start with a space. One may be left at its
  // end, where the root dot was; not the blank, which no host name contains.
  lemma CanonicalShape(lib: Library, raw: string)
    requires LawfulCase(lib) && CanonicalHost(lib, raw) != ""
    ensures var h := CanonicalHost(lib, raw);
      && ToLower(lib, h) == h && !IsSpace(h[0])
      && (EndsInSpace(h) <==> EndsInSpace(TrimSuffix(TrimSpace(raw), ".")))
  {
    var trimmed := TrimSpace(raw);
    Trimmed(raw);
    LowerKeepsEnds(lib, trimmed);
    var stem := TrimSuffix(trimmed, ".");
    LowerKeepsEnds(lib, stem);
    assert stem != "" && stem[0] == trimmed[0];
  }

  // Canonical texts are canonical again, unless a space precedes the root dot.
  lemma CanonicalIsStableIff(lib: Library, raw: string)
    requires LawfulCase(lib)
    ensures CanonicalHost(lib, CanonicalHost(lib, raw)) == CanonicalHost(lib, raw) <==>
      CanonicalHost(lib, raw) == "" || !EndsInSpace(TrimSuffix(TrimSpace(raw), "."))
  {
    var h := CanonicalHost(lib, raw);
    if h == "" {
      assert CanonicalHost(lib, "") == "";
    } else {
      CanonicalShape(lib, raw);
      CanonicalHostIff(lib, raw, h);
      CanonicalHostIff(lib, h, h);
      LowerTextStays(lib, h);
    }
  }

  lemma LowerTextStays(lib: Library, h: string)
    requires LawfulCase(lib) && h != "" && ToLower(lib, h) == h && !IsSpace(h[0])
    ensures ToLower(lib, TrimSpace(h)) in {h, h + "."} <==> !EndsInSpace(h)
  {
    if EndsInSpace(h) {
      TrimmedDiffers(lib, h);
    } else {
      Trimmed(h);
    }
  }

  lemma TrimmedDiffers(lib: Library, h: string)
    requires LawfulCase(lib) && EndsInSpace(h)
    ensures ToLower(lib, TrimSpace(h)) !in {h, h + "."}
  {
    var t := TrimSpace(h);
    Trimmed(h);
    LowerKeepsEnds(lib, t);
    assert !EndsInSpace(t);
    assert |t| <= |h|;
  }

  // ---- from a connection to its own rule ----

  // An observed host, used as a domain match, compiles to a rule for exactly that host
  // if and only if it holds no rule separator and no control character, and no space was
  // left at its end.
  lemma ObservedHostCompilesIff(lib: Library, raw: string)
    requires LawfulCase(lib) && CanonicalHost(lib, raw) != ""
    ensures var h := CanonicalHost(lib, raw);
      MihomoMatch(lib, MatchSpec(MatchDomain, h)) == Ok(Matcher(DomainType, h)) <==> SafeText(h) && !EndsInSpace(h)
  {
    var h := CanonicalHost(lib, raw);
    CanonicalShape(lib, raw);
    CanonicalHostIff(lib, raw, h);
    TrimmedIff(h);
    DomainMatchIff(lib, h);
  }

  lemma TrimmedIff(h: string)
    requires h != "" && !IsSpace(h[0])
    ensures TrimSpace(h) == h <==> !EndsInSpace(h)
  {
    Trimmed(h);
  }

  lemma DomainMatchIff(lib: Library, h: string)
    requires h != "" && ToLower(lib, h) == h && lib.parseAddr(h).None?
    ensures MihomoMatch(lib, MatchSpec(MatchDomain, h)) == Ok(Matcher(DomainType, h)) <==> SafeText(h) && TrimSpace(h) == h
  {
  }

  // ---- hosts for which it fails ----

  // A library that leaves these texts alone.
  predicate LowerAndNoAddress(lib: Library, h: string) {
    ToLower(lib, h) == h && lib.parseAddr(h).None?
  }

  lemma PlainHostAccepted(lib: Library, raw: string, h: string, labels: seq<string>)
    requires LowerAndNoAddress(lib, h) && TrimSpace(raw) in {h, h + "."} && lib.toLower('.') == '.'
    requires |labels| >= 2 && h == Join(labels) && forall i :: 0 <= i < |labels| ==> 0 < ByteLength(labels[i]) <= 63 && Free(labels[i], ".")
    requires ByteLength(h) <= MAX_HOST_BYTES && Free(h, " /\\@")
    ensures CanonicalHost(lib, raw) == h
  {
    assert DottedName(h);
    DottedNameEnd(h);
    if TrimSpace(raw) == h + "." {
      var t := ToLower(lib, h + ".");
      assert forall i :: 0 <= i < |h| ==> t[i] == ToLower(lib, h)[i];
      assert t == h + ".";
    }
    CanonicalHostIff(lib, raw, h);
  }

  // "b" is followed by an ideographic space.
  const SPACED_HOST := "a.b\U{3000}"
  const COMMA_HOST := "a,b.c"

  lemma {:induction false} ByteLengthBound(s: string)
    ensures |s| <= ByteLength(s) <= 4 * |s|
  {
    if s != "" {
      ByteLengthBound(s[1..]);
    }
  }

  // Two short labels make a host.
  lemma TwoLabels(lib: Library, raw: string, a: string, b: string)
    requires LowerAndNoAddress(lib, a + "." + b) && lib.toLower('.') == '.'
    requires TrimSpace(raw) in {a + "." + b, a + "." + b + "."}
    requires 0 < |a| <= 10 && 0 < |b| <= 10 && Free(a, ". /\\@") && Free(b, ". /\\@")
    ensures CanonicalHost(lib, raw) == a + "." + b
  {
    var h := a + "." + b;
    ByteLengthBound(a);
    ByteLengthBound(b);
    ByteLengthBound(h);
    assert [a, b][1..] == [b];
    assert Join([a, b]) == h;
    FreeOfEach(a);
    FreeOfEach(b);
    forall i | 0 <= i < |h| ensures h[i] !in " /\\@" {
      assert i < |a| ==> h[i] == a[i];
      assert i > |a| ==> h[i] == b[i - |a| - 1];
    }
    PlainHostAccepted(lib, raw, h, [a, b]);
  }

  lemma FreeOfEach(s: string)
    requires Free(s, ". /\\@")
    ensures Free(s, ".") && Free(s, " /\\@")
  {
    forall i | 0 <= i < |s| ensures s[i] !in "." && s[i] !in " /\\@" {
      var cs := ". /\\@";
      assert s[i] != cs[0] && s[i] != cs[1] && s[i] != cs[2] && s[i] != cs[3] && s[i] != cs[4];
    }
  }

  // An ideographic space before the root dot survives once, and is trimmed off the second
  // time.
  lemma CanonicalHostIsNotIdempotent(lib: Library)
    requires LawfulCase(lib) && LowerAndNoAddress(lib, SPACED_HOST) && LowerAndNoAddress(lib, "a.b")
    ensures CanonicalHost(lib, SPACED_HOST + ".") == SPACED_HOST
    ensures CanonicalHost(lib, SPACED_HOST) == "a.b"
  {
    assert CaseKept(lib, '.');
    assert SPACED_HOST == "a" + "." + "b\U{3000}" && "a.b" == "a" + "." + "b";
    Trimmed(SPACED_HOST + ".");
    TwoLabels(lib, SPACED_HOST + ".", "a", "b\U{3000}");
    assert TrimLeft(SPACED_HOST) == SPACED_HOST;
    assert SPACED_HOST[..3] == "a.b" && TrimRight(SPACED_HOST) == TrimRight("a.b") == "a.b";
    TwoLabels(lib, SPACED_HOST, "a", "b");
  }

  // A host with a comma is observed, and refused as a match.
  lemma ObservedHostDoesNotCompile(lib: Library)
    requires LawfulCase(lib) && LowerAndNoAddress(lib, COMMA_HOST)
    ensures CanonicalHost(lib, COMMA_HOST) == COMMA_HOST
    ensures MihomoMatch(lib, MatchSpec(MatchDomain, COMMA_HOST)) == Err(InvalidMatch)
  {
    assert CaseKept(lib, '.');
    assert COMMA_HOST == "a,b" + "." + "c";
    Trimmed(COMMA_HOST);
    TwoLabels(lib, COMMA_HOST, "a,b", "c");
    assert COMMA_HOST[1] == ',' && SEPARATORS[0] == ',';
    assert !Free(COMMA_HOST, SEPARATORS);
  }

  // ---- what is admitted, in terms of the raw texts ----

  // UTF-8 takes one to four bytes for a character, and the lengths add up.
  lemma {:induction false} ByteLengthSays(s: string)
    ensures ByteLength("") == 0
    ensures s != "" ==>
      ByteLength(s) == ByteLength(s[1..]) +
        if s[0] < '\U{80}' then 1 else if s[0] < '\U{800}' then 2 else if s[0] < '\U{10000}' then 3 else 4
  {
  }

  // The network of an admitted connection: trimmed and in lower case it says tcp, or quic,
  // or udp; udp sniffed as quic counts as quic.
  lemma NetworkSays(lib: Library, rawNetwork: string, rawSniffType: string, t: string, u: string)
    requires IsTrimmed(rawNetwork, t) && IsTrimmed(rawSniffType, u)
    ensures var network, sniffed, r := ToLower(lib, t), ToLower(lib, u), NormalizeNetwork(lib, rawNetwork, rawSniffType);
      && (r == Tcp <==> network == "tcp")
      && (r == Udp <==> network == "udp" && sniffed != "quic")
      && (r == Quic <==> network == "quic" || (network == "udp" && sniffed == "quic"))
      && (r == UnknownNetwork <==> network !in {"tcp", "udp", "quic"})
  {
    TrimSpaceIff(rawNetwork, t);
    TrimSpaceIff(rawSniffType, u);
    assert "tcp"[0] == 't' && "udp"[0] == 'u' && "quic"[0] == 'q';
  }

  // A raw text stands for a host name.
  ghost predicate StandsFor(lib: Library, raw: string, h: string) {
    IsHostName(lib, h) && exists t :: IsTrimmed(raw, t) && ToLower(lib, t) in {h, h + "."}
  }

  lemma StandsForIff(lib: Library, raw: string, h: string)
    requires h != ""
    ensures StandsFor(lib, raw, h) <==> CanonicalHost(lib, raw) == h
  {
    CanonicalHostIff(lib, raw, h);
    TrimSpaceIff(raw, TrimSpace(raw));
    forall t ensures IsTrimmed(raw, t) <==> TrimSpace(raw) == t {
      TrimSpaceIff(raw, t);
    }
  }

  ghost predicate NamesHost(lib: Library, raw: string) {
    exists h :: StandsFor(lib, raw, h)
  }

  lemma NamesHostIff(lib: Library, raw: string)
    ensures NamesHost(lib, raw) <==> CanonicalHost(lib, raw) != ""
  {
    if CanonicalHost(lib, raw) != "" {
      StandsForIff(lib, raw, CanonicalHost(lib, raw));
    }
    forall h | StandsFor(lib, raw, h) ensures CanonicalHost(lib, raw) == h != "" {
      DottedNameEnd(h);
      StandsForIff(lib, raw, h);
    }
  }

  // A connection is admitted exactly when it has an id, a source address, a host name (the
  // sniffed one, or else the requested one) and a known network; and what it is stored as.
  lemma NormalizeSays(lib: Library, c: Connection, observedAt: int)
    ensures NormalizeConnection(lib, c, observedAt).Some? <==>
      && c.id != "" && lib.parseAddr(c.sourceIP).Some?
      && (NamesHost(lib, c.sniffHost) || NamesHost(lib, c.host))
      && NormalizeNetwork(lib, c.network, c.sniffType) != UnknownNetwork
    ensures NormalizeConnection(lib, c, observedAt).Some? ==>
      var f := NormalizeConnection(lib, c, observedAt).value;
      && f.connectionId == c.id
      && f.sourceIP == lib.addrText(lib.parseAddr(c.sourceIP).value)
      && StandsFor(lib, if NamesHost(lib, c.sniffHost) then c.sniffHost else c.host, f.host)
      && f.network == NormalizeNetwork(lib, c.network, c.sniffType)
      && f.observedAt == Some(observedAt)
  {
    NamesHostIff(lib, c.sniffHost);
    NamesHostIff(lib, c.host);
    NormalizeUnfolds(lib, c, observedAt, NormalizeNetwork(lib, c.network, c.sniffType));
    if NormalizeConnection(lib, c, observedAt).Some? {
      var h := NormalizeConnection(lib, c, observedAt).value.host;
      StandsForIff(lib, if NamesHost(lib, c.sniffHost) then c.sniffHost else c.host, h);
    }
  }

  lemma NormalizeUnfolds(lib: Library, c: Connection, observedAt: int, network: Network)
    requires network == NormalizeNetwork(lib, c.network, c.sniffType)
    ensures var sniffed, requested := CanonicalHost(lib, c.sniffHost), CanonicalHost(lib, c.host);
      NormalizeConnection(lib, c, observedAt) ==
        if c.id == "" || lib.parseAddr(c.sourceIP).None? || (sniffed == "" && requested == "") || network == UnknownNetwork then None
        else Some(Feature(c.id, lib.addrText(lib.parseAddr(c.sourceIP).value), if sniffed != "" then sniffed else requested,
                          network, Some(observedAt)))
  {
  }
}
