// The entity tag of a canvas revision and the If-Match header that names one.
module ETags {
  import opened Wrappers
  import opened Text
  import opened Decimal

  const TAG_PREFIX := "canvas-"

  function ETag(revision: nat): string {
    TAG_PREFIX + DecimalText(revision)
  }

  // strconv.Quote of a text without quotes, backslashes or unprintable characters.
  function Quoted(s: string): string {
    "\"" + s + "\""
  }

  // strings.Trim(s, "\"")
  function TrimQuotesLeft(s: string): string {
    if s != "" && s[0] == '\"' then TrimQuotesLeft(s[1..]) else s
  }

  function TrimQuotesRight(s: string): string {
    if s != "" && s[|s| - 1] == '\"' then TrimQuotesRight(s[..|s| - 1]) else s
  }

  function ParseExpectedRevision(header: string): Option<nat> {
    var value := TrimQuotesRight(TrimQuotesLeft(TrimSpace(header)));
    if !HasPrefix(value, TAG_PREFIX) then None
    else match ParseInt64(TrimPrefix(value, TAG_PREFIX))
      case None => None
      case Some(n) => if n < 0 then None else Some(n)
  }

  lemma UnsignedParses(n: nat)
    ensures ParseInt64(DecimalText(n)) == if n <= MAX_INT64 then Some(n as int) else None
  {
    DigitsRoundTrip(n);
    assert IsDigit(DecimalText(n)[0]);
  }

  lemma QuotesComeOff(s: string)
    requires s != "" && s[0] != '\"' && s[|s| - 1] != '\"'
    ensures TrimQuotesRight(TrimQuotesLeft(TrimSpace(Quoted(s)))) == s
  {
    var q := Quoted(s);
    assert q[0] == '\"' && q[|q| - 1] == '\"' && !IsSpace('\"');
    assert TrimSpace(q) == q;
    assert q[1..] == s + "\"";
    assert (s + "\"")[0] == s[0];
    assert TrimQuotesLeft(q) == TrimQuotesLeft(s + "\"") == s + "\"";
    assert (s + "\"")[..|s|] == s;
  }

  // The quoted tag a response carries names its revision again, as long as the revision
  // is a 64-bit integer; a larger one is refused.
  lemma QuotedTagRoundTrip(revision: nat)
    ensures ParseExpectedRevision(Quoted(ETag(revision))) == if revision <= MAX_INT64 then Some(revision) else None
  {
    var tag, digits := ETag(revision), DecimalText(revision);
    assert tag[0] == 'c' && IsDigit(digits[|digits| - 1]) && tag[|tag| - 1] == digits[|digits| - 1];
    QuotesComeOff(tag);
    assert tag[|TAG_PREFIX|..] == digits && tag[..|TAG_PREFIX|] == TAG_PREFIX;
    UnsignedParses(revision);
  }

  // ---- which headers name a revision ----

  predicate AllQuotes(s: string) {
    forall i :: 0 <= i < |s| ==> s[i] == '\"'
  }

  lemma {:induction false} QuotesLeft(s: string) returns (i: nat)
    ensures i <= |s| && TrimQuotesLeft(s) == s[i..] && AllQuotes(s[..i]) && (i < |s| ==> s[i] != '\"')
  {
    i := 0;
    if s != "" && s[0] == '\"' {
      var k := QuotesLeft(s[1..]);
      i := k + 1;
      assert forall x :: 0 < x < i ==> s[x] == s[1..][..k][x - 1];
    }
  }

  lemma {:induction false} QuotesRight(s: string) returns (j: nat)
    ensures j <= |s| && TrimQuotesRight(s) == s[..j] && AllQuotes(s[j..]) && (j > 0 ==> s[j - 1] != '\"')
  {
    j := |s|;
    if s != "" && s[j - 1] == '\"' {
      var n := |s| - 1;
      j := QuotesRight(s[..n]);
      assert s[..n][..j] == s[..j];
      assert forall x :: j <= x < n ==> s[x] == s[..n][j..][x - j];
    }
  }

  lemma FirstOther(s: string, i: nat, k: nat)
    requires i <= |s| && AllQuotes(s[..i]) && (i < |s| ==> s[i] != '\"')
    requires k <= |s| && AllQuotes(s[..k]) && (k < |s| ==> s[k] != '\"')
    ensures i == k
  {
    assert forall x :: 0 <= x < i ==> s[x] == s[..i][x];
    assert forall x :: 0 <= x < k ==> s[x] == s[..k][x];
  }

  lemma LastOther(s: string, j: nat, k: nat)
    requires j <= |s| && AllQuotes(s[j..]) && (j > 0 ==> s[j - 1] != '\"')
    requires k <= |s| && AllQuotes(s[k..]) && (k > 0 ==> s[k - 1] != '\"')
    ensures j == k
  {
    assert forall x :: j <= x < |s| ==> s[x] == s[j..][x - j];
    assert forall x :: k <= x < |s| ==> s[x] == s[k..][x - k];
  }

  // The text is between quotes, as many as there are, on either side.
  ghost predicate Quotes(s: string, value: string) {
    exists left, right :: AllQuotes(left) && AllQuotes(right) && s == left + value + right
  }

  lemma QuotesIff(s: string, value: string)
    requires value != "" && value[0] != '\"' && value[|value| - 1] != '\"'
    ensures TrimQuotesRight(TrimQuotesLeft(s)) == value <==> Quotes(s, value)
  {
    var t := TrimQuotesLeft(s);
    var i := QuotesLeft(s);
    var j := QuotesRight(t);
    assert s == s[..i] + t[..j] + t[j..];
    forall left, right | AllQuotes(left) && AllQuotes(right) && s == left + value + right ensures TrimQuotesRight(t) == value {
      QuotesComeOffExactly(left, value, right);
    }
  }

  lemma QuotesComeOffExactly(left: string, value: string, right: string)
    requires AllQuotes(left) && AllQuotes(right)
    requires value != "" && value[0] != '\"' && value[|value| - 1] != '\"'
    ensures TrimQuotesRight(TrimQuotesLeft(left + value + right)) == value
  {
    var s, t := left + value + right, value + right;
    assert s[..|left|] == left && s[|left|..] == t && t[|value|..] == right && t[..|value|] == value;
    var i := QuotesLeft(s);
    FirstOther(s, i, |left|);
    var j := QuotesRight(t);
    LastOther(t, j, |value|);
  }

  // A header names a revision if and only if, without the spaces around it and then the
  // quotes, it is the word canvas, a dash and a 64-bit integer that is not negative.
  lemma HeaderNames(header: string, n: nat)
    ensures ETag(n) == "canvas-" + DecimalText(n)
    ensures ParseExpectedRevision(header) == Some(n) <==>
      exists digits :: ParseInt64(digits) == Some(n as int) && Quotes(TrimSpace(header), "canvas-" + digits)
  {
    var value := TrimQuotesRight(TrimQuotesLeft(TrimSpace(header)));
    if HasPrefix(value, TAG_PREFIX) {
      assert value == TAG_PREFIX + TrimPrefix(value, TAG_PREFIX);
    }
    forall digits | ParseInt64(digits) == Some(n as int)
      ensures Quotes(TrimSpace(header), "canvas-" + digits) <==> HasPrefix(value, TAG_PREFIX) && TrimPrefix(value, TAG_PREFIX) == digits
    {
      NumeralEnd(digits, n);
      var tag := "canvas-" + digits;
      assert tag[0] == 'c' && tag[|tag| - 1] == digits[|digits| - 1];
      QuotesIff(TrimSpace(header), tag);
      assert tag[..7] == "canvas-" && tag[7..] == digits;
    }
  }

  lemma NumeralEnd(digits: string, n: nat)
    requires ParseInt64(digits) == Some(n as int)
    ensures digits != "" && digits[|digits| - 1] != '\"'
  {
    ParseInt64Iff(digits, n);
    var ds :| Numeral(digits, ds, n);
    assert digits[|digits| - 1] == ds[|ds| - 1];
  }
}
