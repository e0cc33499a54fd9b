// Decimal numerals as strconv and fmt write and read them.
module Decimal {
  import opened Wrappers

  const MAX_INT64 := 0x7FFF_FFFF_FFFF_FFFF

  function Digit(n: nat): char
    requires n < 10
  {
    ('0' as int + n) as char
  }

  predicate IsDigit(c: char) {
    '0' <= c <= '9'
  }

  function DecimalText(n: nat): (r: string)
    ensures r != ""
    ensures forall i :: 0 <= i < |r| ==> IsDigit(r[i])
  {
    if n < 10 then [Digit(n)] else DecimalText(n / 10) + [Digit(n % 10)]
  }

  function ParseDigits(s: string): Option<nat> {
    if s == "" || !IsDigit(s[|s| - 1]) then None
    else
      var d := s[|s| - 1] as int - '0' as int;
      if |s| == 1 then Some(d)
      else match ParseDigits(s[..|s| - 1])
        case None => None
        case Some(v) => Some(10 * v + d)
  }

  lemma {:induction false} DigitsRoundTrip(n: nat)
    ensures ParseDigits(DecimalText(n)) == Some(n)
  {
    if n >= 10 {
      var s := DecimalText(n);
      assert s[..|s| - 1] == DecimalText(n / 10);
      DigitsRoundTrip(n / 10);
    }
  }

  // strconv.ParseInt(s, 10, 64): an optional sign, digits only, no overflow.
  function ParseInt64(s: string): Option<int> {
    var signed := s != "" && (s[0] == '+' || s[0] == '-');
    match ParseDigits(if signed then s[1..] else s)
    case None => None
    case Some(v) =>
      var r: int := if signed && s[0] == '-' then -(v as int) else v;
      if -MAX_INT64 - 1 <= r <= MAX_INT64 then Some(r) else None
  }

  // ---- what is a numeral ----

  function Pow10(n: nat): nat {
    if n == 0 then 1 else 10 * Pow10(n - 1)
  }

  // The number digits stand for, from the left.
  function Value(s: string): int {
    if s == "" then 0 else (s[0] as int - '0' as int) * Pow10(|s| - 1) + Value(s[1..])
  }

  predicate Digits(s: string) {
    s != "" && forall i :: 0 <= i < |s| ==> '0' <= s[i] <= '9'
  }

  lemma {:induction false} ValueSnoc(s: string, c: char)
    ensures Value(s + [c]) == 10 * Value(s) + (c as int - '0' as int)
  {
    if s == "" {
      assert Value([c]) == (c as int - '0' as int) * Pow10(0) + Value([c][1..]);
    } else {
      ValueSnoc(s[1..], c);
      assert (s + [c])[1..] == s[1..] + [c];
      var d := s[0] as int - '0' as int;
      assert d * Pow10(|s|) == 10 * (d * Pow10(|s| - 1));
    }
  }

  lemma {:induction false} DigitsParseIff(s: string)
    ensures ParseDigits(s).Some? <==> Digits(s)
    ensures Digits(s) ==> ParseDigits(s).value == Value(s)
  {
    if s != "" {
      var n := |s| - 1;
      assert s == s[..n] + [s[n]];
      ValueSnoc(s[..n], s[n]);
      if n == 0 {
        assert s[..n] == "";
      } else {
        DigitsParseIff(s[..n]);
        assert Digits(s) <==> Digits(s[..n]) && '0' <= s[n] <= '9';
      }
    }
  }

  // A 64-bit integer is read from digits after at most one sign, and from nothing else.
  lemma ParseInt64Iff(s: string, r: int)
    ensures ParseInt64(s) == Some(r) <==>
      && -0x8000_0000_0000_0000 <= r <= 0x7FFF_FFFF_FFFF_FFFF
      && exists digits :: Numeral(s, digits, r)
  {
    var signed := s != "" && (s[0] == '+' || s[0] == '-');
    var digits := if signed then s[1..] else s;
    DigitsParseIff(digits);
    if ParseInt64(s) == Some(r) {
      assert signed ==> s == [s[0]] + s[1..];
      assert Numeral(s, digits, r);
    }
    forall ds | Numeral(s, ds, r) ensures ds == digits {
      assert s == ds ==> !signed;
      assert s == "+" + ds || s == "-" + ds ==> signed && s[1..] == ds;
    }
  }

  ghost predicate Numeral(s: string, digits: string, r: int) {
    Digits(digits) && ((s == digits && r == Value(digits)) || (s == "+" + digits && r == Value(digits)) || (s == "-" + digits && r == -Value(digits)))
  }
}
