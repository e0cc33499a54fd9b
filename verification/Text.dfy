// Strings as sequences of Unicode code points, with the library functions the program
// uses. The byte order of UTF-8 is the order of code points, so Less is the sort order.
module Text {
  import opened Wrappers

  // ---- prefixes, suffixes, membership ----

  predicate HasPrefix(s: string, prefix: string) {
    |prefix| <= |s| && s[..|prefix|] == prefix
  }

  predicate HasSuffix(s: string, suffix: string) {
    |suffix| <= |s| && s[|s| - |suffix|..] == suffix
  }

  function TrimPrefix(s: string, prefix: string): string {
    if HasPrefix(s, prefix) then s[|prefix|..] else s
  }

  function TrimSuffix(s: string, suffix: string): string {
    if HasSuffix(s, suffix) then s[..|s| - |suffix|] else s
  }

  predicate PartAt(s: string, part: string, i: int) {
    0 <= i <= |s| - |part| && s[i..i + |part|] == part
  }

  predicate Contains(s: string, part: string) {
    exists i :: 0 <= i <= |s| && PartAt(s, part, i)
  }

  // No character of s is one of cs.
  predicate Free(s: string, cs: string) {
    forall i :: 0 <= i < |s| ==> s[i] !in cs
  }

  predicate IsControl(c: char) {
    c < ' ' || ('\U{7F}' <= c <= '\U{9F}')
  }

  predicate ContainsControl(s: string) {
    exists i :: 0 <= i < |s| && IsControl(s[i])
  }

  // ---- trimming ----

  predicate IsSpace(c: char) {
    || '\t' <= c <= '\r' || c == ' ' || c == '\U{85}' || c == '\U{A0}'
    || c == '\U{1680}' || '\U{2000}' <= c <= '\U{200A}' || c == '\U{2028}' || c == '\U{2029}'
    || c == '\U{202F}' || c == '\U{205F}' || c == '\U{3000}'
  }

  // The white-space characters of Unicode, one by one.
  lemma SpacesAre(c: char)
    ensures IsSpace(c) <==>
      c in {'\t', '\n', '\U{0B}', '\U{0C}', '\r', ' ', '\U{85}', '\U{A0}', '\U{1680}',
            '\U{2000}', '\U{2001}', '\U{2002}', '\U{2003}', '\U{2004}', '\U{2005}', '\U{2006}', '\U{2007}', '\U{2008}',
            '\U{2009}', '\U{200A}', '\U{2028}', '\U{2029}', '\U{202F}', '\U{205F}', '\U{3000}'}
  {
    var n := c as int;
    assert '\t' <= c <= '\r' <==> n in {9, 10, 11, 12, 13};
    assert '\U{2000}' <= c <= '\U{200A}' <==>
      n in {0x2000, 0x2001, 0x2002, 0x2003, 0x2004, 0x2005, 0x2006, 0x2007, 0x2008, 0x2009, 0x200A};
    assert c == n as char;
  }

  predicate Blank(s: string) {
    forall i :: 0 <= i < |s| ==> IsSpace(s[i])
  }

  function TrimLeft(s: string): string {
    if s != "" && IsSpace(s[0]) then TrimLeft(s[1..]) else s
  }

  function TrimRight(s: string): string {
    if s != "" && IsSpace(s[|s| - 1]) then TrimRight(s[..|s| - 1]) else s
  }

  // strings.TrimSpace
  function TrimSpace(s: string): string {
    TrimRight(TrimLeft(s))
  }

  lemma {:induction false} TrimLeftIsSuffix(s: string)
    ensures var r := TrimLeft(s); |r| <= |s| && r == s[|s| - |r|..] && (r == "" || !IsSpace(r[0])) && Blank(s[..|s| - |r|])
  {
    if s != "" && IsSpace(s[0]) {
      TrimLeftIsSuffix(s[1..]);
      var k := |s| - |TrimLeft(s)|;
      assert forall i :: 1 <= i < k ==> s[..k][i] == s[1..][..k - 1][i - 1];
    }
  }

  lemma {:induction false} TrimRightIsPrefix(s: string)
    ensures var r := TrimRight(s); |r| <= |s| && r == s[..|r|] && (r == "" || !IsSpace(r[|r| - 1])) && Blank(s[|r|..])
  {
    if s != "" && IsSpace(s[|s| - 1]) {
      var front := s[..|s| - 1];
      TrimRightIsPrefix(front);
      var k := |TrimRight(s)|;
      assert s[k..] == front[k..] + [s[|s| - 1]];
    }
  }

  // A part of the text that neither starts nor ends with a space; all of it if it did not.
  lemma Trimmed(s: string)
    ensures var r := TrimSpace(s);
      && |r| <= |s| && Contains(s, r)
      && (r == "" || (!IsSpace(r[0]) && !IsSpace(r[|r| - 1])))
      && (s != "" && !IsSpace(s[0]) && !IsSpace(s[|s| - 1]) ==> r == s)
  {
    var left, r := TrimLeft(s), TrimSpace(s);
    TrimLeftIsSuffix(s);
    TrimRightIsPrefix(left);
    assert PartAt(s, r, |s| - |left|);
    assert r != "" ==> r[0] == left[0];
  }

  // Trimming removes spaces at both ends, all of them and nothing else.
  lemma TrimSpaceExactly(s: string) returns (i: nat, j: nat)
    ensures i <= j <= |s| && TrimSpace(s) == s[i..j] && Blank(s[..i]) && Blank(s[j..])
    ensures i == j || (!IsSpace(s[i]) && !IsSpace(s[j - 1]))
  {
    var left := TrimLeft(s);
    TrimLeftIsSuffix(s);
    TrimRightIsPrefix(left);
    i := |s| - |left|;
    j := i + |TrimRight(left)|;
    assert s[j..] == left[|TrimRight(left)|..];
  }

  lemma BlankStart(s: string, i: nat)
    requires i <= |s| && Blank(s[..i])
    ensures forall x :: 0 <= x < i ==> IsSpace(s[x])
  {
    assert forall x :: 0 <= x < i ==> s[..i][x] == s[x];
  }

  lemma BlankEnd(s: string, j: nat)
    requires j <= |s| && Blank(s[j..])
    ensures forall x :: j <= x < |s| ==> IsSpace(s[x])
  {
    assert forall x :: j <= x < |s| ==> s[j..][x - j] == s[x];
  }

  // t is s without the spaces at its ends.
  ghost predicate IsTrimmed(s: string, t: string) {
    exists i, j :: CutsOut(s, t, i, j)
  }

  ghost predicate CutsOut(s: string, t: string, i: int, j: int) {
    && 0 <= i <= j <= |s| && t == s[i..j] && Blank(s[..i]) && Blank(s[j..])
    && (i == j || (!IsSpace(s[i]) && !IsSpace(s[j - 1])))
  }

  lemma TrimSpaceIff(s: string, t: string)
    ensures TrimSpace(s) == t <==> IsTrimmed(s, t)
  {
    var i, j := TrimSpaceExactly(s);
    assert CutsOut(s, TrimSpace(s), i, j);
    if k, l :| CutsOut(s, t, k, l) {
      BlankStart(s, i);
      BlankEnd(s, j);
      BlankStart(s, k);
      BlankEnd(s, l);
      assert k < l ==> i == k && j == l;
    }
  }

  lemma BlankIff(s: string)
    ensures TrimSpace(s) == "" <==> Blank(s)
  {
    var i, j := TrimSpaceExactly(s);
    BlankStart(s, i);
    BlankEnd(s, j);
  }

  lemma {:induction false} TrimRightBlank(s: string)
    ensures TrimRight(s) == "" <==> Blank(s)
  {
    if s != "" && IsSpace(s[|s| - 1]) {
      TrimRightBlank(s[..|s| - 1]);
    }
  }

  // Trimming stops at the end of a text that does not end in a space.
  lemma {:induction false} TrimRightAppend(s: string, tail: string)
    requires s != "" && !IsSpace(s[|s| - 1])
    ensures TrimRight(s + tail) == s + TrimRight(tail)
  {
    if tail == "" {
      assert s + tail == s;
    } else if IsSpace(tail[|tail| - 1]) {
      TrimRightAppend(s, tail[..|tail| - 1]);
      assert (s + tail)[..|s + tail| - 1] == s + tail[..|tail| - 1];
    }
  }

  lemma {:induction false} TrimRightKeeps(s: string, i: nat)
    requires i < |s| && !IsSpace(s[i])
    ensures |TrimRight(s)| > i
  {
    if IsSpace(s[|s| - 1]) {
      TrimRightKeeps(s[..|s| - 1], i);
    }
  }

  // ---- splitting ----

  // strings.Split for a one-character separator.
  function Split(s: string, sep: char): (r: seq<string>)
    ensures |r| > 0
  {
    if s == "" then [""]
    else if s[0] == sep then [""] + Split(s[1..], sep)
    else
      var rest := Split(s[1..], sep);
      [[s[0]] + rest[0]] + rest[1..]
  }

  lemma {:induction false} SplitFree(s: string, sep: char)
    requires Free(s, [sep])
    ensures Split(s, sep) == [s]
  {
    if s != "" {
      assert s[0] in [s[0]] && s[0] != sep;
      assert forall i :: 0 <= i < |s[1..]| ==> s[1..][i] == s[i + 1];
      SplitFree(s[1..], sep);
      assert [s[0]] + s[1..] == s;
    }
  }

  lemma {:induction false} SplitAt(a: string, sep: char, b: string)
    requires Free(a, [sep])
    ensures Split(a + [sep] + b, sep) == [a] + Split(b, sep)
  {
    var s := a + [sep] + b;
    if a == "" {
      assert s[1..] == b;
    } else {
      assert a[0] != sep;
      assert forall i :: 0 <= i < |a[1..]| ==> a[1..][i] == a[i + 1];
      SplitAt(a[1..], sep, b);
      assert s[1..] == a[1..] + [sep] + b;
      assert [a[0]] + a[1..] == a;
    }
  }

  // ---- lower case ----

  function MapChars(lower: char -> char, s: string): (r: string)
    ensures |r| == |s| && forall i :: 0 <= i < |s| ==> r[i] == lower(s[i])
  {
    seq(|s|, i requires 0 <= i < |s| => lower(s[i]))
  }

  // ---- order ----

  predicate Less(a: string, b: string) {
    b != "" && (a == "" || a[0] < b[0] || (a[0] == b[0] && Less(a[1..], b[1..])))
  }

  // The order of dictionaries: a proper prefix comes first, otherwise the first difference
  // decides.
  lemma {:induction false} LessIff(a: string, b: string)
    ensures Less(a, b) <==> exists k :: Precedes(a, b, k)
  {
    if a == "" {
      assert b != "" ==> Precedes(a, b, 0);
    } else if b != "" && a[0] == b[0] {
      LessIff(a[1..], b[1..]);
      assert a == [a[0]] + a[1..] && b == [b[0]] + b[1..];
      if k :| Precedes(a[1..], b[1..], k) {
        assert a[..k + 1] == [a[0]] + a[1..][..k] && b[..k + 1] == [b[0]] + b[1..][..k];
        assert Precedes(a, b, k + 1);
      }
      if k :| Precedes(a, b, k) {
        assert k > 0;
        assert a[1..][..k - 1] == a[..k][1..] && b[1..][..k - 1] == b[..k][1..];
        assert Precedes(a[1..], b[1..], k - 1);
      }
    } else {
      assert b != "" && a[0] < b[0] ==> Precedes(a, b, 0);
      assert forall k :: Precedes(a, b, k) && k > 0 ==> a[..k][0] == b[..k][0];
    }
  }

  // a and b agree up to k, where a ends or has the smaller character.
  predicate Precedes(a: string, b: string, k: int) {
    0 <= k <= |a| && k < |b| && a[..k] == b[..k] && (k == |a| || a[k] < b[k])
  }

  lemma {:induction false} LessTotal(a: string, b: string)
    ensures a == b || Less(a, b) || Less(b, a)
    ensures !(Less(a, b) && Less(b, a)) && !Less(a, a)
  {
    if a != "" {
      LessTotal(a[1..], a[1..]);
    }
    if a != "" && b != "" && a[0] == b[0] {
      LessTotal(a[1..], b[1..]);
      if a[1..] == b[1..] {
        assert a == [a[0]] + a[1..] && b == [b[0]] + b[1..];
      }
    }
  }

  lemma {:induction false} LessTransitive(a: string, b: string, c: string)
    requires Less(a, b) && Less(b, c)
    ensures Less(a, c)
  {
    if a != "" && a[0] == b[0] && b[0] == c[0] {
      LessTransitive(a[1..], b[1..], c[1..]);
    }
  }

  ghost predicate Sorted(s: seq<string>) {
    forall i, j :: 0 <= i < j < |s| ==> Less(s[i], s[j])
  }

  ghost predicate IsLeast(x: string, s: set<string>) {
    x in s && forall y :: y in s && y != x ==> Less(x, y)
  }

  lemma {:induction false} LeastExists(s: set<string>)
    requires s != {}
    ensures exists x :: IsLeast(x, s)
  {
    var z :| z in s;
    if s == {z} {
      assert IsLeast(z, s);
    } else {
      LeastExists(s - {z});
      var x :| IsLeast(x, s - {z});
      LessTotal(x, z);
      if Less(x, z) {
        assert IsLeast(x, s);
      } else {
        forall y | y in s && y != z ensures Less(z, y) {
          if y != x { LessTransitive(z, x, y); }
        }
        assert IsLeast(z, s);
      }
    }
  }

  // The keys of a map in sort.Strings order: strictly increasing, each key once.
  ghost function SortedKeys(s: set<string>): (r: seq<string>)
    ensures forall x :: x in r <==> x in s
    ensures Sorted(r)
  {
    if s == {} then []
    else
      LeastExists(s);
      var x :| IsLeast(x, s);
      var rest := SortedKeys(s - {x});
      assert forall i :: 0 <= i < |rest| ==> rest[i] in rest;
      [x] + rest
  }

  // There is only one such sequence.
  lemma {:induction false} SortedUnique(a: seq<string>, b: seq<string>)
    requires Sorted(a) && Sorted(b)
    requires forall x :: x in a <==> x in b
    ensures a == b
  {
    assert (a != [] ==> a[0] in b) && (b != [] ==> b[0] in a);
    if a != [] && b != [] {
      assert a[0] in b && b[0] in a;
      var i :| 0 <= i < |b| && b[i] == a[0];
      var j :| 0 <= j < |a| && a[j] == b[0];
      if i > 0 && j > 0 {
        LessTotal(a[0], b[0]);
      }
      LessTotal(a[0], a[0]);
      assert a[0] == b[0];
      forall x ensures x in a[1..] <==> x in b[1..] {
        TailMember(a, x);
        TailMember(b, x);
      }
      SortedUnique(a[1..], b[1..]);
      assert a == [a[0]] + a[1..] && b == [b[0]] + b[1..];
    }
  }

  lemma TailMember(a: seq<string>, x: string)
    requires Sorted(a) && a != []
    ensures x in a[1..] <==> x in a && x != a[0]
  {
    LessTotal(a[0], a[0]);
    if x in a && x != a[0] {
      var i :| 0 <= i < |a| && a[i] == x;
      assert a[1..][i - 1] == x;
    }
  }

  // Fills a slice from the map's keys and sorts it.
  method MapKeysSorted(keys: set<string>) returns (r: seq<string>)
    ensures r == SortedKeys(keys)
  {
    r := [];
    var todo := keys;
    while todo != {}
      invariant Sorted(r) && todo <= keys
      invariant forall x :: x in r <==> x in keys - todo
    {
      var x :| x in todo;
      r := Insert(r, x);
      todo := todo - {x};
    }
    SortedUnique(r, SortedKeys(keys));
  }

  method Insert(s: seq<string>, x: string) returns (r: seq<string>)
    requires Sorted(s) && x !in s
    ensures Sorted(r)
    ensures forall y :: y in r <==> y in s || y == x
  {
    var i := 0;
    while i < |s| && Less(s[i], x)
      invariant i <= |s|
      invariant forall k :: 0 <= k < i ==> Less(s[k], x)
    {
      i := i + 1;
    }
    r := s[..i] + [x] + s[i..];
    forall k | i <= k < |s| ensures Less(x, s[k]) {
      LessTotal(s[i], x);
      if k > i { LessTransitive(x, s[i], s[k]); }
    }
    assert s == s[..i] + s[i..];
  }
}
