/** The string operations of Go's standard library that pushprobe.go uses, on one char per byte. */
module ControlText {

  const NUL: char := '\0'

  function IndexOfNul(s: string): (k: nat)
    ensures k <= |s| && NUL !in s[..k]
    ensures k < |s| ==> s[k] == NUL
  {
    if s == "" || s[0] == NUL then 0
    else
      var k := IndexOfNul(s[1..]);
      assert s[..k + 1] == [s[0]] + s[1..][..k];
      k + 1
  }

  predicate Contains(s: string, p: string) {
    p <= s || (s != "" && Contains(s[1..], p))
  }

  function TrimPrefix(s: string, p: string): string {
    if p <= s then s[|p|..] else s
  }

  /** The UTF-8 bytes of one white-space character, as unicode.IsSpace decides it. */
  predicate IsSpace(r: string) {
    if |r| == 1 then r[0] == ' ' || '\t' <= r[0] <= '\r'
    else if |r| == 2 then r[0] as int == 0xc2 && (r[1] as int == 0x85 || r[1] as int == 0xa0)
    else if |r| == 3 then IsWideSpace(r[0] as int, r[1] as int, r[2] as int)
    else false
  }

  /** U+1680, U+2000 to U+200A, U+2028, U+2029, U+202F, U+205F and U+3000. */
  predicate IsWideSpace(a: int, b: int, c: int) {
    || (a == 0xe1 && b == 0x9a && c == 0x80)
    || (a == 0xe2 && b == 0x80 && (0x80 <= c <= 0x8a || c == 0xa8 || c == 0xa9 || c == 0xaf))
    || (a == 0xe2 && b == 0x81 && c == 0x9f)
    || (a == 0xe3 && b == 0x80 && c == 0x80)
  }

  /** How many bytes the space at the front takes, 0 if there is none. */
  function SpaceAtFront(s: string): (n: nat)
    ensures n <= |s|
  {
    if |s| >= 1 && IsSpace(s[..1]) then 1
    else if |s| >= 2 && IsSpace(s[..2]) then 2
    else if |s| >= 3 && IsSpace(s[..3]) then 3
    else 0
  }

  function SpaceAtEnd(s: string): (n: nat)
    ensures n <= |s|
  {
    if |s| >= 1 && IsSpace(s[|s| - 1..]) then 1
    else if |s| >= 2 && IsSpace(s[|s| - 2..]) then 2
    else if |s| >= 3 && IsSpace(s[|s| - 3..]) then 3
    else 0
  }

  function TrimLeft(s: string): string {
    var n := SpaceAtFront(s);
    if n > 0 then TrimLeft(s[n..]) else s
  }

  function TrimRight(s: string): string {
    var n := SpaceAtEnd(s);
    if n > 0 then TrimRight(s[..|s| - n]) else s
  }

  function TrimSpace(s: string): string {
    TrimRight(TrimLeft(s))
  }

  function Split(s: string): (r: seq<string>)
    ensures |r| >= 1
  {
    if s == "" then [""]
    else
      var r := Split(s[1..]);
      if s[0] == ',' then [""] + r else [[s[0]] + r[0]] + r[1..]
  }

  lemma {:induction false} SplitWhole(item: string)
    requires ',' !in item
    ensures Split(item) == [item]
  {
    if item != "" {
      SplitWhole(item[1..]);
      assert [item[0]] + item[1..] == item;
    }
  }

  lemma {:induction false} SplitFirst(item: string, rest: string)
    requires ',' !in item
    ensures Split(item + ("," + rest)) == [item] + Split(rest)
  {
    var s := item + ("," + rest);
    if item == "" {
      assert s[1..] == rest;
    } else {
      assert s[1..] == item[1..] + ("," + rest);
      SplitFirst(item[1..], rest);
      assert Split(s[1..]) == [item[1..]] + Split(rest);
      assert [s[0]] + item[1..] == item;
    }
  }

  /** The first NUL, wherever it is. */
  lemma {:induction false} NulAfter(s: string, n: nat)
    requires n <= |s| && NUL !in s[..n]
    ensures IndexOfNul(s) >= n
    ensures n < |s| && s[n] == NUL ==> IndexOfNul(s) == n
  {
  }

  /** Nothing but spaces, read from the front. */
  predicate LeadingSpaces(s: string) {
    s == "" || (SpaceAtFront(s) > 0 && LeadingSpaces(s[SpaceAtFront(s)..]))
  }

  /** Nothing but spaces, read from the end. */
  predicate TrailingSpaces(s: string) {
    s == "" || (SpaceAtEnd(s) > 0 && TrailingSpaces(s[..|s| - SpaceAtEnd(s)]))
  }

  predicate IsTrim(s: string, i: nat, j: nat)
    requires i <= j <= |s|
  {
    && TrimSpace(s) == s[i..j]
    && LeadingSpaces(s[..i])
    && TrailingSpaces(s[j..])
    && SpaceAtFront(s[i..j]) == 0
    && SpaceAtEnd(s[i..j]) == 0
  }

  /** Leading and trailing spaces go, and nothing else does. */
  lemma {:induction false} TrimSpaceMeaning(s: string)
    ensures exists i, j :: 0 <= i <= j <= |s| && IsTrim(s, i, j)
  {
    hide TrimLeft, TrimRight, SpaceAtFront, SpaceAtEnd, LeadingSpaces, TrailingSpaces;
    var i := TrimLeftMeaning(s);
    var t := s[i..];
    var j := TrimRightMeaning(t);
    assert t[..j] == s[i..i + j] && t[j..] == s[i + j..];
    FrontOfPrefix(t, j);
    assert IsTrim(s, i, i + j);
  }

  predicate Visible(c: char) {
    '!' <= c <= '~'
  }

  /** Text that starts and ends with visible ASCII characters is left alone. */
  lemma TrimKeeps(s: string)
    requires s != "" && Visible(s[0]) && Visible(s[|s| - 1])
    ensures TrimSpace(s) == s
  {
    assert SpaceAtFront(s) == 0;
    assert SpaceAtEnd(s) == 0;
  }

  /** Where the front has no space, a shorter text has none either. */
  lemma FrontOfPrefix(t: string, j: nat)
    requires j <= |t| && SpaceAtFront(t) == 0
    ensures SpaceAtFront(t[..j]) == 0
  {
    assert j >= 1 ==> t[..j][..1] == t[..1];
    assert j >= 2 ==> t[..j][..2] == t[..2];
    assert j >= 3 ==> t[..j][..3] == t[..3];
  }

  /** The space at the front stays the one found when more text follows. */
  lemma FrontOfLonger(a: string, b: string)
    requires SpaceAtFront(a) > 0
    ensures SpaceAtFront(a + b) == SpaceAtFront(a)
  {
    var s := a + b;
    assert s[..1] == a[..1];
    assert |a| >= 2 ==> s[..2] == a[..2];
    assert |a| >= 3 ==> s[..3] == a[..3];
    assert |a| == 1 ==> IsSpace(a[..1]);
  }

  lemma {:induction false} TrimLeftMeaning(s: string) returns (i: nat)
    ensures i <= |s| && TrimLeft(s) == s[i..]
    ensures LeadingSpaces(s[..i]) && SpaceAtFront(s[i..]) == 0
  {
    hide SpaceAtFront;
    var n := SpaceAtFront(s);
    i := 0;
    if n == 0 {
      assert s[0..] == s;
    } else {
      var m := TrimLeftMeaning(s[n..]);
      i := n + m;
      assert s[n..][m..] == s[i..];
      SpaceItself(s, n);
      FrontOfLonger(s[..n], s[n..i]);
      assert s[..n] + s[n..i] == s[..i] && s[..i][n..] == s[n..][..m];
    }
  }

  /** The space at the front, on its own, is that space. */
  lemma SpaceItself(s: string, n: nat)
    requires n == SpaceAtFront(s) > 0
    ensures SpaceAtFront(s[..n]) == n
  {
    assert s[..n][..1] == s[..1];
    assert n >= 2 ==> s[..n][..2] == s[..2];
    assert s[..n][..n] == s[..n];
  }

  lemma SpaceItselfAtEnd(s: string, n: nat)
    requires n == SpaceAtEnd(s) > 0
    ensures SpaceAtEnd(s[|s| - n..]) == n
  {
    var e := s[|s| - n..];
    assert e[n - 1..] == s[|s| - 1..];
    assert n >= 2 ==> e[n - 2..] == s[|s| - 2..];
    assert e[0..] == e;
  }

  /** The last n bytes are a space. */
  predicate EndsIn(s: string, n: nat) {
    n <= |s| && IsSpace(s[|s| - n..])
  }

  lemma EndOfLonger(a: string, b: string)
    requires SpaceAtEnd(b) > 0
    ensures SpaceAtEnd(a + b) == SpaceAtEnd(b)
  {
    hide SpaceAtEnd, EndsIn, IsSpace;
    FirstEnd(b);
    FirstEnd(a + b);
    SameEnd(a, b, 1);
    if |b| >= 2 {
      SameEnd(a, b, 2);
    }
    if |b| >= 3 {
      SameEnd(a, b, 3);
    }
  }

  lemma FirstEnd(s: string)
    ensures SpaceAtEnd(s) == if EndsIn(s, 1) then 1 else if EndsIn(s, 2) then 2 else if EndsIn(s, 3) then 3 else 0
    ensures SpaceAtEnd(s) <= |s|
  {
    hide IsSpace;
  }

  lemma SameEnd(a: string, b: string, n: nat)
    requires n <= |b|
    ensures EndsIn(a + b, n) <==> EndsIn(b, n)
  {
    hide IsSpace;
    assert (a + b)[|a + b| - n..] == b[|b| - n..];
  }

  lemma {:induction false} TrimRightMeaning(s: string) returns (j: nat)
    ensures j <= |s| && TrimRight(s) == s[..j]
    ensures TrailingSpaces(s[j..]) && SpaceAtEnd(s[..j]) == 0
  {
    hide SpaceAtEnd;
    var n := SpaceAtEnd(s);
    j := |s|;
    if n == 0 {
      assert s[..j] == s;
    } else {
      var k := |s| - n;
      j := TrimRightMeaning(s[..k]);
      assert s[..k][..j] == s[..j] && s[..k][j..] == s[j..k];
      SpaceItselfAtEnd(s, n);
      EndOfLonger(s[j..k], s[k..]);
      assert s[j..k] + s[k..] == s[j..] && s[j..][..k - j] == s[j..k];
    }
  }

  /** A pattern that starts with a comma is not found inside comma-free text. */
  lemma {:induction false} ContainsSkips(a: string, s: string, p: string)
    requires ',' !in a && p != "" && p[0] == ','
    ensures Contains(a + s, p) <==> Contains(s, p)
  {
    if a == "" {
      assert a + s == s;
    } else {
      assert (a + s)[1..] == a[1..] + s;
      assert !(p <= a + s) by {
        assert (a + s)[0] == a[0] && a[0] in a;
      }
      ContainsSkips(a[1..], s, p);
    }
  }

  /** A pattern is found exactly when it stands somewhere. */
  lemma {:induction false} ContainsIff(s: string, p: string)
    ensures Contains(s, p) <==> exists i :: 0 <= i <= |s| && p <= s[i..]
  {
    if p <= s {
      assert s[0..] == s;
    } else if s != "" {
      ContainsIff(s[1..], p);
      if Contains(s[1..], p) {
        var i :| 0 <= i <= |s| - 1 && p <= s[1..][i..];
        assert s[1..][i..] == s[i + 1..];
      }
      forall i | 0 <= i <= |s| && p <= s[i..]
        ensures Contains(s[1..], p)
      {
        assert i > 0 by {
          assert s[0..] == s;
        }
        assert s[1..][i - 1..] == s[i..];
      }
    }
  }

  /** The white-space characters of Unicode, by code point. */
  lemma OneByteSpaces(a: int)
    requires 0 <= a < 0x80
    ensures IsSpace([a as char]) <==> a in {9, 10, 11, 12, 13, 32}
  {
  }

  lemma TwoByteSpaces(a: int, b: int)
    requires 0xc2 <= a < 0xe0 && 0x80 <= b < 0xc0
    ensures IsSpace([a as char, b as char]) <==> (a - 0xc0) * 0x40 + b - 0x80 in {0x85, 0xa0}
  {
  }

  lemma ThreeByteSpaces(a: int, b: int, c: int)
    requires 0xe0 <= a < 0xf0 && 0x80 <= b < 0xc0 && 0x80 <= c < 0xc0
    ensures var point := (a - 0xe0) * 0x1000 + (b - 0x80) * 0x40 + c - 0x80;
      IsSpace([a as char, b as char, c as char]) <==>
      || 0x2000 <= point <= 0x200a
      || point in {0x1680, 0x2028, 0x2029, 0x202f, 0x205f, 0x3000}
  {
  }
}
