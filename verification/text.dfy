/** The few operations on Python `str` values the backend relies on:
    `str.isspace`, `str.strip()`, slicing `s[:n]`, truthiness and `str(int)`.
    A string is a sequence of characters, one `char` per code point. */
module Text {

  /** The characters for which Python's `str.isspace()` holds: those whose
      bidirectional class is WS, B or S, or whose category is Zs. */
  const SpaceChars: set<char> := {
    ' ', '\t', '\n', '\r', 0x0B as char, 0x0C as char,
    0x1C as char, 0x1D as char, 0x1E as char, 0x1F as char,
    0x85 as char, 0xA0 as char, 0x1680 as char,
    0x2000 as char, 0x2001 as char, 0x2002 as char, 0x2003 as char, 0x2004 as char, 0x2005 as char,
    0x2006 as char, 0x2007 as char, 0x2008 as char, 0x2009 as char, 0x200A as char,
    0x2028 as char, 0x2029 as char, 0x202F as char, 0x205F as char, 0x3000 as char
  }

  predicate IsSpace(c: char) {
    c in SpaceChars
  }

  predicate AllSpace(s: string) {
    forall k :: 0 <= k < |s| ==> IsSpace(s[k])
  }

  /** Number of whitespace characters at the front of `s`. */
  function LeadingSpaces(s: string): (n: nat)
    ensures n <= |s|
    ensures AllSpace(s[..n])
    ensures n < |s| ==> !IsSpace(s[n])
  {
    if |s| > 0 && IsSpace(s[0]) then
      var m := LeadingSpaces(s[1..]);
      assert s[1..][..m] == s[1..m + 1];
      1 + m
    else 0
  }

  /** Number of whitespace characters at the back of `s`. */
  function TrailingSpaces(s: string): (n: nat)
    ensures n <= |s|
    ensures AllSpace(s[|s| - n..])
    ensures n < |s| ==> !IsSpace(s[|s| - n - 1])
  {
    if |s| > 0 && IsSpace(s[|s| - 1]) then
      var m := TrailingSpaces(s[..|s| - 1]);
      assert s[..|s| - 1][|s| - 1 - m..] == s[|s| - 1 - m..|s| - 1];
      1 + m
    else 0
  }

  /** Python's `s.strip()`: drops leading and trailing whitespace. */
  function Strip(s: string): (r: string)
    ensures LeadingSpaces(s) + |r| <= |s|
    ensures r == s[LeadingSpaces(s)..LeadingSpaces(s) + |r|]
    ensures AllSpace(s[LeadingSpaces(s) + |r|..])
    ensures r == [] <==> AllSpace(s)
    ensures r != [] ==> !IsSpace(r[0]) && !IsSpace(r[|r| - 1])
  {
    var i := LeadingSpaces(s);
    var t := TrailingSpaces(s[i..]);
    StripBackIsSpace(s, i, t);
    StripEmptyIffAllSpace(s, i, t);
    if i < |s| - t then
      StripEnds(s, i, t);
      var r := s[i..|s| - t];
      assert r[0] == s[i] && r[|r| - 1] == s[|s| - t - 1];
      r
    else
      []
  }

  lemma StripBackIsSpace(s: string, i: nat, t: nat)
    requires i <= |s| && t == TrailingSpaces(s[i..])
    ensures AllSpace(s[|s| - t..])
  {
    assert s[i..][|s[i..]| - t..] == s[|s| - t..];
  }

  lemma StripEmptyIffAllSpace(s: string, i: nat, t: nat)
    requires i == LeadingSpaces(s) && t == TrailingSpaces(s[i..])
    ensures i == |s| - t <==> AllSpace(s)
  {
    if i == |s| - t {
      assert s[i..][|s[i..]| - t..] == s[i..];
      AllSpaceSplit(s, i);
    }
  }

  lemma StripEnds(s: string, i: nat, t: nat)
    requires i <= |s| && t == TrailingSpaces(s[i..])
    requires i < |s| - t
    ensures !IsSpace(s[|s| - t - 1])
  {
    var front := s[i..];
    var k := |front| - t - 1;
    assert !IsSpace(front[k]);
    assert front[k] == s[|s| - t - 1];
  }

  lemma AllSpaceSplit(s: string, i: nat)
    requires i <= |s|
    requires AllSpace(s[..i]) && AllSpace(s[i..])
    ensures AllSpace(s)
  {
    forall k | 0 <= k < |s| ensures IsSpace(s[k]) {
      if k < i {
        assert s[k] == s[..i][k];
      } else {
        assert s[k] == s[i..][k - i];
      }
    }
  }

  /** Stripping is idempotent: a stripped string has nothing left to strip. */
  lemma StripIdempotent(s: string)
    ensures Strip(Strip(s)) == Strip(s)
  {
    var r := Strip(s);
    if r != [] {
      assert LeadingSpaces(r) == 0;
    }
  }

  /** Python's `s[:n]` for `n >= 0`: the first `n` characters, or all of `s`. */
  function Prefix(s: string, n: nat): (r: string)
    ensures |r| == if |s| <= n then |s| else n
    ensures r <= s
  {
    if |s| <= n then s else s[..n]
  }

  /** Python's `text or default` for strings: the empty string is falsy. */
  function OrDefault(text: string, default: string): (r: string)
    ensures text != [] ==> r == text
    ensures text == [] ==> r == default
    ensures |default| > 0 ==> |r| > 0
  {
    if text != [] then text else default
  }

  function DigitChar(d: nat): (c: char)
    requires d < 10
    ensures '0' <= c <= '9'
  {
    "0123456789"[d]
  }

  /** Decimal digits of a natural number, most significant first. */
  function NatToString(n: nat): (s: string)
    ensures |s| > 0
    ensures forall k :: 0 <= k < |s| ==> '0' <= s[k] <= '9'
    ensures n < 10 <==> |s| == 1
  {
    if n < 10 then [DigitChar(n)] else NatToString(n / 10) + [DigitChar(n % 10)]
  }

  /** Python's `str(i)` / `f"{i}"` for an int. */
  function IntToString(i: int): (s: string)
    ensures |s| > 0
    ensures i >= 0 <==> s[0] != '-'
    ensures s[0] == '-' || '0' <= s[0] <= '9'
    ensures forall k :: 1 <= k < |s| ==> '0' <= s[k] <= '9'
  {
    if i < 0 then "-" + NatToString(-i) else NatToString(i)
  }

  /** Reading the decimal digits back gives the number. */
  function DigitsValue(s: string): int
  {
    if s == [] then 0 else 10 * DigitsValue(s[..|s| - 1]) + ((s[|s| - 1] as int) - ('0' as int))
  }

  lemma {:induction false} NatToStringRoundTrip(n: nat)
    ensures DigitsValue(NatToString(n)) == n
  {
    if n >= 10 {
      var s := NatToString(n);
      assert s[..|s| - 1] == NatToString(n / 10);
      NatToStringRoundTrip(n / 10);
    }
  }

  /** `str` on ints is injective, so the rating can be read back from any
      text that begins with it. */
  lemma IntToStringInjective(i: int, j: int)
    requires IntToString(i) == IntToString(j)
    ensures i == j
  {
    if i >= 0 {
      NatToStringRoundTrip(i);
      NatToStringRoundTrip(j);
    } else {
      assert NatToString(-i) == IntToString(i)[1..];
      assert NatToString(-j) == IntToString(j)[1..];
      NatToStringRoundTrip(-i);
      NatToStringRoundTrip(-j);
    }
  }

  /** A number written in front of text that does not start with a digit can
      be read back: the split point and the number are both determined. */
  lemma NumberThenText(i: int, j: int, x: string, y: string)
    requires x != [] && y != []
    requires !('0' <= x[0] <= '9') && !('0' <= y[0] <= '9')
    requires IntToString(i) + x == IntToString(j) + y
    ensures i == j && x == y
  {
    var s, t := IntToString(i), IntToString(j);
    assert s == (s + x)[..|s|] && t == (t + y)[..|t|];
    IntToStringInjective(i, j);
    assert x == (s + x)[|s|..] && y == (t + y)[|t|..];
  }
}
