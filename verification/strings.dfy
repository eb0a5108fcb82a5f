/**
  The handful of Python `str` operations the polling script relies on:
  `startswith`, the `in` substring test, `strip`, `str(int)`, the `>` width
  alignment of format specs, and UTF-8 `encode`.
*/
module PyStr {
  import opened Wrappers

  /** `s.startswith(p)` */
  predicate StartsWith(s: string, p: string) {
    |p| <= |s| && s[..|p|] == p
  }

  /** `sub` occurs in `s` starting at index `i`. */
  ghost predicate OccursAt(s: string, sub: string, i: int) {
    0 <= i && i + |sub| <= |s| && s[i..i + |sub|] == sub
  }

  /** `sub in s`: a left-to-right scan testing every start position. */
  function Contains(s: string, sub: string): (b: bool)
    ensures b <==> exists i :: OccursAt(s, sub, i)
  {
    if StartsWith(s, sub) then
      assert OccursAt(s, sub, 0);
      true
    else if |s| == 0 then
      assert forall i :: !OccursAt(s, sub, i);
      false
    else
      var b := Contains(s[1..], sub);
      assert forall i :: OccursAt(s[1..], sub, i) <==> OccursAt(s, sub, i + 1);
      assert forall i :: OccursAt(s, sub, i) && i != 0 ==> OccursAt(s[1..], sub, i - 1);
      b
  }

  /** A prefix is in particular an occurrence. */
  lemma StartsWithContains(s: string, p: string)
    requires StartsWith(s, p)
    ensures Contains(s, p)
  {
    assert OccursAt(s, p, 0);
  }

  /** A pattern holding a character that `s` lacks does not occur in `s`. */
  lemma MissingCharNotContained(s: string, sub: string, j: nat)
    requires j < |sub| && forall k :: 0 <= k < |s| ==> s[k] != sub[j]
    ensures !Contains(s, sub)
  {
    forall i
      ensures !OccursAt(s, sub, i)
    {
      if 0 <= i && i + |sub| <= |s| {
        assert s[i..i + |sub|][j] == s[i + j];
      }
    }
  }

  /**
    `c.isspace()`: the characters Python classifies as whitespace
    (Unicode bidirectional class WS, B or S, or general category Zs).
  */
  predicate IsSpace(c: char) {
    var n := c as int;
    || n == 0x20 || (0x09 <= n <= 0x0D) || (0x1C <= n <= 0x1F)
    || n == 0x85 || n == 0xA0 || n == 0x1680 || (0x2000 <= n <= 0x200A)
    || n == 0x2028 || n == 0x2029 || n == 0x202F || n == 0x205F || n == 0x3000
  }

  predicate AllSpace(s: string) {
    forall k :: 0 <= k < |s| ==> IsSpace(s[k])
  }

  /** `s.lstrip()`: the suffix left after removing every leading whitespace character. */
  function TrimLeft(s: string): (r: string)
    ensures |r| <= |s| && r == s[|s| - |r|..]
    ensures AllSpace(s[..|s| - |r|])
    ensures r == [] || !IsSpace(r[0])
  {
    if |s| > 0 && IsSpace(s[0]) then
      var rest := s[1..];
      var r := TrimLeft(rest);
      assert r == s[|s| - |r|..] by { assert rest[|rest| - |r|..] == s[|s| - |r|..]; }
      assert s[..|s| - |r|] == [s[0]] + rest[..|rest| - |r|];
      r
    else
      s
  }

  /** `s.rstrip()`: the prefix left after removing every trailing whitespace character. */
  function TrimRight(s: string): (r: string)
    ensures |r| <= |s| && r == s[..|r|]
    ensures AllSpace(s[|r|..])
    ensures r == [] || !IsSpace(r[|r| - 1])
  {
    if |s| > 0 && IsSpace(s[|s| - 1]) then
      var init := s[..|s| - 1];
      var r := TrimRight(init);
      assert r == s[..|r|] by { assert init[..|r|] == s[..|r|]; }
      assert s[|r|..] == init[|r|..] + [s[|s| - 1]];
      r
    else
      s
  }

  /** `s.strip()` */
  function Strip(s: string): string {
    TrimRight(TrimLeft(s))
  }

  /** `r` is `s[i..i + |r|]`, surrounded only by whitespace, and neither starts nor ends with whitespace. */
  ghost predicate StrippedAt(s: string, r: string, i: int) {
    && 0 <= i <= |s| - |r| && r == s[i..i + |r|]
    && AllSpace(s[..i]) && AllSpace(s[i + |r|..])
    && (r == [] || (!IsSpace(r[0]) && !IsSpace(r[|r| - 1])))
  }

  /**
    `Strip` keeps exactly the stretch between the first and the last
    non-whitespace character: what it drops is whitespace, and what it keeps
    neither starts nor ends with whitespace.
  */
  lemma StripSpec(s: string)
    ensures exists i :: StrippedAt(s, Strip(s), i)
  {
    var l := TrimLeft(s);
    var r := TrimRight(l);
    TrimBoth(s, l, r);
    assert Strip(s) == r;
  }

  /** Trimming the left end and then the right end leaves a stretch surrounded by whitespace. */
  lemma TrimBoth(s: string, l: string, r: string)
    requires |l| <= |s| && l == s[|s| - |l|..] && AllSpace(s[..|s| - |l|]) && (l == [] || !IsSpace(l[0]))
    requires |r| <= |l| && r == l[..|r|] && AllSpace(l[|r|..]) && (r == [] || !IsSpace(r[|r| - 1]))
    ensures StrippedAt(s, r, |s| - |l|)
  {
    var i := |s| - |l|;
    assert r == s[i..i + |r|];
    assert s[i + |r|..] == l[|r|..];
    assert r != [] ==> r[0] == l[0];
  }

  /** The stripped text is empty exactly when the input is all whitespace. */
  lemma StripEmptyIff(s: string)
    ensures Strip(s) == [] <==> AllSpace(s)
  {
    var l := TrimLeft(s);
    if Strip(s) == [] {
      assert AllSpace(l[0..]);
      assert s == s[..|s| - |l|] + l;
    }
  }

  predicate IsDigit(c: char) {
    '0' <= c <= '9'
  }

  function DigitChar(d: nat): (c: char)
    requires d < 10
    ensures IsDigit(c)
  {
    ('0' as int + d) as char
  }

  function DigitValue(c: char): (d: nat)
    requires IsDigit(c)
    ensures d < 10 && DigitChar(d) == c
  {
    c as int - '0' as int
  }

  predicate AllDigits(s: string) {
    forall k :: 0 <= k < |s| ==> IsDigit(s[k])
  }

  /** The value of a string of decimal digits read most significant first. */
  function DigitsValue(s: string): nat
    requires AllDigits(s)
  {
    if |s| == 0 then 0 else DigitsValue(s[..|s| - 1]) * 10 + DigitValue(s[|s| - 1])
  }

  /** `str(n)` for a non-negative integer: its decimal digits, without leading zeros. */
  function NatStr(n: nat): (r: string)
    ensures |r| >= 1 && AllDigits(r)
    ensures r[0] == '0' ==> r == "0"
    ensures r == "0" <==> n == 0
    ensures DigitsValue(r) == n
  {
    if n < 10 then
      [DigitChar(n)]
    else
      var r := NatStr(n / 10) + [DigitChar(n % 10)];
      assert r[..|r| - 1] == NatStr(n / 10);
      r
  }

  /** `str(n)` for any integer: a minus sign precedes the digits of a negative number. */
  function IntStr(n: int): (r: string)
    ensures |r| >= 1 && (IsDigit(r[0]) || r[0] == '-')
    ensures forall k :: 0 <= k < |r| ==> IsDigit(r[k]) || r[k] == '-'
  {
    if n < 0 then "-" + NatStr(-n) else NatStr(n)
  }

  /** Length of the longest all-digit prefix of `s`. */
  function DigitRun(s: string): (k: nat)
    ensures k <= |s| && AllDigits(s[..k])
    ensures k < |s| ==> !IsDigit(s[k])
  {
    if |s| > 0 && IsDigit(s[0]) then
      var k := 1 + DigitRun(s[1..]);
      assert s[..k] == [s[0]] + s[1..][..k - 1];
      k
    else
      0
  }

  /**
    Reads an optionally negative decimal integer from the front of `s`,
    taking every digit available, and returns it with the rest of `s`.
  */
  function ReadInt(s: string): Option<(int, string)> {
    if |s| > 0 && s[0] == '-' then
      var t := s[1..];
      var k := DigitRun(t);
      if k == 0 then None else Some((0 - DigitsValue(t[..k]), t[k..]))
    else
      var k := DigitRun(s);
      if k == 0 then None else Some((DigitsValue(s[..k]), s[k..]))
  }

  /** The digit run ends exactly at the first non-digit. */
  lemma DigitRunExact(s: string, j: nat)
    requires j <= |s| && AllDigits(s[..j]) && (j == |s| || !IsDigit(s[j]))
    ensures DigitRun(s) == j
  {
    var k := DigitRun(s);
    assert forall i :: 0 <= i < j ==> IsDigit(s[i]) by {
      assert forall i :: 0 <= i < j ==> s[..j][i] == s[i];
    }
    assert forall i :: 0 <= i < k ==> IsDigit(s[i]) by {
      assert forall i :: 0 <= i < k ==> s[..k][i] == s[i];
    }
  }

  lemma DigitRunOfNatStr(n: nat, rest: string)
    requires rest == [] || !IsDigit(rest[0])
    ensures DigitRun(NatStr(n) + rest) == |NatStr(n)|
  {
    var d := NatStr(n);
    var s := d + rest;
    assert s[..|d|] == d;
    assert |d| < |s| ==> s[|d|] == rest[0];
    DigitRunExact(s, |d|);
  }

  /** The digits of `n` followed by non-digit text split back into those digits and that text. */
  lemma SplitNatStr(n: nat, rest: string)
    requires rest == [] || !IsDigit(rest[0])
    ensures var t := NatStr(n) + rest;
      DigitRun(t) == |NatStr(n)| && t[..|NatStr(n)|] == NatStr(n) && t[|NatStr(n)|..] == rest
  {
    DigitRunOfNatStr(n, rest);
    var t := NatStr(n) + rest;
    assert t[..|NatStr(n)|] == NatStr(n);
    assert t[|NatStr(n)|..] == rest;
  }

  lemma ReadNatStr(n: nat, rest: string)
    requires rest == [] || !IsDigit(rest[0])
    ensures ReadInt(NatStr(n) + rest) == Some((n, rest))
  {
    SplitNatStr(n, rest);
  }

  lemma ReadNegStr(n: nat, rest: string)
    requires n > 0 && (rest == [] || !IsDigit(rest[0]))
    ensures ReadInt("-" + (NatStr(n) + rest)) == Some((0 - n, rest))
  {
    var d := NatStr(n);
    var t := d + rest;
    var s := "-" + t;
    assert s[0] == '-' && s[1..] == t;
    SplitNatStr(n, rest);
    assert DigitsValue(t[..DigitRun(t)]) == n;
  }

  /** `ReadInt` undoes `IntStr`, leaving any following non-digit text untouched. */
  lemma ReadIntStr(n: int, rest: string)
    requires rest == [] || !IsDigit(rest[0])
    ensures ReadInt(IntStr(n) + rest) == Some((n, rest))
  {
    if n < 0 {
      ReadNegStr(-n, rest);
      assert IntStr(n) + rest == "-" + (NatStr(-n) + rest);
    } else {
      ReadNatStr(n, rest);
    }
  }

  function Spaces(n: nat): (r: string)
    ensures |r| == n && AllSpace(r) && forall k :: 0 <= k < n ==> r[k] == ' '
  {
    if n == 0 then [] else [' '] + Spaces(n - 1)
  }

  /** `format(s, ">w")`: right-aligns `s` in a field of `w` characters, never cutting it. */
  function PadLeft(s: string, w: nat): (r: string)
    ensures |r| == if |s| >= w then |s| else w
    ensures r == Spaces(|r| - |s|) + s
  {
    if |s| >= w then
      assert Spaces(0) == [];
      s
    else
      Spaces(w - |s|) + s
  }

  /** `s.lstrip(" ")`: drops leading space characters. */
  function SkipBlanks(s: string): (r: string)
    ensures |r| <= |s| && r == s[|s| - |r|..]
  {
    if |s| > 0 && s[0] == ' ' then SkipBlanks(s[1..]) else s
  }

  lemma SkipBlanksPadded(s: string, w: nat, rest: string)
    requires s != [] && s[0] != ' '
    ensures SkipBlanks(PadLeft(s, w) + rest) == s + rest
  {
    var p := PadLeft(s, w);
    var n := |p| - |s|;
    assert p == Spaces(n) + s;
    assert p + rest == Spaces(n) + (s + rest);
    SkipBlanksSpaces(n, s + rest);
  }

  lemma {:induction false} SkipBlanksSpaces(n: nat, t: string)
    requires t == [] || t[0] != ' '
    ensures SkipBlanks(Spaces(n) + t) == t
  {
    if n == 0 {
      assert Spaces(n) + t == t;
    } else {
      var u := Spaces(n) + t;
      assert Spaces(n) == [' '] + Spaces(n - 1);
      assert u == [' '] + (Spaces(n - 1) + t);
      assert u[1..] == Spaces(n - 1) + t;
      SkipBlanksSpaces(n - 1, t);
      assert SkipBlanks(u) == SkipBlanks(u[1..]);
    }
  }

  type byte = x: int | 0 <= x < 256

  /** UTF-8 encoding of one Unicode scalar value, as `str.encode()` produces it. */
  function EncodeChar(c: char): (r: seq<byte>)
    ensures 1 <= |r| <= 4
    ensures (c as int < 0x80) <==> |r| == 1
  {
    var n := c as int;
    if n < 0x80 then [n]
    else if n < 0x800 then [0xC0 + n / 0x40, 0x80 + n % 0x40]
    else if n < 0x1_0000 then [0xE0 + n / 0x1000, 0x80 + (n / 0x40) % 0x40, 0x80 + n % 0x40]
    else [0xF0 + n / 0x4_0000, 0x80 + (n / 0x1000) % 0x40, 0x80 + (n / 0x40) % 0x40, 0x80 + n % 0x40]
  }

  /** `s.encode()` (UTF-8). */
  function Encode(s: string): (r: seq<byte>)
    ensures |r| >= |s|
  {
    if s == [] then [] else EncodeChar(s[0]) + Encode(s[1..])
  }

  predicate IsAscii(s: string) {
    forall k :: 0 <= k < |s| ==> s[k] as int < 0x80
  }

  /** Reads bytes below 0x80 back as characters. */
  function DecodeAscii(b: seq<byte>): (s: string)
    requires forall k :: 0 <= k < |b| ==> b[k] < 0x80
    ensures |s| == |b|
  {
    if b == [] then [] else [b[0] as char] + DecodeAscii(b[1..])
  }

  /** The bytes of ASCII text, one per character. */
  function AsciiBytes(s: string): (b: seq<byte>)
    requires IsAscii(s)
    ensures |b| == |s|
  {
    seq(|s|, k requires 0 <= k < |s| => s[k] as int)
  }

  lemma EncodeCharAscii(c: char)
    requires c as int < 0x80
    ensures EncodeChar(c) == [c as int]
  {
  }

  lemma AsciiTail(s: string)
    requires s != [] && IsAscii(s)
    ensures IsAscii(s[1..])
    ensures AsciiBytes(s) == [s[0] as int] + AsciiBytes(s[1..])
  {
    var tail := s[1..];
    forall k | 0 <= k < |tail| ensures tail[k] as int < 0x80 {
      assert tail[k] == s[k + 1];
    }
  }

  lemma {:induction false} EncodeIsAsciiBytes(s: string)
    requires IsAscii(s)
    ensures Encode(s) == AsciiBytes(s)
  {
    if s != [] {
      AsciiTail(s);
      EncodeIsAsciiBytes(s[1..]);
      EncodeCharAscii(s[0]);
    }
  }

  lemma {:induction false} DecodeAsciiBytes(s: string)
    requires IsAscii(s)
    ensures DecodeAscii(AsciiBytes(s)) == s
  {
    if s != [] {
      AsciiTail(s);
      DecodeAsciiBytes(s[1..]);
      var b := AsciiBytes(s);
      assert b[1..] == AsciiBytes(s[1..]);
      assert s == [s[0]] + s[1..];
    }
  }

  /** On ASCII text the encoding is one byte per character, and reading those bytes back gives the text. */
  lemma EncodeAscii(s: string)
    requires IsAscii(s)
    ensures |Encode(s)| == |s|
    ensures forall k :: 0 <= k < |s| ==> Encode(s)[k] == s[k] as int
    ensures DecodeAscii(Encode(s)) == s
  {
    EncodeIsAsciiBytes(s);
    DecodeAsciiBytes(s);
  }
}
