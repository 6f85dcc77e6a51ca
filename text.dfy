/**
 * String helpers with the meaning the backend's Python gives them:
 * truthiness of an optional string, `str.lower()`, `str.replace('Z', '+00:00')`,
 * and `str(n)` / `int(s)` on the decimal user ids carried inside tokens.
 */
module Text {
  import opened Wrappers

  /** Python truthiness of an optional string: present and not empty. */
  predicate Given(s: Option<string>) {
    s.Some? && s.value != ""
  }

  /** Lower-cases one character (ASCII letters only). */
  function LowerChar(c: char): char {
    if 'A' <= c <= 'Z' then (c as int + 32) as char else c
  }

  /** `s.lower()`, restricted to ASCII letters. */
  function Lower(s: string): (r: string)
    ensures |r| == |s|
    ensures forall i :: 0 <= i < |s| ==> r[i] == LowerChar(s[i])
  {
    if s == [] then [] else [LowerChar(s[0])] + Lower(s[1..])
  }

  /** `v.lower() == 'true'`: how both backends read a boolean query flag. */
  predicate IsTrueFlag(v: string) {
    Lower(v) == "true"
  }

  /** `LowerChar(c)` is a given lower-case letter exactly for that letter and its capital. */
  lemma LowerCharIs(c: char, lower: char)
    requires 'a' <= lower <= 'z'
    ensures LowerChar(c) == lower <==> c == lower || c as int == lower as int - 32
  {
  }

  /** The flag reads as true exactly for the four letters of `true` in any case. */
  lemma TrueFlagSpelling(v: string)
    ensures IsTrueFlag(v) <==>
      |v| == 4 && v[0] in "tT" && v[1] in "rR" && v[2] in "uU" && v[3] in "eE"
  {
    if |v| == 4 {
      var r := Lower(v);
      LowerCharIs(v[0], 't');
      LowerCharIs(v[1], 'r');
      LowerCharIs(v[2], 'u');
      LowerCharIs(v[3], 'e');
      assert r == [r[0], r[1], r[2], r[3]];
    }
  }

  /** `s.replace('Z', '+00:00')`: every `Z` becomes an explicit UTC offset. */
  function ReplaceZ(s: string): (r: string)
    ensures 'Z' !in r
    ensures 'Z' !in s ==> r == s
    ensures |r| == |s| + 5 * multiset(s)['Z']
  {
    if s == [] then []
    else
      assert s == [s[0]] + s[1..];
      (if s[0] == 'Z' then "+00:00" else [s[0]]) + ReplaceZ(s[1..])
  }

  /** A lone `Z` becomes the offset `+00:00`. */
  lemma ReplaceZOfZ()
    ensures ReplaceZ("Z") == "+00:00"
  {
    assert "Z"[1..] == [];
  }

  /** The replacement of a text that starts with `c`. */
  lemma ReplaceZCons(c: char, s: string)
    ensures ReplaceZ([c] + s) == (if c == 'Z' then "+00:00" else [c]) + ReplaceZ(s)
  {
    assert ([c] + s)[0] == c;
    assert ([c] + s)[1..] == s;
  }

  /**
   * The replacement works piece by piece: replacing in a concatenation is
   * concatenating the replacements. With `ReplaceZOfZ` and the identity on
   * text without `Z`, this fixes every character of the result.
   */
  lemma {:induction false} ReplaceZAppend(a: string, b: string)
    ensures ReplaceZ(a + b) == ReplaceZ(a) + ReplaceZ(b)
  {
    if a == [] {
      assert a + b == b;
    } else {
      var c := a[0];
      var rest := a[1..];
      var head: string := if c == 'Z' then "+00:00" else [c];
      assert ReplaceZ(a + b) == head + ReplaceZ(rest + b) by {
        assert a + b == [c] + (rest + b);
        ReplaceZCons(c, rest + b);
      }
      assert ReplaceZ(a) == head + ReplaceZ(rest) by {
        assert a == [c] + rest;
        ReplaceZCons(c, rest);
      }
      ReplaceZAppend(rest, b);
      ConcatAssociative(head, ReplaceZ(rest), ReplaceZ(b));
    }
  }

  /** Concatenation of texts is associative. */
  lemma ConcatAssociative(x: string, y: string, z: string)
    ensures x + (y + z) == (x + y) + z
  {
  }

  /** The character of a decimal digit. */
  function DigitChar(d: int): char
    requires 0 <= d < 10
  {
    ('0' as int + d) as char
  }

  /** True for the ASCII digits `0`..`9`. */
  predicate IsDigit(c: char) {
    '0' <= c <= '9'
  }

  /** `str(n)` for a non-negative integer: its decimal digits, without leading zeros. */
  function NatToString(n: nat): (s: string)
    ensures |s| >= 1
    ensures forall i :: 0 <= i < |s| ==> IsDigit(s[i])
    ensures |s| > 1 ==> s[0] != '0'
  {
    if n < 10 then [DigitChar(n)] else NatToString(n / 10) + [DigitChar(n % 10)]
  }

  /** The value of a non-empty string of decimal digits. */
  function DigitsValue(s: string): nat
    requires forall i :: 0 <= i < |s| ==> IsDigit(s[i])
  {
    if s == [] then 0
    else
      assert IsDigit(s[|s| - 1]);
      DigitsValue(s[..|s| - 1]) * 10 + (s[|s| - 1] as int - '0' as int)
  }

  /** `int(s)` on a token identity: defined exactly for non-empty digit strings. */
  function ParseNat(s: string): (r: Option<nat>)
    ensures r.Some? <==> s != [] && forall i :: 0 <= i < |s| ==> IsDigit(s[i])
  {
    if s != [] && forall i :: 0 <= i < |s| ==> IsDigit(s[i]) then Some(DigitsValue(s)) else None
  }

  /** `int(str(n)) == n`: an identity written by `str` reads back as the same number. */
  lemma {:induction false} ParseNatToString(n: nat)
    ensures ParseNat(NatToString(n)) == Some(n)
  {
    var s := NatToString(n);
    if n < 10 {
      assert DigitsValue(s) == DigitsValue(s[..0]) * 10 + n;
    } else {
      var prefix := NatToString(n / 10);
      ParseNatToString(n / 10);
      assert s[..|s| - 1] == prefix;
      assert DigitsValue(s) == DigitsValue(prefix) * 10 + n % 10;
    }
  }

  /** Different numbers have different decimal strings. */
  lemma NatToStringInjective(m: nat, n: nat)
    requires NatToString(m) == NatToString(n)
    ensures m == n
  {
    ParseNatToString(m);
    ParseNatToString(n);
  }

  /** `str(i)` on an integer: a minus sign before the digits of a negative number. */
  function IntToString(i: int): (s: string)
    ensures |s| >= 1
    ensures i >= 0 ==> s == NatToString(i)
    ensures i < 0 ==> s == "-" + NatToString(-i)
  {
    if i < 0 then "-" + NatToString(-i) else NatToString(i)
  }

  /** `int(s)` on a token identity: optionally signed, non-empty digit strings. */
  function ParseInt(s: string): (r: Option<int>)
    ensures s != [] && s[0] != '-' ==> (r.Some? <==> ParseNat(s).Some?)
    ensures s != [] && s[0] == '-' ==> (r.Some? <==> ParseNat(s[1..]).Some?)
    ensures r.Some? && s != [] && s[0] == '-' ==> r.value <= 0
    ensures s == [] ==> r.None?
  {
    if s != [] && s[0] == '-' then
      match ParseNat(s[1..])
      case Some(n) => Some(-(n as int))
      case None => None
    else
      match ParseNat(s)
      case Some(n) => Some(n as int)
      case None => None
  }

  /** `int(str(i)) == i`: an identity written by `str` reads back as the same number. */
  lemma ParseIntToString(i: int)
    ensures ParseInt(IntToString(i)) == Some(i)
  {
    if i < 0 {
      var n: nat := -i;
      assert IntToString(i)[1..] == NatToString(n);
      ParseNatToString(n);
    } else {
      assert IsDigit(NatToString(i)[0]);
      ParseNatToString(i);
    }
  }
}
