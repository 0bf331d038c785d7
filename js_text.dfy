/** The JavaScript string built-ins whose exact behaviour decides what the quiz
    engine does with typed input: `String.prototype.trim` (user names),
    `parseInt` without a radix (quiz numbers) and the first UTF-16 code unit of
    `String.prototype.toUpperCase` (answer letters), as ECMAScript defines them. */
module JsText {

  import opened Wrappers

  /** The WhiteSpace and LineTerminator code points of ECMAScript, which both
      `trim` and `parseInt` skip. */
  predicate IsWhitespace(c: char) {
    var n := c as int;
    n == 0x09 || n == 0x0A || n == 0x0B || n == 0x0C || n == 0x0D || n == 0x20
    || n == 0xA0 || n == 0x1680 || (0x2000 <= n <= 0x200A) || n == 0x2028
    || n == 0x2029 || n == 0x202F || n == 0x205F || n == 0x3000 || n == 0xFEFF
  }

  predicate AllWhitespace(s: string) {
    forall k :: 0 <= k < |s| ==> IsWhitespace(s[k])
  }

  /** `s` with its leading white space removed. */
  function TrimStart(s: string): (r: string)
    ensures |r| <= |s| && r == s[|s| - |r|..]
    ensures r == [] || !IsWhitespace(r[0])
    ensures AllWhitespace(s[..|s| - |r|])
  {
    if s != [] && IsWhitespace(s[0]) then
      var r := TrimStart(s[1..]);
      DropOneBlank(s, r);
      r
    else s
  }

  /** What trimming the rest of `s` removed, together with the blank `s[0]`,
      is what trimming `s` removes. */
  lemma DropOneBlank(s: string, r: string)
    requires s != [] && IsWhitespace(s[0])
    requires |r| <= |s| - 1 && r == s[1..][|s| - 1 - |r|..]
    requires AllWhitespace(s[1..][..|s| - 1 - |r|])
    ensures r == s[|s| - |r|..]
    ensures AllWhitespace(s[..|s| - |r|])
  {
    assert s[1..][|s| - 1 - |r|..] == s[|s| - |r|..];
    forall k | 0 <= k < |s| - |r|
      ensures IsWhitespace(s[k])
    {
      if k > 0 {
        assert s[k] == s[1..][..|s| - 1 - |r|][k - 1];
      }
    }
  }

  /** `s` with its trailing white space removed. */
  function TrimEnd(s: string): (r: string)
    ensures |r| <= |s| && r == s[..|r|]
    ensures r == [] || !IsWhitespace(r[|r| - 1])
    ensures AllWhitespace(s[|r|..])
  {
    if s != [] && IsWhitespace(s[|s| - 1]) then
      var r := TrimEnd(s[..|s| - 1]);
      assert s[|r|..] == s[..|s| - 1][|r|..] + [s[|s| - 1]];
      r
    else s
  }

  /** `String.prototype.trim`: a blank string trims to the empty string, and a
      non-blank one to the slice between its first and last non-blank characters. */
  function Trim(s: string): (r: string)
    ensures |r| <= |s|
    ensures r == [] <==> AllWhitespace(s)
    ensures r != [] ==> !IsWhitespace(r[0]) && !IsWhitespace(r[|r| - 1])
  {
    TrimOfBlank(s);
    TrimEnd(TrimStart(s))
  }

  lemma {:induction false} TrimOfBlank(s: string)
    ensures TrimEnd(TrimStart(s)) == [] <==> AllWhitespace(s)
  {
    var t := TrimStart(s);
    var r := TrimEnd(t);
    assert s == s[..|s| - |t|] + t;
    if r == [] {
      assert t[|r|..] == t;
      assert s[..|s| - |t|] == s;
    }
  }

  /** Trimming removes exactly the white space around the text: whatever blank
      padding surrounds a text with non-blank ends, trimming gives back the text. */
  lemma {:induction false} TrimRemovesPadding(front: string, text: string, back: string)
    requires AllWhitespace(front) && AllWhitespace(back)
    requires text != [] && !IsWhitespace(text[0]) && !IsWhitespace(text[|text| - 1])
    ensures Trim(front + text + back) == text
  {
    TrimStartOfPadded(front, text + back);
    assert front + text + back == front + (text + back);
    TrimEndOfPadded(text, back);
  }

  lemma {:induction false} TrimStartOfPadded(front: string, rest: string)
    requires AllWhitespace(front)
    requires rest != [] && !IsWhitespace(rest[0])
    ensures TrimStart(front + rest) == rest
  {
    if front != [] {
      assert (front + rest)[1..] == front[1..] + rest;
      TrimStartOfPadded(front[1..], rest);
    }
  }

  lemma {:induction false} TrimEndOfPadded(text: string, back: string)
    requires AllWhitespace(back)
    requires text != [] && !IsWhitespace(text[|text| - 1])
    ensures TrimEnd(text + back) == text
  {
    if back != [] {
      assert (text + back)[..|text + back| - 1] == text + back[..|back| - 1];
      TrimEndOfPadded(text, back[..|back| - 1]);
    }
  }

  /** Trimming a trimmed name changes nothing. */
  lemma {:induction false} TrimIdempotent(s: string)
    ensures Trim(Trim(s)) == Trim(s)
  {
    var t := Trim(s);
    if t != [] {
      assert TrimStart(t) == t;
      assert TrimEnd(t) == t;
    }
  }

  // ---------------------------------------------------------------- parseInt

  /** The value of `c` as a digit in base 36 (`0`-`9`, then `a`/`A` = 10 ...). */
  function DigitValue(c: char): nat {
    if '0' <= c <= '9' then c as nat - '0' as nat
    else if 'a' <= c <= 'z' then c as nat - 'a' as nat + 10
    else if 'A' <= c <= 'Z' then c as nat - 'A' as nat + 10
    else 36
  }

  predicate IsDigitOf(c: char, radix: nat) {
    DigitValue(c) < radix
  }

  /** The longest prefix of `s` made of digits of `radix`. */
  function DigitPrefix(s: string, radix: nat): (r: string)
    ensures |r| <= |s| && r == s[..|r|]
    ensures forall k :: 0 <= k < |r| ==> IsDigitOf(r[k], radix)
    ensures |r| == |s| || !IsDigitOf(s[|r|], radix)
  {
    if s != [] && IsDigitOf(s[0], radix) then [s[0]] + DigitPrefix(s[1..], radix) else []
  }

  /** The number a string of digits denotes in `radix`, most significant first. */
  function DigitsValue(d: string, radix: nat): nat {
    if d == [] then 0 else DigitsValue(d[..|d| - 1], radix) * radix + DigitValue(d[|d| - 1])
  }

  /** `parseInt(s)` with no radix: skip leading white space, take an optional
      sign, read hexadecimal after `0x`/`0X` and decimal otherwise, and stop at
      the first character that is not a digit; `None` stands for `NaN` (no digit
      at all). `-0` comes out as 0, which no caller here tells apart from `-0`. */
  function ParseInt(s: string): Option<int> {
    ParseTrimmed(TrimStart(s))
  }

  function ParseTrimmed(t: string): Option<int> {
    var negative := t != [] && t[0] == '-';
    var unsigned := if t != [] && (t[0] == '-' || t[0] == '+') then t[1..] else t;
    var hex := |unsigned| >= 2 && unsigned[0] == '0' && (unsigned[1] == 'x' || unsigned[1] == 'X');
    var radix := if hex then 16 else 10;
    var digits := DigitPrefix(if hex then unsigned[2..] else unsigned, radix);
    if digits == [] then None
    else if negative then Some(-(DigitsValue(digits, radix) as int))
    else Some(DigitsValue(digits, radix))
  }

  /** The decimal numeral of `n`, as `Number.prototype.toString` writes it. */
  function Decimal(n: nat): (s: string)
    ensures s != []
    ensures forall k :: 0 <= k < |s| ==> '0' <= s[k] <= '9'
    ensures n >= 10 ==> s[0] != '0'
  {
    if n < 10 then ['0' + n as char]
    else Decimal(n / 10) + ['0' + (n % 10) as char]
  }

  /** Reading back the numeral of `n` gives `n`, after any leading white space. */
  lemma {:induction false} ParseDecimal(pad: string, n: nat)
    requires AllWhitespace(pad)
    ensures ParseInt(pad + Decimal(n)) == Some(n)
  {
    var d := Decimal(n);
    ParseSkipsPadding(pad, d);
    ParsePlainDecimal(d);
    DecimalDigits(n);
  }

  /** Leading white space does not change what `parseInt` reads. */
  lemma {:induction false} ParseSkipsPadding(pad: string, s: string)
    requires AllWhitespace(pad)
    requires s != [] && !IsWhitespace(s[0])
    ensures ParseInt(pad + s) == ParseInt(s)
  {
    TrimStartOfPadded(pad, s);
    var none: string := [];
    TrimStartOfPadded(none, s);
    assert none + s == s;
  }

  /** A string of decimal digits, leading zeros included, is read whole as a
      decimal numeral. */
  lemma {:induction false} ParsePlainDecimal(d: string)
    requires d != [] && forall k :: 0 <= k < |d| ==> '0' <= d[k] <= '9'
    ensures ParseInt(d) == Some(DigitsValue(d, 10))
  {
    assert !IsWhitespace(d[0]);
    var none: string := [];
    TrimStartOfPadded(none, d);
    assert none + d == d;
    ParseDigits(d);
  }

  /** With no white space left, a string of decimal digits has no sign and no
      hexadecimal prefix, so all of it is read in base 10. */
  lemma ParseDigits(t: string)
    requires t != [] && forall k :: 0 <= k < |t| ==> '0' <= t[k] <= '9'
    ensures ParseTrimmed(t) == Some(DigitsValue(t, 10))
  {
    assert t[0] != '-' && t[0] != '+';
    assert !(|t| >= 2 && t[0] == '0' && (t[1] == 'x' || t[1] == 'X')) by {
      if |t| >= 2 {
        assert '0' <= t[1] <= '9';
      }
    }
    assert forall k :: 0 <= k < |t| ==> IsDigitOf(t[k], 10);
    AllDigitsPrefix(t, 10);
  }

  lemma {:induction false} AllDigitsPrefix(s: string, radix: nat)
    requires forall k :: 0 <= k < |s| ==> IsDigitOf(s[k], radix)
    ensures DigitPrefix(s, radix) == s
  {
    var r := DigitPrefix(s, radix);
    if |r| < |s| {
      assert false;
    }
  }

  lemma {:induction false} DecimalDigits(n: nat)
    ensures DigitsValue(Decimal(n), 10) == n
  {
    if n >= 10 {
      var d := Decimal(n);
      assert d[..|d| - 1] == Decimal(n / 10);
      DecimalDigits(n / 10);
    }
  }

  // ------------------------------------------------------------- toUpperCase

  /** The first UTF-16 code unit of `[c].toUpperCase()`. ASCII letters map as
      usual; the characters whose full upper-case mapping begins with an ASCII
      letter (sharp s, dotless i, long s, the Latin ligatures, and the letters
      that upper-case to a letter plus a combining mark) map to that letter;
      characters outside the Basic Multilingual Plane give their high surrogate.
      Every other character keeps its own code, which differs from JavaScript
      only for letters whose upper case is another non-ASCII letter: both codes
      are then at least 128. */
  function FirstUpperUnit(c: char): (u: int)
    ensures 'a' <= c <= 'z' ==> u == c as int - 32
    ensures 'A' <= c <= 'Z' ==> u == c as int
    ensures u >= 65 && u < 65 + 26 ==> ('a' <= c <= 'z' || 'A' <= c <= 'Z' || c as int >= 128)
  {
    var n := c as int;
    if 'a' <= c <= 'z' then n - 32
    else if n == 0xDF || n == 0x17F || n == 0xFB05 || n == 0xFB06 then 'S' as int
    else if n == 0x131 then 'I' as int
    else if n == 0x1F0 then 'J' as int
    else if n == 0x1E96 then 'H' as int
    else if n == 0x1E97 then 'T' as int
    else if n == 0x1E98 then 'W' as int
    else if n == 0x1E99 then 'Y' as int
    else if n == 0x1E9A then 'A' as int
    else if 0xFB00 <= n <= 0xFB04 then 'F' as int
    else if n >= 0x10000 then 0xD800 + (n - 0x10000) / 0x400
    else n
  }

  /** `toLowerCase` on ASCII letters; every other character is kept. */
  function LowerChar(c: char): char {
    if 'A' <= c <= 'Z' then (c as int + 32) as char else c
  }

  /** `s.toLowerCase()`, exact for ASCII text. */
  function ToLower(s: string): (r: string)
    ensures |r| == |s|
  {
    seq(|s|, k requires 0 <= k < |s| => LowerChar(s[k]))
  }
}
