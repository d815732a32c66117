/**
 * The JavaScript string and number primitives the core relies on:
 * `Number.prototype.toString()` on integers, `padStart(2, '0')`, the `%`
 * operator, `toLowerCase`, `trim`, `split` and the `Number(string)`
 * conversion.
 */
module Text {
  import opened Wrappers
  import opened Seqs

  predicate IsDigit(c: char) { '0' <= c <= '9' }

  predicate IsDigits(s: string) { forall i :: 0 <= i < |s| ==> IsDigit(s[i]) }

  function DigitValue(c: char): (d: nat)
    requires IsDigit(c)
    ensures d < 10
  {
    c as int - '0' as int
  }

  function DigitChar(d: nat): (c: char)
    requires d < 10
    ensures IsDigit(c) && DigitValue(c) == d
  {
    ('0' as int + d) as char
  }

  /** The value of a string of decimal digits, most significant first; "" is 0. */
  function DigitsValue(s: string): nat
    requires IsDigits(s)
    decreases |s|
  {
    if s == [] then 0 else 10 * DigitsValue(s[..|s| - 1]) + DigitValue(s[|s| - 1])
  }

  /** Decimal text of a non-negative integer, as `Number.prototype.toString()` gives it. */
  function NatToString(n: nat): (s: string)
    ensures IsDigits(s) && DigitsValue(s) == n
    ensures 1 <= |s|
    ensures s[0] != '0' || n == 0
    ensures n < 10 ==> |s| == 1
    ensures 10 <= n < 100 ==> |s| == 2
    ensures 10 <= n ==> 2 <= |s|
  {
    if n < 10 then [DigitChar(n)]
    else
      var s := NatToString(n / 10) + [DigitChar(n % 10)];
      assert s[..|s| - 1] == NatToString(n / 10);
      s
  }

  /** Decimal text of any integer: a minus sign before the magnitude when negative. */
  function IntToString(i: int): (s: string)
    ensures 0 <= i ==> IsDigits(s) && DigitsValue(s) == i
    ensures i < 0 ==> |s| >= 2 && s[0] == '-' && IsDigits(s[1..]) && DigitsValue(s[1..]) == -i
  {
    if i < 0 then "-" + NatToString(-i) else NatToString(i)
  }

  /** `s.padStart(2, '0')`: zeros on the left up to length 2; longer strings are kept. */
  function PadStart2(s: string): (r: string)
    ensures |s| >= 2 ==> r == s
    ensures |s| < 2 ==> |r| == 2 && r[2 - |s|..] == s && forall i :: 0 <= i < 2 - |s| ==> r[i] == '0'
  {
    if |s| >= 2 then s else if |s| == 1 then "0" + s else "00"
  }

  function Abs(x: int): nat { if x < 0 then -x else x }

  /**
   * JavaScript's `a % b` on integers: the remainder of truncating division,
   * carrying the sign of the dividend (Dafny's own `%` never goes negative).
   */
  function JsRem(a: int, b: int): (r: int)
    requires b != 0
    ensures 0 <= a ==> 0 <= r < Abs(b) && r == a % Abs(b)
    ensures a < 0 ==> -(Abs(b) as int) < r <= 0
  {
    if 0 <= a then a % Abs(b) else -((-a) % Abs(b))
  }

  /** The JavaScript remainder is an odd function of the dividend. */
  lemma JsRemOdd(a: int, b: int)
    requires b != 0
    ensures JsRem(-a, b) == -JsRem(a, b)
  {
  }

  /** Whitespace and line terminators that `String.prototype.trim` removes. */
  predicate IsJsWhitespace(c: char)
  {
    if c <= ' ' then
      c == '\t' || c == '\n' || c == '\U{000B}' || c == '\U{000C}' || c == '\r' || c == ' '
    else if c < '\U{00A0}' then false
    else
      c == '\U{00A0}' || c == '\U{1680}' || ('\U{2000}' <= c <= '\U{200A}')
      || c == '\U{2028}' || c == '\U{2029}' || c == '\U{202F}' || c == '\U{205F}'
      || c == '\U{3000}' || c == '\U{FEFF}'
  }

  predicate AllWhitespace(s: string) { forall i :: 0 <= i < |s| ==> IsJsWhitespace(s[i]) }

  /** `trimStart`: drops the leading whitespace. */
  function TrimStart(s: string): string
  {
    if s != [] && IsJsWhitespace(s[0]) then TrimStart(s[1..]) else s
  }

  /** `trimEnd`: drops the trailing whitespace. */
  function TrimEnd(s: string): string
  {
    if s != [] && IsJsWhitespace(s[|s| - 1]) then TrimEnd(s[..|s| - 1]) else s
  }

  /** `s.trim()`: both ends. */
  function Trim(s: string): string
  {
    TrimEnd(TrimStart(s))
  }

  /** What `TrimStart` leaves is a suffix that starts with a non-blank, and all it drops is blank. */
  lemma {:induction false} TrimStartFacts(s: string)
    ensures var r := TrimStart(s);
            |r| <= |s| && r == s[|s| - |r|..] && AllWhitespace(s[..|s| - |r|])
            && (r != [] ==> !IsJsWhitespace(r[0]))
    decreases |s|
  {
    if s != [] && IsJsWhitespace(s[0]) {
      TrimStartFacts(s[1..]);
      var r := TrimStart(s[1..]);
      assert s[..|s| - |r|] == [s[0]] + s[1..][..|s| - 1 - |r|];
    }
  }

  /** What `TrimEnd` leaves is a prefix that ends with a non-blank, and all it drops is blank. */
  lemma {:induction false} TrimEndFacts(s: string)
    ensures var r := TrimEnd(s);
            |r| <= |s| && r == s[..|r|] && AllWhitespace(s[|r|..])
            && (r != [] ==> !IsJsWhitespace(r[|r| - 1]))
    decreases |s|
  {
    if s != [] && IsJsWhitespace(s[|s| - 1]) {
      TrimEndFacts(s[..|s| - 1]);
      var r := TrimEnd(s[..|s| - 1]);
      assert s[|r|..] == s[..|s| - 1][|r|..] + [s[|s| - 1]];
    }
  }

  /** `trim` keeps the longest infix with neither leading nor trailing whitespace. */
  lemma TrimFacts(s: string)
    ensures var r := Trim(s);
            (exists i :: 0 <= i <= |s| - |r| && r == s[i..i + |r|]
                         && AllWhitespace(s[..i]) && AllWhitespace(s[i + |r|..]))
            && (r != [] ==> !IsJsWhitespace(r[0]) && !IsJsWhitespace(r[|r| - 1]))
  {
    var t := TrimStart(s);
    TrimStartFacts(s);
    TrimEndFacts(t);
    var r := TrimEnd(t);
    var i := |s| - |t|;
    assert s[i..i + |r|] == r;
    assert s[i + |r|..] == t[|r|..];
  }

  /** A digit string has no whitespace at either end, so `trim` leaves it alone. */
  lemma TrimDigits(s: string)
    ensures IsDigits(s) ==> Trim(s) == s
  {
  }

  /** One character of `toLowerCase`, on the ASCII letters. */
  function LowerChar(c: char): (d: char)
    ensures 'A' <= c <= 'Z' ==> 'a' <= d <= 'z' && d as int - c as int == 32
    ensures !('A' <= c <= 'Z') ==> d == c
  {
    if 'A' <= c <= 'Z' then (c as int + 32) as char else c
  }

  /** `s.toLowerCase()` on ASCII letters; every other character is kept. */
  function ToLower(s: string): (r: string)
    ensures |r| == |s|
    ensures forall i :: 0 <= i < |s| ==> r[i] == LowerChar(s[i])
  {
    if s == [] then [] else [LowerChar(s[0])] + ToLower(s[1..])
  }

  /**
   * `s.split(sep)` for a one-character separator: the pieces between
   * separators, at least one, none containing `sep`; joining them with
   * `sep` gives `s` back.
   */
  function Split(s: string, sep: char): (parts: seq<string>)
    ensures 1 <= |parts|
    ensures forall k :: 0 <= k < |parts| ==> sep !in parts[k]
    ensures Join(parts, [sep]) == s
    decreases |s|
  {
    if s == [] then [""]
    else if s[0] == sep then
      var rest := Split(s[1..], sep);
      assert s == [sep] + s[1..];
      [""] + rest
    else
      var rest := Split(s[1..], sep);
      var parts := [[s[0]] + rest[0]] + rest[1..];
      assert parts[1..] == rest[1..];
      assert s == [s[0]] + s[1..];
      parts
  }

  /**
   * `Number(s)` on a string: surrounding whitespace is ignored, a blank
   * string is 0, a run of decimal digits is its value, and anything else is
   * `NaN` (None).
   */
  function NumberOf(s: string): (r: Option<int>)
    ensures r.Some? ==> 0 <= r.value
    ensures IsDigits(s) ==> r == Some(DigitsValue(s))
  {
    TrimDigits(s);
    var t := Trim(s);
    if t == [] then Some(0)
    else if IsDigits(t) then Some(DigitsValue(t))
    else None
  }

  /** A piece with no separator splits to itself. */
  lemma {:induction false} SplitNoSeparator(s: string, sep: char)
    requires sep !in s
    ensures Split(s, sep) == [s]
    decreases |s|
  {
    if s != [] {
      SplitNoSeparator(s[1..], sep);
      assert [s[0]] + s[1..] == s;
    }
  }

  /** Splitting peels off the text before the first separator. */
  lemma {:induction false} SplitAtFirst(a: string, sep: char, rest: string)
    requires sep !in a
    ensures Split(a + [sep] + rest, sep) == [a] + Split(rest, sep)
    decreases |a|
  {
    var s := a + [sep] + rest;
    if a == [] {
      assert s == [sep] + rest;
      assert s[1..] == rest;
    } else {
      assert s[0] == a[0];
      assert s[1..] == a[1..] + [sep] + rest;
      SplitAtFirst(a[1..], sep, rest);
      assert [a[0]] + a[1..] == a;
    }
  }

  /** Two separator-free pieces around one separator split back into those two pieces. */
  lemma {:induction false} SplitPair(a: string, sep: char, b: string)
    requires sep !in a && sep !in b
    ensures Split(a + [sep] + b, sep) == [a, b]
  {
    SplitAtFirst(a, sep, b);
    SplitNoSeparator(b, sep);
  }

  /** A two-digit string is the zero-padded decimal text of its own value. */
  lemma {:induction false} PadStart2OfValue(t: string)
    requires |t| == 2 && IsDigits(t)
    ensures PadStart2(NatToString(DigitsValue(t))) == t
  {
    var d0, d1 := DigitValue(t[0]), DigitValue(t[1]);
    assert t[..1][..0] == [];
    assert DigitsValue(t[..1]) == 10 * DigitsValue(t[..1][..0]) + DigitValue(t[..1][0]) == d0;
    assert t[..|t| - 1] == t[..1];
    assert DigitsValue(t) == 10 * d0 + d1;
    assert DigitChar(d0) == t[0] && DigitChar(d1) == t[1];
    var v := 10 * d0 + d1;
    if d0 == 0 {
      assert NatToString(v) == [DigitChar(d1)];
    } else {
      assert v / 10 == d0 && v % 10 == d1;
      assert NatToString(v) == NatToString(d0) + [DigitChar(d1)];
    }
  }

  /** The zero-padded text of a value below 100 is two digits that read back as that value. */
  lemma {:induction false} PadStart2Digits(n: nat)
    requires n < 100
    ensures |PadStart2(NatToString(n))| == 2
    ensures IsDigits(PadStart2(NatToString(n))) && DigitsValue(PadStart2(NatToString(n))) == n
  {
    var s := NatToString(n);
    if n < 10 {
      var p := PadStart2(s);
      assert p == ['0', s[0]];
      assert p[..1] == ['0'] && p[..1][..0] == [];
    }
  }
}
