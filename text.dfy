/** The string operations the source uses: `String(n)` of an integer,
    `padStart`, `split` on one character and `trim`, with the parsing back
    of decimal digits needed to state round trips. */
module Text {

  predicate IsDigit(c: char) {
    '0' <= c <= '9'
  }

  predicate AllDigits(s: string) {
    forall i :: 0 <= i < |s| ==> IsDigit(s[i])
  }

  function DigitChar(d: nat): (c: char)
    requires d < 10
    ensures IsDigit(c) && c as int - '0' as int == d
  {
    (('0' as int) + d) as char
  }

  function DigitValue(c: char): nat
    requires IsDigit(c)
  {
    c as int - '0' as int
  }

  /** `String(n)` for a non-negative integer: its decimal digits, no leading zero. */
  function NatToString(n: nat): (s: string)
    ensures |s| >= 1 && AllDigits(s)
  {
    if n < 10 then [DigitChar(n)] else NatToString(n / 10) + [DigitChar(n % 10)]
  }

  /** The value of a string of decimal digits. */
  function ParseDigits(s: string): nat
    requires AllDigits(s)
  {
    if s == [] then 0 else 10 * ParseDigits(s[..|s| - 1]) + DigitValue(s[|s| - 1])
  }

  /** Reading back the digits of `String(n)` gives `n`. */
  lemma {:induction false} ParseNatToString(n: nat)
    ensures ParseDigits(NatToString(n)) == n
  {
    if n >= 10 {
      ParseNatToString(n / 10);
      var s := NatToString(n);
      assert s[..|s| - 1] == NatToString(n / 10);
    }
  }

  /** `String` is injective on non-negative integers. */
  lemma NatToStringInjective(m: nat, n: nat)
    requires NatToString(m) == NatToString(n)
    ensures m == n
  {
    ParseNatToString(m);
    ParseNatToString(n);
  }

  function Pow10(k: nat): nat {
    if k == 0 then 1 else 10 * Pow10(k - 1)
  }

  /** A number with `k` decimal digits is written with `k` characters. */
  lemma {:induction false} NatToStringLength(n: nat, k: nat)
    requires 1 <= k && (k == 1 || Pow10(k - 1) <= n) && n < Pow10(k)
    ensures |NatToString(n)| == k
  {
    if k > 1 {
      assert Pow10(k) == 10 * Pow10(k - 1);
      if k > 2 {
        assert Pow10(k - 1) == 10 * Pow10(k - 2);
      }
      NatToStringLength(n / 10, k - 1);
    }
  }

  /** The smallest and largest eight-digit numbers. */
  const LowestEightDigits: nat := 10000000
  const HighestEightDigits: nat := 99999999

  /** `Math.floor(10000000 + Math.random() * 90000000)` for a draw
      `0 <= random < 1`: always an eight-digit number. */
  function DrawEightDigits(random: real): (n: nat)
    requires 0.0 <= random < 1.0
    ensures LowestEightDigits <= n <= HighestEightDigits
  {
    var x := 10000000.0 + random * 90000000.0;
    assert 10000000.0 <= x < 100000000.0;
    x.Floor
  }

  /** An eight-digit number is written with exactly eight digits. */
  lemma EightDigitsString(n: nat)
    requires LowestEightDigits <= n <= HighestEightDigits
    ensures |NatToString(n)| == 8
  {
    assert Pow10(7) == LowestEightDigits && Pow10(8) == HighestEightDigits + 1;
    NatToStringLength(n, 8);
  }

  /** `String(i)` for any integer. */
  function IntToString(i: int): (s: string)
    ensures i >= 0 ==> s == NatToString(i)
    ensures i < 0 ==> s == "-" + NatToString(-i)
  {
    if i < 0 then "-" + NatToString(-i) else NatToString(i)
  }

  /** `s.padStart(width, fill)`: fills on the left up to `width` characters and
      leaves a string that is already long enough unchanged. */
  function PadStart(s: string, width: nat, fill: char): (r: string)
    ensures |s| >= width ==> r == s
    ensures |s| < width ==> |r| == width && r[width - |s|..] == s
    ensures forall i :: 0 <= i < |r| - |s| ==> r[i] == fill
    ensures |r| >= |s|
  {
    if |s| >= width then s else seq(width - |s|, _ => fill) + s
  }

  /** Index of the first occurrence of `c`. */
  function FirstIndex(s: string, c: char): (i: nat)
    requires c in s
    ensures i < |s| && s[i] == c && c !in s[..i]
  {
    if s[0] == c then 0
    else
      var i := 1 + FirstIndex(s[1..], c);
      assert s[..i] == [s[0]] + s[1..][..i - 1];
      i
  }

  /** `s.split(sep)` for a one-character separator. */
  function Split(s: string, sep: char): (parts: seq<string>)
    ensures |parts| >= 1
    decreases |s|
  {
    if sep !in s then [s]
    else
      var i := FirstIndex(s, sep);
      [s[..i]] + Split(s[i + 1..], sep)
  }

  lemma {:induction false} SplitJoin(a: string, sep: char, rest: string)
    requires sep !in a
    ensures Split(a + [sep] + rest, sep) == [a] + Split(rest, sep)
  {
    var s := a + [sep] + rest;
    FirstIndexAfter(a, sep, rest);
    assert s[..|a|] == a;
    assert s[|a| + 1..] == rest;
  }

  /** Three separator-free parts joined by the separator split back into
      those parts. */
  lemma SplitThree(a: string, b: string, c: string, sep: char)
    requires sep !in a && sep !in b && sep !in c
    ensures Split(a + [sep] + (b + [sep] + c), sep) == [a, b, c]
  {
    SplitJoin(a, sep, b + [sep] + c);
    SplitJoin(b, sep, c);
  }

  /** A string of digits holds no character that is not a digit. */
  lemma DigitsExclude(s: string, c: char)
    requires AllDigits(s) && !IsDigit(c)
    ensures c !in s
  {
    assert forall i :: 0 <= i < |s| ==> s[i] != c;
  }

  lemma {:induction false} FirstIndexAfter(a: string, sep: char, rest: string)
    requires sep !in a
    ensures sep in a + [sep] + rest && FirstIndex(a + [sep] + rest, sep) == |a|
  {
    var s := a + [sep] + rest;
    assert s[|a|] == sep;
    if a != [] {
      assert s[0] == a[0];
      assert s[1..] == a[1..] + [sep] + rest;
      FirstIndexAfter(a[1..], sep, rest);
    }
  }

  /** The characters `trim` removes: WhiteSpace and LineTerminator of
      ECMAScript (tab, vertical tab, form feed, no-break space, byte order
      mark, the space separators of Unicode category Zs, line feed, carriage
      return, line and paragraph separator). */
  predicate IsJsWhitespace(c: char) {
    c == '\t' || c == '\n' || c == '\U{000B}' || c == '\U{000C}' || c == '\r'
    || c == ' ' || c == '\U{00A0}' || c == '\U{1680}'
    || ('\U{2000}' <= c <= '\U{200A}')
    || c == '\U{2028}' || c == '\U{2029}' || c == '\U{202F}' || c == '\U{205F}'
    || c == '\U{3000}' || c == '\U{FEFF}'
  }

  function TrimStart(s: string): (r: string)
    ensures r == [] || !IsJsWhitespace(r[0])
    ensures |r| <= |s| && r == s[|s| - |r|..]
    ensures forall i :: 0 <= i < |s| - |r| ==> IsJsWhitespace(s[i])
  {
    if s != [] && IsJsWhitespace(s[0]) then
      var t := s[1..];
      var r := TrimStart(t);
      assert forall i :: 0 <= i < |s| - |r| ==> IsJsWhitespace(s[i]) by {
        forall i | 0 <= i < |s| - |r| ensures IsJsWhitespace(s[i]) {
          if i > 0 {
            assert s[i] == t[i - 1];
          }
        }
      }
      r
    else
      s
  }

  function TrimEnd(s: string): (r: string)
    ensures r == [] || !IsJsWhitespace(r[|r| - 1])
    ensures |r| <= |s| && r == s[..|r|]
    ensures forall i :: |r| <= i < |s| ==> IsJsWhitespace(s[i])
  {
    if s != [] && IsJsWhitespace(s[|s| - 1]) then
      var t := s[..|s| - 1];
      var r := TrimEnd(t);
      assert forall i :: |r| <= i < |s| ==> IsJsWhitespace(s[i]) by {
        forall i | |r| <= i < |s| ensures IsJsWhitespace(s[i]) {
          if i < |s| - 1 {
            assert s[i] == t[i];
          }
        }
      }
      r
    else
      s
  }

  /** `String.prototype.trim`: white space is taken off both ends, so the
      result neither starts nor ends with it. */
  function Trim(s: string): (r: string)
    ensures r == [] || (!IsJsWhitespace(r[0]) && !IsJsWhitespace(r[|r| - 1]))
    ensures |r| <= |s|
  {
    var t := TrimStart(s);
    var r := TrimEnd(t);
    assert r != [] ==> r[0] == t[0];
    r
  }

  lemma {:induction false} TrimStartNoop(s: string)
    requires s == [] || !IsJsWhitespace(s[0])
    ensures TrimStart(s) == s
  {
  }

  lemma {:induction false} TrimEndNoop(s: string)
    requires s == [] || !IsJsWhitespace(s[|s| - 1])
    ensures TrimEnd(s) == s
  {
  }

  /** Trimming twice is trimming once. */
  lemma {:induction false} TrimIdempotent(s: string)
    ensures Trim(Trim(s)) == Trim(s)
  {
    var r := Trim(s);
    TrimStartNoop(r);
    TrimEndNoop(r);
  }
}
