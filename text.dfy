/** Character classes and small string operations that the Python code takes
    from the language: `str.isspace`, ASCII letter cases, `%d`-style decimal
    rendering with zero padding, `startswith`/`endswith`, `split('.')[-1]`
    and `" ".join`. */
module Text {

  predicate IsDigit(c: char) { '0' <= c <= '9' }
  predicate IsUpper(c: char) { 'A' <= c <= 'Z' }
  predicate IsLower(c: char) { 'a' <= c <= 'z' }

  /** The characters for which Python's `str.isspace()` holds; `str.split()`
      and `str.strip()` break and trim on exactly these. */
  predicate IsSpace(c: char)
  {
    || '\t' <= c <= '\r'
    || '\U{1C}' <= c <= ' '
    || c == '\U{85}' || c == '\U{A0}' || c == '\U{1680}'
    || '\U{2000}' <= c <= '\U{200A}'
    || c == '\U{2028}' || c == '\U{2029}' || c == '\U{202F}'
    || c == '\U{205F}' || c == '\U{3000}'
  }

  function ToUpper(c: char): (r: char)
    ensures IsLower(c) ==> IsUpper(r)
    ensures !IsLower(c) ==> r == c
  {
    if IsLower(c) then (c as int - 32) as char else c
  }

  function ToLower(c: char): (r: char)
    ensures IsUpper(c) ==> IsLower(r)
    ensures !IsUpper(c) ==> r == c
  {
    if IsUpper(c) then (c as int + 32) as char else c
  }

  function Upper(s: string): (r: string)
    ensures |r| == |s|
    ensures forall i :: 0 <= i < |s| ==> r[i] == ToUpper(s[i])
  {
    if s == [] then [] else [ToUpper(s[0])] + Upper(s[1..])
  }

  function Lower(s: string): (r: string)
    ensures |r| == |s|
    ensures forall i :: 0 <= i < |s| ==> r[i] == ToLower(s[i])
  {
    if s == [] then [] else [ToLower(s[0])] + Lower(s[1..])
  }

  /** `s.strip() == ''` */
  predicate IsBlank(s: string)
  {
    forall i :: 0 <= i < |s| ==> IsSpace(s[i])
  }

  /** `s.lstrip()`: what is left once the leading white space is gone. */
  function StripLeft(s: string): (r: string)
    ensures |r| <= |s| && r == s[|s| - |r|..]
    ensures forall i :: 0 <= i < |s| - |r| ==> IsSpace(s[i])
    ensures r != [] ==> !IsSpace(r[0])
  {
    if s != [] && IsSpace(s[0]) then StripLeft(s[1..]) else s
  }

  /** `s.rstrip()` */
  function StripRight(s: string): (r: string)
    ensures |r| <= |s| && r == s[..|r|]
    ensures forall i :: |r| <= i < |s| ==> IsSpace(s[i])
    ensures r != [] ==> !IsSpace(r[|r| - 1])
  {
    if s != [] && IsSpace(s[|s| - 1]) then StripRight(s[..|s| - 1]) else s
  }

  /** `s.strip()` */
  function Strip(s: string): string
  {
    StripRight(StripLeft(s))
  }

  /** Stripping leaves nothing exactly when the text is all white space. */
  lemma StripBlank(s: string)
    ensures Strip(s) == [] <==> IsBlank(s)
  {
    var l := StripLeft(s);
    var r := StripRight(l);
    var i := |s| - |l|;
    if r == [] {
      forall k | 0 <= k < |s| ensures IsSpace(s[k]) {
        assert l == [] && k < i;
      }
    } else {
      assert l[..|r|] == r;
      assert s[i..][0] == s[i];
    }
  }

  predicate StartsWith(s: string, prefix: string)
  {
    |prefix| <= |s| && s[..|prefix|] == prefix
  }

  predicate EndsWith(s: string, suffix: string)
  {
    |suffix| <= |s| && s[|s| - |suffix|..] == suffix
  }

  /** `s.split('.')[-1]`: the text after the last dot, or all of `s`. */
  function LastSegment(s: string): (r: string)
    ensures EndsWith(s, r)
    ensures '.' !in r
    ensures |r| < |s| ==> s[|s| - |r| - 1] == '.'
  {
    if s == [] then []
    else if s[|s| - 1] == '.' then []
    else LastSegment(s[..|s| - 1]) + [s[|s| - 1]]
  }

  /** A concatenation ends with its second part. */
  lemma EndsWithAppend(a: string, b: string)
    ensures EndsWith(a + b, b)
  {
    assert (a + b)[|a + b| - |b|..] == b;
  }

  /** A string whose last character differs from that of a non-empty
      text does not end with that text. */
  lemma NotEndsWithLast(s: string, suffix: string)
    requires s != [] && suffix != [] && s[|s| - 1] != suffix[|suffix| - 1]
    ensures !EndsWith(s, suffix)
  {
    if |suffix| <= |s| {
      assert s[|s| - |suffix|..][|suffix| - 1] == s[|s| - 1];
    }
  }

  /** The last segment of `a.b`, for `b` without a dot, is `b`. */
  lemma {:induction false} LastSegmentAfterDot(a: string, b: string)
    requires '.' !in b
    ensures LastSegment(a + "." + b) == b
  {
    var s := a + "." + b;
    if b != [] {
      assert s[..|s| - 1] == a + "." + b[..|b| - 1];
      LastSegmentAfterDot(a, b[..|b| - 1]);
      assert b[..|b| - 1] + [b[|b| - 1]] == b;
    }
  }

  /** `sep.join(parts)` */
  function Join(parts: seq<string>, sep: string): string
  {
    if parts == [] then []
    else if |parts| == 1 then parts[0]
    else parts[0] + sep + Join(parts[1..], sep)
  }

  predicate AllDigits(s: string)
  {
    forall i :: 0 <= i < |s| ==> IsDigit(s[i])
  }

  function DigitChar(d: nat): (c: char)
    requires d < 10
    ensures IsDigit(c)
  {
    ('0' as int + d) as char
  }

  function DigitValue(c: char): (d: nat)
    requires IsDigit(c)
    ensures d < 10 && DigitChar(d) == c
  {
    c as int - '0' as int
  }

  /** `'%d' % n` for a non-negative `n`. */
  function NatToString(n: nat): (r: string)
    ensures |r| >= 1 && AllDigits(r)
    ensures |r| > 1 ==> r[0] != '0'
  {
    if n < 10 then [DigitChar(n)] else NatToString(n / 10) + [DigitChar(n % 10)]
  }

  /** `'%d' % i` for any integer: a minus sign, then the magnitude. */
  function IntToString(i: int): (r: string)
    ensures |r| >= 1
    ensures i >= 0 ==> r == NatToString(i)
    ensures i < 0 ==> r == "-" + NatToString(-i)
  {
    if i >= 0 then NatToString(i) else "-" + NatToString(-i)
  }

  /** The value of a string of decimal digits. */
  function ParseNat(s: string): nat
    requires AllDigits(s)
  {
    if s == [] then 0 else 10 * ParseNat(s[..|s| - 1]) + DigitValue(s[|s| - 1])
  }

  /** Reading back a rendered number gives the number. */
  lemma {:induction false} ParseNatToString(n: nat)
    ensures ParseNat(NatToString(n)) == n
  {
    if n >= 10 {
      var s := NatToString(n);
      assert s[..|s| - 1] == NatToString(n / 10);
      ParseNatToString(n / 10);
    }
  }

  /** Left padding with zeros up to `width` characters: `'%0<width>d'`. */
  function ZeroPad(s: string, width: nat): (r: string)
    ensures |r| == if |s| >= width then |s| else width
    ensures r[|r| - |s|..] == s
    ensures forall i :: 0 <= i < |r| - |s| ==> r[i] == '0'
  {
    if |s| >= width then s else seq(width - |s|, _ => '0') + s
  }

  /** Leading zeros do not change the value of a digit string. */
  lemma {:induction false} ParseNatZeroPad(s: string, width: nat)
    requires AllDigits(s)
    ensures AllDigits(ZeroPad(s, width))
    ensures ParseNat(ZeroPad(s, width)) == ParseNat(s)
    decreases width - |s|
  {
    if |s| < width {
      LeadingZero(s);
      ParseNatZeroPad("0" + s, width);
      assert ZeroPad(s, width) == ZeroPad("0" + s, width);
    }
  }

  lemma {:induction false} LeadingZero(s: string)
    requires AllDigits(s)
    ensures AllDigits("0" + s) && ParseNat("0" + s) == ParseNat(s)
    decreases |s|
  {
    if s != [] {
      assert ("0" + s)[..|s|] == "0" + s[..|s| - 1];
      LeadingZero(s[..|s| - 1]);
    }
  }

  /** `'%0<width>d' % n` */
  function PadNat(n: nat, width: nat): (r: string)
    ensures AllDigits(r) && ParseNat(r) == n
    ensures |r| >= width
  {
    ParseNatToString(n);
    ParseNatZeroPad(NatToString(n), width);
    ZeroPad(NatToString(n), width)
  }

  /** A number below 100 pads to exactly two digits. */
  lemma {:induction false} TwoDigitPad(n: nat)
    requires n <= 99
    ensures |PadNat(n, 2)| == 2
  {
    if n >= 10 {
      assert NatToString(n) == NatToString(n / 10) + [DigitChar(n % 10)];
    }
  }
}
