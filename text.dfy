/** The Python string operations the scripts rely on, over `seq<char>`:
    `str.split` with a one-character separator, `str.strip`, one-character
    `str.replace`, and `format(n, "0<w>d")` for integers. */
module Text {

  /** Python's `str.isspace` on the ASCII range: space, `\t \n \v \f \r`
      and the four separator controls 0x1C to 0x1F. */
  predicate IsSpace(c: char) {
    c == ' ' || (9 <= c as int <= 13) || (28 <= c as int <= 31)
  }

  predicate IsDigit(c: char) {
    '0' <= c <= '9'
  }

  predicate AllDigits(s: string) {
    forall k :: 0 <= k < |s| ==> IsDigit(s[k])
  }

  predicate StartsWith(s: string, prefix: string) {
    |prefix| <= |s| && s[..|prefix|] == prefix
  }

  predicate EndsWith(s: string, suffix: string) {
    |suffix| <= |s| && s[|s| - |suffix|..] == suffix
  }

  function Count(c: char, s: string): nat {
    if s == [] then 0 else (if s[0] == c then 1 else 0) + Count(c, s[1..])
  }

  // ---------------------------------------------------------------- split

  /** `sep.join(parts)`. */
  function Join(parts: seq<string>, sep: char): string {
    if parts == [] then ""
    else if |parts| == 1 then parts[0]
    else parts[0] + [sep] + Join(parts[1..], sep)
  }

  /** `s.split(sep)`: the pieces between separators, empty pieces included,
      so that there is always one more piece than separators. */
  function Split(s: string, sep: char): (parts: seq<string>)
    ensures |parts| == Count(sep, s) + 1
    ensures forall k :: 0 <= k < |parts| ==> sep !in parts[k]
    ensures Join(parts, sep) == s
  {
    if s == [] then [""]
    else
      var rest := Split(s[1..], sep);
      if s[0] == sep then
        assert s == [sep] + s[1..];
        [""] + rest
      else
        assert s == [s[0]] + s[1..];
        [[s[0]] + rest[0]] + rest[1..]
  }

  /** Splitting a join of separator-free pieces gives the pieces back. */
  lemma {:induction false} SplitJoin(parts: seq<string>, sep: char)
    requires |parts| >= 1
    requires forall k :: 0 <= k < |parts| ==> sep !in parts[k]
    ensures Split(Join(parts, sep), sep) == parts
  {
    if |parts| == 1 {
      SplitNoSeparator(parts[0], sep);
    } else {
      SplitJoin(parts[1..], sep);
      SplitPrefix(parts[0], Join(parts[1..], sep), sep);
      assert parts == [parts[0]] + parts[1..];
    }
  }

  lemma {:induction false} SplitNoSeparator(s: string, sep: char)
    requires sep !in s
    ensures Split(s, sep) == [s]
  {
    if s != [] {
      SplitNoSeparator(s[1..], sep);
    }
  }

  lemma {:induction false} SplitPrefix(p: string, rest: string, sep: char)
    requires sep !in p
    ensures Split(p + [sep] + rest, sep) == [p] + Split(rest, sep)
  {
    if p == [] {
      assert p + [sep] + rest == [sep] + rest;
      assert ([sep] + rest)[1..] == rest;
    } else {
      var s := p + [sep] + rest;
      assert s[0] == p[0] && s[0] != sep;
      assert s[1..] == p[1..] + [sep] + rest;
      SplitPrefix(p[1..], rest, sep);
      var r := Split(s[1..], sep);
      assert r[0] == p[1..] && r[1..] == Split(rest, sep);
      assert Split(s, sep) == [[p[0]] + r[0]] + r[1..];
      assert [p[0]] + p[1..] == p;
    }
  }

  // ---------------------------------------------------------------- strip

  function StripLeft(s: string): (r: string)
    ensures |r| <= |s| && r == s[|s| - |r|..]
    ensures forall k :: 0 <= k < |s| - |r| ==> IsSpace(s[k])
    ensures r == [] || !IsSpace(r[0])
  {
    if s != [] && IsSpace(s[0]) then StripLeft(s[1..]) else s
  }

  function StripRight(s: string): (r: string)
    ensures |r| <= |s| && r == s[..|r|]
    ensures forall k :: |r| <= k < |s| ==> IsSpace(s[k])
    ensures r == [] || !IsSpace(r[|r| - 1])
  {
    if s != [] && IsSpace(s[|s| - 1]) then StripRight(s[..|s| - 1]) else s
  }

  /** `s.strip()`: whitespace removed at both ends. */
  function Strip(s: string): string {
    StripRight(StripLeft(s))
  }

  /** `r` is the slice of `s` at `i`, with only whitespace around it. */
  predicate Trimmed(s: string, i: int, r: string) {
    0 <= i <= |s| - |r| && r == s[i..i + |r|] &&
    (forall k :: 0 <= k < i ==> IsSpace(s[k])) &&
    (forall k :: i + |r| <= k < |s| ==> IsSpace(s[k]))
  }

  /** What `Strip` leaves is the slice of `s` between leading and trailing
      whitespace. */
  lemma StripMeaning(s: string)
    ensures exists i :: Trimmed(s, i, Strip(s))
  {
    var l := StripLeft(s);
    var r := StripRight(l);
    var i := |s| - |l|;
    assert s[i..] == l;
    assert r == s[i..i + |r|] by {
      assert l[..|r|] == s[i..i + |r|];
    }
    forall k | i + |r| <= k < |s|
      ensures IsSpace(s[k])
    {
      assert s[k] == l[k - i];
    }
    assert r == Strip(s);
    assert Trimmed(s, i, r);
  }

  /** What `Strip` leaves neither starts nor ends with whitespace. */
  lemma StripEnds(s: string)
    ensures Strip(s) == [] || (!IsSpace(Strip(s)[0]) && !IsSpace(Strip(s)[|Strip(s)| - 1]))
  {
    var l := StripLeft(s);
    var r := StripRight(l);
    if r != [] {
      assert r[0] == l[0];
    }
  }

  // -------------------------------------------------------------- replace

  /** `s.replace(a, b)` for one-character `a` and `b`. */
  function ReplaceChar(s: string, a: char, b: char): (r: string)
    ensures |r| == |s|
    ensures forall k :: 0 <= k < |s| ==> r[k] == (if s[k] == a then b else s[k])
  {
    seq(|s|, k requires 0 <= k < |s| => if s[k] == a then b else s[k])
  }

  /** After replacing every `a` by another character, no `a` is left. */
  lemma ReplaceCharRemovesAll(s: string, a: char, b: char)
    requires a != b
    ensures a !in ReplaceChar(s, a, b)
  {
  }

  /** `s.replace(c, "")`. */
  function RemoveChar(s: string, c: char): (r: string)
    ensures c !in r
    ensures |r| == |s| - Count(c, s)
    ensures c !in s ==> r == s
  {
    if s == [] then ""
    else if s[0] == c then RemoveChar(s[1..], c)
    else
      assert s == [s[0]] + s[1..];
      [s[0]] + RemoveChar(s[1..], c)
  }

  lemma {:induction false} RemoveCharConcat(a: string, b: string, c: char)
    ensures RemoveChar(a + b, c) == RemoveChar(a, c) + RemoveChar(b, c)
  {
    if a != [] {
      assert (a + b)[1..] == a[1..] + b;
      RemoveCharConcat(a[1..], b, c);
    } else {
      assert a + b == b;
    }
  }

  // ------------------------------------------------------------- integers

  function Pow10(n: nat): (p: nat)
    ensures p >= 1
  {
    if n == 0 then 1 else 10 * Pow10(n - 1)
  }

  function DigitChar(d: nat): (c: char)
    requires d < 10
    ensures IsDigit(c) && c as int - '0' as int == d
  {
    ('0' as int + d) as char
  }

  function DigitValue(c: char): nat
    requires IsDigit(c)
  {
    c as int - '0' as int
  }

  /** The decimal digits of `n` without leading zeros ("0" for zero). */
  function NatDigits(n: nat): (s: string)
    ensures AllDigits(s) && |s| >= 1
  {
    if n < 10 then [DigitChar(n)] else NatDigits(n / 10) + [DigitChar(n % 10)]
  }

  /** The number an ASCII digit string denotes (Python's `int` on such a string). */
  function DigitsValue(s: string): nat
    requires AllDigits(s)
  {
    if s == [] then 0 else 10 * DigitsValue(s[..|s| - 1]) + DigitValue(s[|s| - 1])
  }

  function Zeros(n: nat): (s: string)
    ensures |s| == n && forall k :: 0 <= k < n ==> s[k] == '0'
  {
    if n == 0 then "" else "0" + Zeros(n - 1)
  }

  /** Left-pads with zeros to at least `w` characters. */
  function ZeroPad(s: string, w: nat): (r: string)
    ensures |r| == if |s| < w then w else |s|
  {
    if |s| < w then Zeros(w - |s|) + s else s
  }

  /** `format(n, "0<w>d")`, i.e. f"{n:0<w>d}": the sign, if any, counts
      toward the width and the zeros go between sign and digits. */
  function FormatInt(n: int, w: nat): string {
    if n >= 0 then ZeroPad(NatDigits(n), w)
    else "-" + ZeroPad(NatDigits(-n), if w >= 1 then w - 1 else 0)
  }

  lemma {:induction false} NatDigitsValue(n: nat)
    ensures DigitsValue(NatDigits(n)) == n
  {
    if n >= 10 {
      NatDigitsValue(n / 10);
      var s := NatDigits(n / 10) + [DigitChar(n % 10)];
      assert s[..|s| - 1] == NatDigits(n / 10);
    }
  }

  lemma {:induction false} NatDigitsLength(n: nat, w: nat)
    requires n < Pow10(w)
    ensures |NatDigits(n)| <= w || (n == 0 && w == 0)
  {
    if n >= 10 {
      assert w >= 1;
      assert n / 10 < Pow10(w - 1);
      NatDigitsLength(n / 10, w - 1);
    }
  }

  lemma {:induction false} LeadingZerosValue(z: nat, s: string)
    requires AllDigits(s)
    ensures AllDigits(Zeros(z) + s) && DigitsValue(Zeros(z) + s) == DigitsValue(s)
  {
    if s == [] {
      assert Zeros(z) + s == Zeros(z);
      ZerosValue(z);
    } else {
      var t := Zeros(z) + s;
      LeadingZerosValue(z, s[..|s| - 1]);
      assert t[..|t| - 1] == Zeros(z) + s[..|s| - 1];
    }
  }

  lemma {:induction false} ZerosValue(z: nat)
    ensures DigitsValue(Zeros(z)) == 0
  {
    if z > 0 {
      var t := Zeros(z);
      assert t[..|t| - 1] == Zeros(z - 1) by {
        assert Zeros(z) == "0" + Zeros(z - 1);
        ZerosSnoc(z - 1);
      }
      ZerosValue(z - 1);
    }
  }

  lemma ZerosSnoc(z: nat)
    ensures "0" + Zeros(z) == Zeros(z) + "0"
  {
    assert |"0" + Zeros(z)| == |Zeros(z) + "0"|;
  }

  /** The zero-padded decimal of a non-negative number below 10^w is exactly
      `w` digits that read back as the number. */
  lemma FormatIntRoundTrip(n: int, w: nat)
    requires 0 <= n < Pow10(w) && w >= 1
    ensures |FormatInt(n, w)| == w
    ensures AllDigits(FormatInt(n, w))
    ensures DigitsValue(FormatInt(n, w)) == n
  {
    var d := NatDigits(n);
    assert FormatInt(n, w) == ZeroPad(d, w);
    NatDigitsLength(n, w);
    NatDigitsValue(n);
    if |d| < w {
      assert ZeroPad(d, w) == Zeros(w - |d|) + d;
      LeadingZerosValue(w - |d|, d);
    } else {
      assert ZeroPad(d, w) == d;
    }
  }
}
