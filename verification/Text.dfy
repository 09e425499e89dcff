/** Text as Go's fmt package writes it: padded decimals, hexadecimal, and lines.
    A Go string is modelled as a sequence of characters. */
module Text {
  type Byte = b: int | 0 <= b < 256

  // ---- decimals: fmt.Sprintf("%0<width>d", n) ----

  function DigitChar(d: nat): char
    requires d < 10
  {
    ('0' as nat + d) as char
  }

  function DigitValue(c: char): nat {
    if '0' <= c <= '9' then c as nat - '0' as nat else 0
  }

  predicate IsDigit(c: char) {
    '0' <= c <= '9'
  }

  function Pad(n: nat, width: nat): (s: string)
    ensures |s| >= 1 && |s| >= width
    ensures forall i :: 0 <= i < |s| ==> IsDigit(s[i])
    decreases n, width
  {
    if n < 10 && width <= 1 then [DigitChar(n)]
    else Pad(n / 10, if width == 0 then 0 else width - 1) + [DigitChar(n % 10)]
  }

  /** The number a string of decimal digits denotes. */
  function Decimal(s: string): nat {
    if |s| == 0 then 0 else 10 * Decimal(s[..|s| - 1]) + DigitValue(s[|s| - 1])
  }

  lemma DecimalAppend(s: string, d: nat)
    requires d < 10
    ensures Decimal(s + [DigitChar(d)]) == 10 * Decimal(s) + d
  {
    assert (s + [DigitChar(d)])[..|s|] == s;
  }

  lemma {:induction false} DecimalOfPad(n: nat, width: nat)
    ensures Decimal(Pad(n, width)) == n
    decreases n, width
  {
    if n < 10 && width <= 1 {
      DecimalAppend("", n);
      assert "" + [DigitChar(n)] == [DigitChar(n)];
    } else {
      var w := if width == 0 then 0 else width - 1;
      DecimalOfPad(n / 10, w);
      DecimalAppend(Pad(n / 10, w), n % 10);
    }
  }

  lemma PadInjective(m: nat, n: nat, width: nat)
    requires Pad(m, width) == Pad(n, width)
    ensures m == n
  {
    DecimalOfPad(m, width);
    DecimalOfPad(n, width);
  }

  function Pow10(k: nat): (p: nat)
    ensures p >= 1
  {
    if k == 0 then 1 else 10 * Pow10(k - 1)
  }

  /** Padding yields exactly `width` digits if and only if the number fits in them. */
  lemma {:induction false} PadWidth(n: nat, width: nat)
    requires width >= 1
    ensures |Pad(n, width)| == width <==> n < Pow10(width)
    decreases width
  {
    if width == 1 {
      assert Pow10(1) == 10 * Pow10(0);
    } else {
      PadWidth(n / 10, width - 1);
      assert n / 10 < Pow10(width - 1) <==> n < 10 * Pow10(width - 1);
    }
  }

  // ---- hexadecimal: fmt.Sprintf("%x", b) and hex.EncodeToString ----

  function HexChar(d: nat): (c: char)
    requires d < 16
  {
    if d < 10 then ('0' as nat + d) as char else ('a' as nat + d - 10) as char
  }

  predicate IsHexChar(c: char) {
    '0' <= c <= '9' || 'a' <= c <= 'f'
  }

  function Hex(bytes: seq<Byte>): (s: string)
    ensures |s| == 2 * |bytes|
    ensures forall i :: 0 <= i < |s| ==> IsHexChar(s[i])
  {
    if |bytes| == 0 then ""
    else [HexChar(bytes[0] / 16), HexChar(bytes[0] % 16)] + Hex(bytes[1..])
  }

  lemma HexCharInjective(d: nat, e: nat)
    requires d < 16 && e < 16 && HexChar(d) == HexChar(e)
    ensures d == e
  {}

  lemma {:induction false} HexInjective(a: seq<Byte>, b: seq<Byte>)
    requires Hex(a) == Hex(b)
    ensures a == b
  {
    if |a| > 0 {
      assert |a| == |b|;
      assert Hex(a)[0] == HexChar(a[0] / 16) && Hex(b)[0] == HexChar(b[0] / 16);
      assert Hex(a)[1] == HexChar(a[0] % 16) && Hex(b)[1] == HexChar(b[0] % 16);
      HexCharInjective(a[0] / 16, b[0] / 16);
      HexCharInjective(a[0] % 16, b[0] % 16);
      assert Hex(a[1..]) == Hex(a)[2..] && Hex(b[1..]) == Hex(b)[2..];
      HexInjective(a[1..], b[1..]);
      assert a == [a[0]] + a[1..] && b == [b[0]] + b[1..];
    }
  }

  /** Two digits for each byte, the high half first. */
  lemma {:induction false} HexAt(bytes: seq<Byte>, i: nat)
    requires i < |bytes|
    ensures var digits := "0123456789abcdef";
      Hex(bytes)[2 * i] == digits[bytes[i] / 16] && Hex(bytes)[2 * i + 1] == digits[bytes[i] % 16]
  {
    if i == 0 {
      HexDigit(bytes[0] / 16);
      HexDigit(bytes[0] % 16);
    } else {
      HexAt(bytes[1..], i - 1);
      assert Hex(bytes)[2..] == Hex(bytes[1..]);
    }
  }

  lemma HexDigit(d: nat)
    requires d < 16
    ensures HexChar(d) == "0123456789abcdef"[d]
  {}

  // ---- lines and substrings ----

  predicate OneLine(s: string) {
    '\n' !in s
  }

  predicate OccursAt(pattern: string, s: string, k: int) {
    0 <= k <= k + |pattern| <= |s| && s[k..k + |pattern|] == pattern
  }

  ghost predicate Occurs(pattern: string, s: string) {
    exists k :: OccursAt(pattern, s, k)
  }

  /** The text before the first newline determines the split. */
  lemma FirstLine(a: string, s: string, b: string, t: string)
    requires OneLine(a) && OneLine(b)
    requires a + "\n" + s == b + "\n" + t
    ensures a == b && s == t
  {
    var x := a + "\n" + s;
    assert x[|a|] == '\n' && x[|b|] == '\n';
    assert forall i :: 0 <= i < |a| ==> x[i] == a[i];
    assert forall i :: 0 <= i < |b| ==> x[i] == b[i];
    assert a == x[..|a|] && b == x[..|b|];
    assert s == x[|a| + 1..] && t == x[|b| + 1..];
  }

  /** The text after the last newline determines the split. */
  lemma LastLine(s: string, a: string, t: string, b: string)
    requires OneLine(a) && OneLine(b)
    requires s + "\n" + a == t + "\n" + b
    ensures s == t && a == b
  {
    var x := s + "\n" + a;
    assert x[|s|] == '\n' && x[|t|] == '\n';
    assert forall i :: |s| < i < |x| ==> x[i] == a[i - |s| - 1];
    assert forall i :: |t| < i < |x| ==> x[i] == b[i - |t| - 1];
    assert s == x[..|s|] && t == x[..|t|];
    assert a == x[|s| + 1..] && b == x[|t| + 1..];
  }

  /** Reads back one labelled line from the front of a text. */
  lemma PeelFirst(name: string, a: string, s: string, b: string, t: string)
    requires OneLine(name) && OneLine(a) && OneLine(b)
    requires (name + a) + "\n" + s == (name + b) + "\n" + t
    ensures a == b && s == t
  {
    FirstLine(name + a, s, name + b, t);
    CancelPrefix(name, a, b);
  }

  /** Reads back one labelled line from the end of a text. */
  lemma PeelLast(name: string, s: string, a: string, t: string, b: string)
    requires OneLine(name) && OneLine(a) && OneLine(b)
    requires s + "\n" + (name + a) == t + "\n" + (name + b)
    ensures s == t && a == b
  {
    LastLine(s, name + a, t, name + b);
    CancelPrefix(name, a, b);
  }

  /** A common prefix can be cancelled. */
  lemma CancelPrefix(p: string, a: string, b: string)
    requires p + a == p + b
    ensures a == b
  {
    assert a == (p + a)[|p|..] && b == (p + b)[|p|..];
  }

  // ---- lexicographic order on strings, as Go and Fabric compare keys ----

  predicate StringLess(a: string, b: string) {
    |b| > 0 && (|a| == 0 || a[0] < b[0] || (a[0] == b[0] && StringLess(a[1..], b[1..])))
  }

  lemma {:induction false} StringLessTotal(a: string, b: string)
    ensures a == b || StringLess(a, b) || StringLess(b, a)
  {
    if |a| > 0 && |b| > 0 && a[0] == b[0] {
      StringLessTotal(a[1..], b[1..]);
      assert a == [a[0]] + a[1..] && b == [b[0]] + b[1..];
    }
  }

  lemma {:induction false} StringLessAsymmetric(a: string, b: string)
    requires StringLess(a, b)
    ensures a != b && !StringLess(b, a)
  {
    if |a| > 0 && a[0] == b[0] {
      StringLessAsymmetric(a[1..], b[1..]);
    }
  }

  lemma {:induction false} StringLessTransitive(a: string, b: string, c: string)
    requires StringLess(a, b) && StringLess(b, c)
    ensures StringLess(a, c)
  {
    if |a| > 0 && a[0] == b[0] && b[0] == c[0] {
      StringLessTransitive(a[1..], b[1..], c[1..]);
    }
  }
}
