/** The string operations the source uses on dates and times: `n.toString()`,
    `padStart(width, '0')`, `split(sep)` with a one-character separator, and reading a
    run of decimal digits back as a number. */
module Text {

  predicate IsDigit(c: char) {
    '0' <= c <= '9'
  }

  predicate AllDigits(s: string) {
    forall i :: 0 <= i < |s| ==> IsDigit(s[i])
  }

  function DigitChar(n: nat): (c: char)
    requires n < 10
    ensures IsDigit(c)
  {
    ('0' as int + n) as char
  }

  function DigitValue(c: char): (n: nat)
    requires IsDigit(c)
    ensures n < 10 && DigitChar(n) == c
  {
    c as int - '0' as int
  }

  function Pow10(w: nat): (p: nat)
    ensures p >= 1
    ensures w >= 1 ==> p >= 10
  {
    if w == 0 then 1 else 10 * Pow10(w - 1)
  }

  /** `n.toString()` for a non-negative integer: its decimal digits, without leading zeros. */
  function DecimalString(n: nat): (s: string)
    ensures 1 <= |s| && AllDigits(s)
  {
    if n < 10 then [DigitChar(n)] else DecimalString(n / 10) + [DigitChar(n % 10)]
  }

  /** `s.padStart(width, '0')`. */
  function PadStart(s: string, width: nat): (r: string)
    ensures |r| == if |s| >= width then |s| else width
    ensures AllDigits(s) ==> AllDigits(r)
  {
    if |s| >= width then s else seq(width - |s|, _ => '0') + s
  }

  /** The number a string of decimal digits denotes (`parseInt(s, 10)` on digits only). */
  function ParseDigits(s: string): nat
    requires AllDigits(s)
  {
    if s == [] then 0 else ParseDigits(s[..|s| - 1]) * 10 + DigitValue(s[|s| - 1])
  }

  lemma {:induction false} DecimalStringRoundTrip(n: nat)
    ensures ParseDigits(DecimalString(n)) == n
  {
    if n >= 10 {
      var s := DecimalString(n / 10);
      var t := s + [DigitChar(n % 10)];
      assert t[..|t| - 1] == s;
      DecimalStringRoundTrip(n / 10);
    }
  }

  lemma {:induction false} DecimalStringLength(n: nat, w: nat)
    ensures w >= 1 ==> (|DecimalString(n)| <= w <==> n < Pow10(w))
  {
    if n >= 10 && w > 1 {
      DecimalStringLength(n / 10, w - 1);
      var p := Pow10(w - 1);
      assert n / 10 < p <==> n < 10 * p;
    } else if n >= 10 && w == 1 {
      assert |DecimalString(n)| == |DecimalString(n / 10)| + 1;
    }
  }

  /** Leading zeros do not change the value of a digit string. */
  lemma {:induction false} LeadingZeros(z: nat, s: string)
    requires AllDigits(s)
    ensures AllDigits(seq(z, _ => '0') + s)
    ensures ParseDigits(seq(z, _ => '0') + s) == ParseDigits(s)
    decreases |s|
  {
    var t := seq(z, _ => '0') + s;
    if s == [] {
      assert t == seq(z, _ => '0');
      ZerosParseToZero(z);
    } else {
      var init := s[..|s| - 1];
      assert t[..|t| - 1] == seq(z, _ => '0') + init;
      assert t[|t| - 1] == s[|s| - 1];
      LeadingZeros(z, init);
    }
  }

  lemma {:induction false} ZerosParseToZero(z: nat)
    ensures ParseDigits(seq(z, _ => '0')) == 0
  {
    if z > 0 {
      var t := seq(z, _ => '0');
      assert t[..z - 1] == seq(z - 1, _ => '0');
      ZerosParseToZero(z - 1);
    }
  }

  /** `n.toString().padStart(width, '0')`. */
  function ZeroPadded(n: nat, width: nat): (s: string)
    ensures AllDigits(s)
    ensures width >= 1 && n < Pow10(width) ==> |s| == width
    ensures ParseDigits(s) == n
  {
    var d := DecimalString(n);
    DecimalStringLength(n, width);
    DecimalStringRoundTrip(n);
    var z := if |d| < width then width - |d| else 0;
    LeadingZeros(z, d);
    assert PadStart(d, width) == seq(z, _ => '0') + d;
    PadStart(d, width)
  }

  /** Zero padding to a fixed width names each number in range by a distinct string. */
  lemma ZeroPaddedInjective(m: nat, n: nat, width: nat)
    requires ZeroPadded(m, width) == ZeroPadded(n, width)
    ensures m == n
  {
  }

  /** The index of the first occurrence of `c` in `s`, or `|s|` when there is none. */
  function IndexOf(s: string, c: char): (i: nat)
    ensures i <= |s|
    ensures i < |s| ==> s[i] == c
    ensures forall k :: 0 <= k < i ==> s[k] != c
  {
    if s == [] then 0 else if s[0] == c then 0 else 1 + IndexOf(s[1..], c)
  }

  /** `s.split(sep)` for a one-character separator. */
  function Split(s: string, sep: char): (parts: seq<string>)
    ensures |parts| >= 1
    ensures forall p :: p in parts ==> sep !in p
    decreases |s|
  {
    var i := IndexOf(s, sep);
    if i == |s| then [s] else [s[..i]] + Split(s[i + 1..], sep)
  }

  /** Splitting a string that has one separator between two separator-free parts gives back
      those two parts. */
  lemma SplitTwo(a: string, b: string, sep: char)
    requires sep !in a && sep !in b
    ensures Split(a + [sep] + b, sep) == [a, b]
  {
    var s := a + [sep] + b;
    assert s[..|a|] == a;
    assert s[|a| + 1..] == b;
    IndexOfAbsent(a, sep);
    IndexOfAfter(a, b, sep);
    IndexOfAbsent(b, sep);
  }

  /** Splitting a string whose first part holds no separator peels that part off. */
  lemma SplitCons(a: string, rest: string, sep: char)
    requires sep !in a
    ensures Split(a + [sep] + rest, sep) == [a] + Split(rest, sep)
  {
    var s := a + [sep] + rest;
    IndexOfAfter(a, rest, sep);
    assert s[..|a|] == a;
    assert s[|a| + 1..] == rest;
  }

  lemma IndexOfAbsent(s: string, c: char)
    requires c !in s
    ensures IndexOf(s, c) == |s|
  {
  }

  lemma IndexOfAfter(a: string, b: string, c: char)
    requires c !in a
    ensures IndexOf(a + [c] + b, c) == |a|
  {
    var s := a + [c] + b;
    assert forall k :: 0 <= k < |a| ==> s[k] == a[k];
    assert s[|a|] == c;
  }
}
