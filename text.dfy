/** The Python string operations the filing pipeline relies on:
    `str.zfill`, `str.replace('-', '')`, `str.lower` (ASCII part) and `str(int)`. */
module Text {

  predicate IsDigit(c: char) {
    '0' <= c <= '9'
  }

  predicate AllDigits(s: string) {
    forall i :: 0 <= i < |s| ==> IsDigit(s[i])
  }

  predicate IsUpper(c: char) {
    'A' <= c <= 'Z'
  }

  /** `n` copies of the character '0'. */
  function Zeros(n: nat): (r: string)
    ensures |r| == n
    ensures forall i :: 0 <= i < n ==> r[i] == '0'
  {
    seq(n, _ => '0')
  }

  /** Python's `s.zfill(width)`: pad on the left with '0' up to `width`
      characters, keeping a leading '+' or '-' sign in front of the padding. */
  function ZFill(s: string, width: int): (r: string)
    ensures |r| == if |s| >= width then |s| else width
    ensures !(|s| > 0 && s[0] in "+-") ==>
              r[|r| - |s|..] == s && forall i :: 0 <= i < |r| - |s| ==> r[i] == '0'
    ensures |s| > 0 && s[0] in "+-" ==>
              r[0] == s[0] && r[|r| - |s| + 1..] == s[1..] &&
              forall i :: 1 <= i < |r| - |s| + 1 ==> r[i] == '0'
  {
    if |s| >= width then s
    else if |s| > 0 && s[0] in "+-" then [s[0]] + Zeros(width - |s|) + s[1..]
    else Zeros(width - |s|) + s
  }

  /** Padding an already padded string changes nothing. */
  lemma ZFillIdempotent(s: string, width: int)
    ensures ZFill(ZFill(s, width), width) == ZFill(s, width)
  {
  }

  /** Python's `s.replace('-', '')`: every '-' removed, everything else kept in order. */
  function StripDashes(s: string): (r: string)
    ensures '-' !in r
    ensures forall c :: c != '-' ==> multiset(r)[c] == multiset(s)[c]
    decreases |s|
  {
    if s == [] then []
    else
      assert s == [s[0]] + s[1..];
      (if s[0] == '-' then [] else [s[0]]) + StripDashes(s[1..])
  }

  /** Removing dashes works piecewise, so the relative order of the kept characters is that of `s`. */
  lemma {:induction false} StripDashesAppend(a: string, b: string)
    ensures StripDashes(a + b) == StripDashes(a) + StripDashes(b)
    decreases |a|
  {
    if a == [] {
      assert a + b == b;
    } else {
      var h := if a[0] == '-' then [] else [a[0]];
      assert (a + b)[0] == a[0] && (a + b)[1..] == a[1..] + b;
      StripDashesAppend(a[1..], b);
      calc {
        StripDashes(a + b);
        h + StripDashes(a[1..] + b);
        h + (StripDashes(a[1..]) + StripDashes(b));
        (h + StripDashes(a[1..])) + StripDashes(b);
      }
    }
  }

  /** A string without dashes is left unchanged. */
  lemma {:induction false} StripDashesNoDash(s: string)
    requires '-' !in s
    ensures StripDashes(s) == s
    decreases |s|
  {
    if s != [] {
      StripDashesNoDash(s[1..]);
    }
  }

  /** A dash-free prefix is kept as it is. */
  lemma StripDashesKeepsPrefix(x: string, t: string)
    requires '-' !in x
    ensures StripDashes(x + t) == x + StripDashes(t)
  {
    StripDashesAppend(x, t);
    StripDashesNoDash(x);
  }

  /** A leading dash is dropped. */
  lemma StripDashesDropsDash(t: string)
    ensures StripDashes("-" + t) == StripDashes(t)
  {
  }

  /** Stripping twice is stripping once. */
  lemma StripDashesIdempotent(s: string)
    ensures StripDashes(StripDashes(s)) == StripDashes(s)
  {
    StripDashesNoDash(StripDashes(s));
  }

  function LowerChar(c: char): char {
    if IsUpper(c) then (c as int - 'A' as int + 'a' as int) as char else c
  }

  /** `s.lower()` restricted to ASCII letters. */
  function Lower(s: string): (r: string)
    ensures |r| == |s|
    ensures forall i :: 0 <= i < |r| ==> !IsUpper(r[i])
    ensures forall i :: 0 <= i < |r| ==>
              r[i] == s[i] || (IsUpper(s[i]) && r[i] as int == s[i] as int + 32)
  {
    seq(|s|, i requires 0 <= i < |s| => LowerChar(s[i]))
  }

  /** Lower-casing a lower-cased string changes nothing. */
  lemma LowerIdempotent(s: string)
    ensures Lower(Lower(s)) == Lower(s)
  {
  }

  function DigitChar(d: nat): (c: char)
    requires d < 10
    ensures IsDigit(c)
  {
    ('0' as int + d) as char
  }

  /** Python's `str(n)` for a non-negative integer: decimal digits, no sign, no leading zero. */
  function DecimalString(n: nat): (r: string)
    ensures |r| > 0 && AllDigits(r)
    ensures r[0] == '0' ==> n == 0 && r == "0"
    decreases n
  {
    if n < 10 then [DigitChar(n)] else DecimalString(n / 10) + [DigitChar(n % 10)]
  }

  /** The number a string of decimal digits denotes. */
  function DecimalValue(s: string): nat
    requires AllDigits(s)
    decreases |s|
  {
    if s == [] then 0 else DecimalValue(s[..|s| - 1]) * 10 + (s[|s| - 1] as int - '0' as int)
  }

  /** `str` and reading back decimal digits are inverse. */
  lemma {:induction false} DecimalRoundTrip(n: nat)
    ensures DecimalValue(DecimalString(n)) == n
    decreases n
  {
    if n >= 10 {
      DecimalRoundTrip(n / 10);
      var s := DecimalString(n);
      assert s[..|s| - 1] == DecimalString(n / 10);
    }
  }

  /** Leading zeros do not change the number a digit string denotes. */
  lemma {:induction false} LeadingZerosKeepValue(k: nat, s: string)
    requires AllDigits(s)
    ensures AllDigits(Zeros(k) + s)
    ensures DecimalValue(Zeros(k) + s) == DecimalValue(s)
    decreases |s|
  {
    var t := Zeros(k) + s;
    if s == [] {
      assert t == Zeros(k);
      ZerosValue(k);
    } else {
      assert t[..|t| - 1] == Zeros(k) + s[..|s| - 1];
      LeadingZerosKeepValue(k, s[..|s| - 1]);
    }
  }

  lemma {:induction false} ZerosValue(k: nat)
    ensures AllDigits(Zeros(k)) && DecimalValue(Zeros(k)) == 0
    decreases k
  {
    if k > 0 {
      assert Zeros(k)[..k - 1] == Zeros(k - 1);
      ZerosValue(k - 1);
    }
  }

  /** Padding a digit string only adds leading '0's, so the number it denotes is unchanged. */
  lemma ZFillKeepsValue(s: string, width: int)
    requires AllDigits(s)
    ensures var r := ZFill(s, width);
      && r == Zeros(|r| - |s|) + s
      && AllDigits(r)
      && DecimalValue(r) == DecimalValue(s)
  {
    var r := ZFill(s, width);
    assert s != [] ==> IsDigit(s[0]);
    assert r == Zeros(|r| - |s|) + s;
    LeadingZerosKeepValue(|r| - |s|, s);
  }

  /** The ten-digit CIK of a registry number: it ends with `str(n)`, is padded with '0' only,
      has length `max(10, |str(n)|)` and still denotes `n`. */
  lemma PaddedCik(n: nat)
    ensures var s := DecimalString(n); var r := ZFill(s, 10);
      && |r| == (if |s| >= 10 then |s| else 10)
      && r == Zeros(|r| - |s|) + s
      && AllDigits(r)
      && DecimalValue(r) == n
  {
    ZFillKeepsValue(DecimalString(n), 10);
    DecimalRoundTrip(n);
  }
}
