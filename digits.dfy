/**
 * Decimal digit strings, used twice by the shell: print_history renders each
 * display number with a hand-written digit loop, and the `!n` replay syntax
 * reads a number back from the digits that follow the `!`.
 */
module Digits {
  /** The largest value of a C `int` on the platforms the shell targets. */
  const INT_MAX: nat := 0x7fff_ffff

  predicate IsDigit(c: char) {
    '0' <= c <= '9'
  }

  predicate AllDigits(s: string) {
    forall k :: 0 <= k < |s| ==> IsDigit(s[k])
  }

  function DigitChar(d: nat): (c: char)
    requires d < 10
    ensures IsDigit(c)
  {
    ('0' as int + d) as char
  }

  function DigitValue(c: char): (d: nat)
    requires IsDigit(c)
    ensures d < 10 && DigitChar(d) == c
  {
    c as int - '0' as int
  }

  function Pow10(k: nat): (p: nat)
    ensures p >= 1
  {
    if k == 0 then 1 else 10 * Pow10(k - 1)
  }

  /** The decimal rendering of n, most significant digit first ("0" for zero). */
  function Decimal(n: nat): (s: string)
    ensures |s| >= 1 && AllDigits(s)
    ensures |s| > 1 ==> s[0] != '0'
  {
    if n < 10 then [DigitChar(n)] else Decimal(n / 10) + [DigitChar(n % 10)]
  }

  /** The number a digit string denotes, accumulated left to right as `n * 10 + d`. */
  function Value(ds: string): nat
    requires AllDigits(ds)
  {
    if ds == [] then 0 else Value(ds[..|ds| - 1]) * 10 + DigitValue(ds[|ds| - 1])
  }

  /** One more digit on the right multiplies by ten and adds it. */
  lemma ValueAppend(ds: string, c: char)
    requires AllDigits(ds) && IsDigit(c)
    ensures AllDigits(ds + [c]) && Value(ds + [c]) == Value(ds) * 10 + DigitValue(c)
  {
    assert (ds + [c])[..|ds|] == ds;
  }

  /** The longest prefix of s made of digits. */
  function LeadingDigits(s: string): (ds: string)
    ensures |ds| <= |s| && ds == s[..|ds|] && AllDigits(ds)
    ensures |ds| < |s| ==> !IsDigit(s[|ds|])
  {
    if s == [] || !IsDigit(s[0]) then [] else [s[0]] + LeadingDigits(s[1..])
  }

  /** Reading back a rendered number gives the number. */
  lemma {:induction false} ValueOfDecimal(n: nat)
    ensures Value(Decimal(n)) == n
  {
    if n >= 10 {
      ValueOfDecimal(n / 10);
      var s := Decimal(n);
      assert s[..|s| - 1] == Decimal(n / 10);
    }
  }

  /** A digit string with no leading zero is the rendering of its value. */
  lemma {:induction false} DecimalOfValue(ds: string)
    requires ds != [] && AllDigits(ds) && (|ds| > 1 ==> ds[0] != '0')
    ensures Decimal(Value(ds)) == ds
  {
    if |ds| > 1 {
      var p := ds[..|ds| - 1];
      DecimalOfValue(p);
      ValuePositive(p);
      var v := Value(ds);
      assert v / 10 == Value(p) && v % 10 == DigitValue(ds[|ds| - 1]);
      assert ds == p + [ds[|ds| - 1]];
    }
  }

  lemma {:induction false} ValuePositive(ds: string)
    requires ds != [] && AllDigits(ds) && ds[0] != '0'
    ensures Value(ds) >= 1
  {
    if |ds| > 1 {
      ValuePositive(ds[..|ds| - 1]);
    }
  }

  /** A value below 10^k renders in at most k digits. */
  lemma {:induction false} DecimalLength(n: nat, k: nat)
    requires 1 <= k && n < Pow10(k)
    ensures |Decimal(n)| <= k
  {
    if n >= 10 {
      assert k > 1;
      DecimalLength(n / 10, k - 1);
    }
  }

  /** A C `int` renders in at most ten digits, so num_str[16] always has room. */
  lemma IntFitsTenDigits(n: nat)
    requires n <= INT_MAX
    ensures |Decimal(n)| <= 10
  {
    assert Pow10(10) == 10_000_000_000;
    DecimalLength(n, 10);
  }

  /** The longest digit prefix of a string that is all digits is the whole string. */
  lemma {:induction false} LeadingDigitsOfDigits(s: string, rest: string)
    requires AllDigits(s)
    requires rest == [] || !IsDigit(rest[0])
    ensures LeadingDigits(s + rest) == s
  {
    if s != [] {
      assert (s + rest)[1..] == s[1..] + rest;
      LeadingDigitsOfDigits(s[1..], rest);
    } else {
      assert s + rest == rest;
    }
  }

  /** The sequence s reversed, built from its last element. */
  function Reversed(s: string): (r: string)
    ensures |r| == |s|
  {
    if s == [] then [] else [s[|s| - 1]] + Reversed(s[..|s| - 1])
  }

  lemma {:induction false} ReversedAt(s: string, k: nat)
    requires k < |s|
    ensures Reversed(s)[k] == s[|s| - 1 - k]
  {
    if k > 0 {
      ReversedAt(s[..|s| - 1], k - 1);
    }
  }

  /** The digits of temp still to be written, most significant first: none once temp is 0. */
  function Pending(temp: nat): string {
    if temp == 0 then [] else Decimal(temp)
  }

  /**
   * One pass of the digit loop: with len digits of ds written and the rest
   * pending in temp, the digit written next is ds's len-th from the end and
   * temp / 10 holds the digits after it.
   */
  lemma DigitStep(ds: string, len: nat, temp: nat)
    requires len <= |ds| && temp > 0 && Pending(temp) == ds[..|ds| - len]
    ensures len < |ds| && DigitChar(temp % 10) == ds[|ds| - 1 - len]
    ensures Pending(temp / 10) == ds[..|ds| - (len + 1)]
  {
    var p := Decimal(temp);
    if temp >= 10 {
      assert p[..|p| - 1] == Decimal(temp / 10);
    }
    assert p[|p| - 1] == DigitChar(temp % 10);
    assert ds[..|ds| - len][..|ds| - len - 1] == ds[..|ds| - (len + 1)];
  }

  /** A string whose k-th character is the k-th from the end of t is t reversed. */
  lemma ReversedOf(s: string, t: string)
    requires |s| == |t| && forall k :: 0 <= k < |s| ==> s[k] == t[|t| - 1 - k]
    ensures Reversed(s) == t
  {
    forall k | 0 <= k < |s|
      ensures Reversed(s)[k] == s[|s| - 1 - k]
    {
      ReversedAt(s, k);
    }
    assert forall k :: 0 <= k < |t| ==> Reversed(s)[k] == t[k];
  }

  /**
   * The first half of print_history's conversion: digits of n, least
   * significant first, written to the front of buf. Zero is written as "0".
   */
  method WriteDigitsBackwards(buf: array<char>, n: nat) returns (len: nat)
    requires |Decimal(n)| < buf.Length
    modifies buf
    ensures len == |Decimal(n)|
    ensures Reversed(buf[..len]) == Decimal(n)
    ensures buf[len..] == old(buf[len..])
  {
    if n == 0 {
      buf[0] := '0';
      len := 1;
      assert buf[..len] == [DigitChar(0)];
      assert Reversed(buf[..len]) == [DigitChar(0)] + Reversed([]);
    } else {
      len := WriteDigits(buf, n);
    }
  }

  /** The digit loop for a positive n: each pass writes temp % 10 and divides temp by ten. */
  method WriteDigits(buf: array<char>, n: nat) returns (len: nat)
    requires 0 < n && |Decimal(n)| < buf.Length
    modifies buf
    ensures len == |Decimal(n)|
    ensures Reversed(buf[..len]) == Decimal(n)
    ensures buf[len..] == old(buf[len..])
  {
    ghost var ds := Decimal(n);
    len := 0;
    var temp: nat := n;
    while temp > 0
      invariant len <= |ds|
      invariant Pending(temp) == ds[..|ds| - len]
      invariant forall k :: 0 <= k < len ==> buf[k] == ds[|ds| - 1 - k]
      invariant forall k :: len <= k < buf.Length ==> buf[k] == old(buf[k])
    {
      DigitStep(ds, len, temp);
      buf[len] := DigitChar(temp % 10);
      len := len + 1;
      temp := temp / 10;
    }
    ReversedOf(buf[..len], ds);
    assert buf[len..] == old(buf[len..]);
  }

  /** Once the first half of the positions is swapped with its mirror image, the string is reversed. */
  lemma SwappedAll(b: string, before: string, j: nat)
    requires |b| == |before| && j == |b| / 2
    requires forall k :: 0 <= k < j ==> b[k] == before[|b| - 1 - k] && b[|b| - 1 - k] == before[k]
    requires forall k :: j <= k < |b| - j ==> b[k] == before[k]
    ensures b == Reversed(before)
  {
    var n := |b|;
    forall k | 0 <= k < n
      ensures before[k] == b[n - 1 - k]
    {
      if k >= n - j {
        var m := n - 1 - k;
        assert m < j && b[m] == before[n - 1 - m];
      } else if k >= j {
        assert k == n - 1 - k;
      }
    }
    ReversedOf(before, b);
  }

  /** The second half: the first len characters of buf reversed in place. */
  method ReversePrefix(buf: array<char>, len: nat)
    requires len <= buf.Length
    modifies buf
    ensures buf[..len] == Reversed(old(buf[..len]))
    ensures buf[len..] == old(buf[len..])
  {
    ghost var before := buf[..len];
    var j := 0;
    while j < len / 2
      invariant 0 <= j <= len / 2
      invariant forall k :: 0 <= k < j ==> buf[k] == before[len - 1 - k] && buf[len - 1 - k] == before[k]
      invariant forall k :: j <= k < len - j ==> buf[k] == before[k]
      invariant forall k :: len <= k < buf.Length ==> buf[k] == old(buf[k])
    {
      buf[j], buf[len - 1 - j] := buf[len - 1 - j], buf[j];
      j := j + 1;
    }
    SwappedAll(buf[..len], before, j);
    assert buf[len..] == old(buf[len..]);
  }

  /**
   * The integer-to-string conversion of print_history: digits are written
   * least significant first into a 16-character buffer, which is then reversed
   * in place and terminated.
   */
  method IntToString(n: nat) returns (s: string)
    requires n <= INT_MAX
    ensures s == Decimal(n)
  {
    IntFitsTenDigits(n);
    var numStr := new char[16];
    var len := WriteDigitsBackwards(numStr, n);
    ReversePrefix(numStr, len);
    numStr[len] := '\0';
    s := numStr[..len];
  }
}
