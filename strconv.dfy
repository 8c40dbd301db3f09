/** The value Go's `strconv.ParseUint(s, 10, 32)` returns (its error
    discarded, as the Retry-After handling does), and decimal formatting as
    its inverse. */
module Strconv {

  const MaxUint32: nat := 0xFFFF_FFFF

  predicate IsDigit(c: char) {
    '0' <= c <= '9'
  }

  predicate AllDigits(s: string) {
    forall k :: 0 <= k < |s| ==> IsDigit(s[k])
  }

  function DigitValue(c: char): (d: nat)
    requires IsDigit(c)
    ensures d < 10
  {
    c as int - '0' as int
  }

  function DigitChar(d: nat): (c: char)
    requires d < 10
    ensures IsDigit(c) && DigitValue(c) == d
  {
    (d + '0' as int) as char
  }

  /** The exact decimal value of a digit string, read left to right from
      the accumulator `n` and never saturated. */
  function Fold(s: string, n: nat): nat
    requires AllDigits(s)
    decreases |s|
  {
    if s == [] then n else Fold(s[1..], n * 10 + DigitValue(s[0]))
  }

  function DecimalValue(s: string): nat
    requires AllDigits(s)
  {
    Fold(s, 0)
  }

  /** The digit loop of ParseUint: a byte that is not a decimal digit gives
      0 (a syntax error), a value that would pass the 32-bit maximum gives
      that maximum at once (a range error, before the rest is looked at). */
  function Accumulate(s: string, n: nat): (u: nat)
    requires n <= MaxUint32
    ensures u <= MaxUint32
    decreases |s|
  {
    if s == [] then n
    else if !IsDigit(s[0]) then 0
    else
      var n1 := n * 10 + DigitValue(s[0]);
      if n1 > MaxUint32 then MaxUint32 else Accumulate(s[1..], n1)
  }

  /** strconv.ParseUint(s, 10, 32) without its error: the empty string and
      any string starting with a non-digit parse as 0. */
  function ParseUint32(s: string): (u: nat)
    ensures u <= MaxUint32
    ensures s == [] || !IsDigit(s[0]) ==> u == 0
  {
    if s == [] then 0 else Accumulate(s, 0)
  }

  /** The digit loop reaching a non-digit at position `k`: a syntax error
      (0) when the digits before it stay within 32 bits, otherwise the range
      error (the maximum) that stopped the loop before it got there. */
  lemma {:induction false} AccumulateStops(s: string, n: nat, k: nat)
    requires n <= MaxUint32 && k < |s| && AllDigits(s[..k]) && !IsDigit(s[k])
    ensures Accumulate(s, n) == if Fold(s[..k], n) <= MaxUint32 then 0 else MaxUint32
    decreases k
  {
    if k > 0 {
      var n1 := n * 10 + DigitValue(s[0]);
      assert s[..k][1..] == s[1..][..k - 1];
      FoldGrows(s[1..][..k - 1], n1);
      if n1 <= MaxUint32 {
        AccumulateStops(s[1..], n1, k - 1);
      }
    }
  }

  /** A string whose first non-digit is at position `k` parses as 0 when
      the digits before it fit in 32 bits, and as the maximum when they do
      not. */
  lemma ParseUint32Stops(s: string, k: nat)
    requires k < |s| && AllDigits(s[..k]) && !IsDigit(s[k])
    ensures ParseUint32(s) == if DecimalValue(s[..k]) <= MaxUint32 then 0 else MaxUint32
  {
    AccumulateStops(s, 0, k);
  }

  /** strconv.FormatUint(n, 10): the shortest decimal representation. */
  function FormatUint(n: nat): (s: string)
    ensures |s| > 0 && AllDigits(s)
    ensures |s| > 1 ==> s[0] != '0'
  {
    if n < 10 then [DigitChar(n)] else FormatUint(n / 10) + [DigitChar(n % 10)]
  }

  lemma {:induction false} FoldGrows(s: string, n: nat)
    requires AllDigits(s)
    ensures Fold(s, n) >= n
    decreases |s|
  {
    if s != [] {
      FoldGrows(s[1..], n * 10 + DigitValue(s[0]));
    }
  }

  /** Appending a digit multiplies the value read so far by ten. */
  lemma {:induction false} FoldSnoc(t: string, c: char, n: nat)
    requires AllDigits(t) && IsDigit(c)
    ensures AllDigits(t + [c])
    ensures Fold(t + [c], n) == Fold(t, n) * 10 + DigitValue(c)
    decreases |t|
  {
    if t == [] {
      assert t + [c] == [c];
    } else {
      assert (t + [c])[1..] == t[1..] + [c];
      FoldSnoc(t[1..], c, n * 10 + DigitValue(t[0]));
    }
  }

  /** Below the 32-bit maximum the digit loop computes the exact value. */
  lemma {:induction false} AccumulateExact(s: string, n: nat)
    requires AllDigits(s) && n <= MaxUint32 && Fold(s, n) <= MaxUint32
    ensures Accumulate(s, n) == Fold(s, n)
    decreases |s|
  {
    if s != [] {
      var n1 := n * 10 + DigitValue(s[0]);
      FoldGrows(s[1..], n1);
      AccumulateExact(s[1..], n1);
    }
  }

  /** Above the maximum the digit loop saturates. */
  lemma {:induction false} AccumulateSaturates(s: string, n: nat)
    requires AllDigits(s) && n <= MaxUint32 && Fold(s, n) > MaxUint32
    ensures Accumulate(s, n) == MaxUint32
    decreases |s|
  {
    var n1 := n * 10 + DigitValue(s[0]);
    if n1 <= MaxUint32 {
      AccumulateSaturates(s[1..], n1);
    }
  }

  /** A non-empty digit string parses to its value, or to the 32-bit
      maximum when its value is out of range. */
  lemma ParseUint32Digits(s: string)
    requires s != [] && AllDigits(s)
    ensures ParseUint32(s) == if DecimalValue(s) <= MaxUint32 then DecimalValue(s) else MaxUint32
  {
    if DecimalValue(s) <= MaxUint32 {
      AccumulateExact(s, 0);
    } else {
      AccumulateSaturates(s, 0);
    }
  }

  lemma {:induction false} FormatUintValue(n: nat)
    ensures DecimalValue(FormatUint(n)) == n
  {
    if n < 10 {
      var s := FormatUint(n);
      assert s == [DigitChar(n)] && s[1..] == [];
      assert Fold(s, 0) == Fold(s[1..], DigitValue(s[0]));
    } else {
      var t, c := FormatUint(n / 10), DigitChar(n % 10);
      FormatUintValue(n / 10);
      FoldSnoc(t, c, 0);
      assert FormatUint(n) == t + [c];
      assert DecimalValue(FormatUint(n)) == (n / 10) * 10 + n % 10;
    }
  }

  /** Parsing what FormatUint prints gives the number back. */
  lemma ParseFormatRoundTrip(n: nat)
    requires n <= MaxUint32
    ensures ParseUint32(FormatUint(n)) == n
  {
    FormatUintValue(n);
    ParseUint32Digits(FormatUint(n));
  }
}
