/** Decimal digit strings: printing, reading, and powers of ten. */
module Digits {

  predicate IsDigit(c: char) { '0' <= c <= '9' }

  predicate AllDigits(s: string) {
    forall i :: 0 <= i < |s| ==> IsDigit(s[i])
  }

  function DigitChar(d: nat): char
    requires d < 10
  {
    '0' + d as char
  }

  function DigitValue(c: char): nat {
    if IsDigit(c) then (c - '0') as nat else 0
  }

  /** The number a digit string denotes. */
  function Value(s: string): nat {
    if s == [] then 0 else 10 * Value(s[..|s| - 1]) + DigitValue(s[|s| - 1])
  }

  /** Decimal rendering without leading zeros. */
  function Print(n: nat): string {
    if n < 10 then [DigitChar(n)] else Print(n / 10) + [DigitChar(n % 10)]
  }

  function Pow10(k: nat): nat {
    if k == 0 then 1 else 10 * Pow10(k - 1)
  }

  lemma DigitRoundTrip(d: nat)
    requires d < 10
    ensures IsDigit(DigitChar(d)) && DigitValue(DigitChar(d)) == d
  {
  }

  lemma {:induction false} ValuePrint(n: nat)
    ensures AllDigits(Print(n)) && Print(n) != [] && Value(Print(n)) == n
    ensures Print(n)[0] == '0' ==> n == 0
  {
    DigitRoundTrip(n % 10);
    if n < 10 {
      assert Value([DigitChar(n)]) == 10 * Value([]) + DigitValue(DigitChar(n));
    } else {
      ValuePrint(n / 10);
      var s := Print(n);
      assert s[..|s| - 1] == Print(n / 10);
    }
  }

  lemma ShortValues(a: char, b: char)
    ensures Value([a]) == DigitValue(a) && Value([a, b]) == 10 * DigitValue(a) + DigitValue(b)
  {
    assert [a][..0] == [] && [a, b][..1] == [a];
  }

  lemma {:induction false} ValueConcat(a: string, b: string)
    ensures Value(a + b) == Value(a) * Pow10(|b|) + Value(b)
  {
    if b == [] {
      assert a + b == a;
    } else {
      var c := b[..|b| - 1];
      ValueConcat(a, c);
      assert (a + b)[..|a + b| - 1] == a + c;
      assert Value(a) * Pow10(|b|) == 10 * (Value(a) * Pow10(|c|));
    }
  }

  lemma {:induction false} Pow10Positive(k: nat)
    ensures 0 < Pow10(k)
  {
    if k == 0 {
    } else {
      Pow10Positive(k - 1);
    }
  }

  lemma {:induction false} Pow10Add(j: nat, k: nat)
    ensures Pow10(j + k) == Pow10(j) * Pow10(k)
  {
    if j == 0 {
    } else {
      Pow10Add(j - 1, k);
      assert 10 * (Pow10(j - 1) * Pow10(k)) == Pow10(j) * Pow10(k);
    }
  }

  /** The length of the leading run of digits. */
  function DigitRun(s: string): (n: nat)
    ensures n <= |s| && AllDigits(s[..n]) && (n < |s| ==> !IsDigit(s[n]))
  {
    if s == [] || !IsDigit(s[0]) then 0
    else
      var n := 1 + DigitRun(s[1..]);
      assert s[..n] == [s[0]] + s[1..][..n - 1];
      n
  }

  lemma {:induction false} DigitRunIs(a: string, rest: string)
    requires AllDigits(a) && (rest != [] ==> !IsDigit(rest[0]))
    ensures DigitRun(a + rest) == |a|
  {
    if a == [] {
      assert a + rest == rest;
    } else {
      assert (a + rest)[1..] == a[1..] + rest;
      DigitRunIs(a[1..], rest);
    }
  }

  /** Numbers below 10^k print in at most k digits. */
  lemma {:induction false} PrintShort(n: nat, k: nat)
    requires 0 < k && n < Pow10(k)
    ensures |Print(n)| <= k
  {
    if 10 <= n {
      PrintShort(n / 10, k - 1);
    }
  }

  lemma {:induction false} ValueZeros(s: string)
    requires forall i :: 0 <= i < |s| ==> s[i] == '0'
    ensures Value(s) == 0
  {
    if s == [] {
    } else {
      ValueZeros(s[..|s| - 1]);
    }
  }
}
