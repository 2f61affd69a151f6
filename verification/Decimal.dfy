/** Digit strings: how a number is written in base ten, and the value it reads back as. */
module Decimal {
  import opened Division

  predicate IsDigit(c: char) {
    '0' <= c <= '9'
  }

  ghost predicate AllDigits(s: string) {
    forall i :: 0 <= i < |s| ==> IsDigit(s[i])
  }

  function DigitChar(d: nat): char
    requires d < 10
  {
    ('0' as int + d) as char
  }

  function DigitValue(c: char): nat
    requires IsDigit(c)
  {
    c as int - '0' as int
  }

  function Pow10(k: nat): (p: nat)
    ensures p >= 1
  {
    if k == 0 then 1 else 10 * Pow10(k - 1)
  }

  /** The text of n, with no leading zero (`String(n)`, `strconv.FormatInt`). */
  function Text(n: nat): string {
    if n < 10 then [DigitChar(n)] else Text(n / 10) + [DigitChar(n % 10)]
  }

  function Value(s: string): nat
    requires AllDigits(s)
  {
    if s == "" then 0 else 10 * Value(s[..|s| - 1]) + DigitValue(s[|s| - 1])
  }

  function Zeros(k: nat): string {
    seq(k, _ => '0')
  }

  /** The digits of a string, in order. */
  function Digits(s: string): (r: string)
    ensures AllDigits(r)
  {
    if s == "" then ""
    else Digits(s[..|s| - 1]) + (if IsDigit(s[|s| - 1]) then [s[|s| - 1]] else "")
  }

  lemma {:induction false} Pow10Sum(a: nat, b: nat)
    ensures Pow10(a + b) == Times(Pow10(a), Pow10(b))
  {
    if b == 0 {
      One(Pow10(a));
    } else {
      Pow10Sum(a, b - 1);
      ScaleRight(10, Pow10(a), Pow10(b - 1));
    }
  }

  lemma {:induction false} TextIsDecimal(n: nat)
    ensures AllDigits(Text(n)) && |Text(n)| >= 1 && Value(Text(n)) == n
    ensures n >= 10 ==> |Text(n)| >= 2
    ensures n > 0 ==> Text(n)[0] != '0'
  {
    if n >= 10 {
      TextIsDecimal(n / 10);
      assert Text(n)[..|Text(n)| - 1] == Text(n / 10);
    }
  }

  /** Two digit strings of one length and one value are the same string. */
  lemma {:induction false} SameLengthSameValue(a: string, b: string)
    requires AllDigits(a) && AllDigits(b) && |a| == |b| && Value(a) == Value(b)
    ensures a == b
  {
    if a != "" {
      var p, q := a[..|a| - 1], b[..|b| - 1];
      assert DigitValue(a[|a| - 1]) == DigitValue(b[|b| - 1]);
      SameLengthSameValue(p, q);
      assert a == p + [a[|a| - 1]] && b == q + [b[|b| - 1]];
    }
  }

  lemma {:induction false} ValueBound(s: string)
    requires AllDigits(s)
    ensures Value(s) < Pow10(|s|)
    ensures s != "" && s[0] != '0' ==> Value(s) >= Pow10(|s| - 1)
  {
    if s != "" {
      ValueBound(s[..|s| - 1]);
    }
  }

  lemma {:induction false} ValueConcat(a: string, b: string)
    requires AllDigits(a) && AllDigits(b)
    ensures AllDigits(a + b) && Value(a + b) == Times(Value(a), Pow10(|b|)) + Value(b)
  {
    if b == "" {
      assert a + b == a;
      One(Value(a));
    } else {
      var p := b[..|b| - 1];
      assert (a + b)[..|a + b| - 1] == a + p;
      ValueConcat(a, p);
      ScaleRight(10, Value(a), Pow10(|p|));
      assert (a + b)[|a + b| - 1] == b[|b| - 1];
    }
  }

  lemma {:induction false} ValueZeros(k: nat)
    ensures AllDigits(Zeros(k)) && Value(Zeros(k)) == 0
  {
    if k > 0 {
      assert Zeros(k)[..k - 1] == Zeros(k - 1);
      ValueZeros(k - 1);
    }
  }

  /** A digit string with no leading zero is the text of its value. */
  lemma {:induction false} CanonicalIsText(s: string)
    requires AllDigits(s) && |s| >= 1 && (|s| == 1 || s[0] != '0')
    ensures s == Text(Value(s))
  {
    var p, d := s[..|s| - 1], s[|s| - 1];
    assert s == p + [d] && DigitChar(DigitValue(d)) == d;
    if p == "" {
      assert Value(s) == DigitValue(d);
    } else {
      ValueBound(p);
      CanonicalIsText(p);
      assert Value(s) / 10 == Value(p) && Value(s) % 10 == DigitValue(d);
    }
  }

  lemma {:induction false} Pow10Monotone(a: nat, b: nat)
    requires a <= b
    ensures Pow10(a) <= Pow10(b)
  {
    if a < b {
      Pow10Monotone(a, b - 1);
    }
  }

  lemma {:induction false} TextLength(n: nat, k: nat)
    requires n < Pow10(k) && k >= 1
    ensures |Text(n)| <= k
  {
    if n >= 10 {
      TextLength(n / 10, k - 1);
    }
  }

  lemma {:induction false} DigitsConcat(a: string, b: string)
    ensures Digits(a + b) == Digits(a) + Digits(b)
  {
    if b == "" {
      assert a + b == a;
    } else {
      assert (a + b)[..|a + b| - 1] == a + b[..|b| - 1];
      DigitsConcat(a, b[..|b| - 1]);
    }
  }

  lemma {:induction false} DigitsOfDigits(s: string)
    requires AllDigits(s)
    ensures Digits(s) == s
  {
    if s != "" {
      DigitsOfDigits(s[..|s| - 1]);
      assert s == s[..|s| - 1] + [s[|s| - 1]];
    }
  }

  lemma {:induction false} DigitsOfNone(s: string)
    requires forall i :: 0 <= i < |s| ==> !IsDigit(s[i])
    ensures Digits(s) == ""
  {
    if s != "" {
      DigitsOfNone(s[..|s| - 1]);
    }
  }
}
