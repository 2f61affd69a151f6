/** Amounts as the HomeBank exporter writes them (formatAmount in server/internal/exporter/xhb.go). */
module HomeBankAmount {
  import opened Options
  import opened Decimal
  import opened Division
  import opened Money
  import MoneyRoundTrip

  /** The page's way of writing an amount with '.', no grouping and no symbol. */
  function Plain(frac: int): MoneyFormat {
    MoneyFormat(frac, ".", "", "", false)
  }

  /** Cutting the padded digits before the last `frac` is dividing by the power of ten. */
  lemma PaddedSplits(n: nat, k: nat, frac: nat)
    requires frac >= 1
    requires var digits := Zeros(k) + Text(n);
             |digits| > frac && (k > 0 ==> |digits| == frac + 1)
    ensures var digits := Zeros(k) + Text(n);
            && digits[..|digits| - frac] == Text(Quotient(n, Pow10(frac)))
            && digits[|digits| - frac..] == Padded(Remainder(n, Pow10(frac)), frac)
  {
    var digits := Zeros(k) + Text(n);
    var left, right := digits[..|digits| - frac], digits[|digits| - frac..];
    assert digits == left + right;
    TextIsDecimal(n);
    ValueZeros(k);
    ValueConcat(Zeros(k), Text(n));
    Zero(Pow10(|Text(n)|));
    ValueConcat(left, right);
    ValueBound(right);
    Unique(n, Pow10(frac), Value(left), Value(right));
    CanonicalIsText(left);
    Divides(n, Pow10(frac));
    MoneyRoundTrip.PaddedDigits(Value(right), frac);
    SameLengthSameValue(right, Padded(Value(right), frac));
  }

  /** Zeros in front until there are more digits than decimals. */
  method PadPast(text: string, frac: nat) returns (digits: string, ghost k: nat)
    ensures digits == Zeros(k) + text && |digits| > frac && (k > 0 ==> |digits| == frac + 1)
  {
    digits, k := text, 0;
    while |digits| <= frac
      invariant digits == Zeros(k) + text && (k > 0 ==> |digits| <= frac + 1)
    {
      digits := ['0'] + digits;
      k := k + 1;
      assert Zeros(k) == ['0'] + Zeros(k - 1);
    }
  }

  method FormatAmount(minor: int, frac: int) returns (out: string)
    ensures out == Formatted(minor, Plain(frac))
  {
    hide Formatted, Padded, Quotient, Remainder, Text, Zeros, Pow10;
    var neg := minor < 0;
    var abs: nat := if neg then 0 - minor else minor;
    var digits := Text(abs);
    if frac <= 0 {
      out := digits;
    } else {
      ghost var k;
      digits, k := PadPast(digits, frac);
      PaddedSplits(abs, k, frac);
      var left, right := digits[..|digits| - frac], digits[|digits| - frac..];
      assert left == Text(Quotient(abs, Pow10(frac))) && right == Padded(Remainder(abs, Pow10(frac)), frac);
      out := left + "." + right;
    }
    if neg {
      out := "-" + out;
    }
    PlainPieces(minor, frac);
  }

  lemma PlainPieces(minor: int, frac: int)
    ensures var n := if minor < 0 then 0 - minor else minor;
            var number := if frac <= 0 then Text(n)
                          else Text(Quotient(n, Pow10(frac))) + "." + Padded(Remainder(n, Pow10(frac)), frac);
            Formatted(minor, Plain(frac)) == if minor < 0 then "-" + number else number
  {
    hide Text, Padded, Quotient, Remainder, Zeros;
    var n := if minor < 0 then 0 - minor else minor;
    var whole := Text(Quotient(n, Pow10(Max0(frac))));
    Ungrouped(whole);
    if frac <= 0 {
      One(n);
      assert Pow10(0) == 1;
      Unique(n, 1, n, 0);
      Glue(minor < 0, whole, "");
    } else {
      Glue(minor < 0, whole, "." + Padded(Remainder(n, Pow10(frac)), frac));
    }
  }

  lemma Ungrouped(digits: string)
    ensures Grouped(digits, GroupMark("")) == digits
  {
  }

  lemma Glue(negative: bool, whole: string, rest: string)
    ensures ((((if negative then "-" else "") + "") + whole) + rest) + ""
         == if negative then "-" + (whole + rest) else whole + rest
    ensures rest == "" ==> whole + rest == whole
  {
  }

  /** The text written for HomeBank is the page's, and reads back as the amount. */
  lemma WrittenReadsBack(minor: int, frac: int)
    ensures Parsed(Formatted(minor, Plain(frac)), frac, ".") == Some(minor)
    ensures ParsedSmart(Formatted(minor, Plain(frac)), frac) == Some(minor)
  {
    hide Parsed, ParsedSmart, Formatted;
    MoneyRoundTrip.ParseMinorUndoesFormatMinor(Plain(frac));
    MoneyRoundTrip.ParseAmountSmartUndoesFormatMinor(Plain(frac));
  }
}
