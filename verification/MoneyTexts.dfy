/** How a printed amount looks, and what a typed one means, piece by piece (web/src/money.ts). */
module MoneyTexts {
  import opened Options
  import opened Decimal
  import opened Division
  import opened Money
  import opened MoneyRoundTrip

  // ----- printing -----

  /** Threes from the right with a mark between, the first of one to three digits; up to three digits have none. */
  ghost predicate InThrees(text: string, digits: string, mark: string) {
    if |digits| <= 3 || mark == "" then text == digits
    else exists parts :: AreThrees(parts, digits) && text == Join(parts, mark)
  }

  ghost predicate AreThrees(parts: seq<string>, digits: string) {
    && |parts| >= 1 && 1 <= |parts[0]| <= 3 && (forall i :: 1 <= i < |parts| ==> |parts[i]| == 3)
    && Join(parts, "") == digits
  }

  lemma JoinMore(parts: seq<string>, last: string, mark: string)
    requires parts != []
    ensures Join(parts + [last], mark) == Join(parts, mark) + mark + last
  {
    assert (parts + [last])[..|parts|] == parts;
  }

  lemma ThreesMore(parts: seq<string>, front: string, last: string)
    requires AreThrees(parts, front) && |last| == 3
    ensures AreThrees(parts + [last], front + last)
  {
    hide Join;
    JoinMore(parts, last, "");
    assert front + "" + last == front + last;
  }

  lemma OneGroup(digits: string, mark: string)
    requires 1 <= |digits| <= 3
    ensures AreThrees([digits], digits) && Grouped(digits, mark) == Join([digits], mark)
  {
  }

  lemma GroupedMore(front: string, last: string, mark: string)
    requires front != "" && |last| == 3 && mark != ""
    ensures Grouped(front + last, mark) == Grouped(front, mark) + mark + last
  {
    assert (front + last)[..|front|] == front && (front + last)[|front|..] == last;
  }

  lemma {:induction false} ThreesOf(digits: string, mark: string) returns (parts: seq<string>)
    requires digits != "" && mark != ""
    ensures AreThrees(parts, digits) && parts != [] && Grouped(digits, mark) == Join(parts, mark)
    decreases |digits|
  {
    hide Grouped, Join, AreThrees;
    if |digits| <= 3 {
      parts := [digits];
      OneGroup(digits, mark);
    } else {
      var n := |digits| - 3;
      var front, last := digits[..n], digits[n..];
      assert digits == front + last;
      parts := ThreesOf(front, mark);
      ThreesMore(parts, front, last);
      GroupedMore(front, last, mark);
      JoinMore(parts, last, mark);
      parts := parts + [last];
    }
  }

  lemma GroupedInThrees(digits: string, mark: string)
    requires digits != ""
    ensures InThrees(Grouped(digits, mark), digits, mark)
  {
    if mark != "" && |digits| > 3 {
      var parts := ThreesOf(digits, mark);
    }
  }

  /**
   * A printed amount: a minus if negative, the symbol in front if it goes there, the whole units in threes, the mark and
   * the decimals if there are any, a space and the symbol if it goes behind. The digits are the amount's, with no
   * needless zero before and every decimal there. A space between threes is a non-breaking one.
   */
  lemma PrintedPieces(amount: int, fmt: MoneyFormat) returns (whole: string, threes: string, decimals: string)
    ensures PlainNumber(whole, decimals, Abs(amount), if fmt.fracDigits > 0 then fmt.fracDigits else 0)
    ensures InThrees(threes, whole, if fmt.groupChar == " " then "\U{00A0}" else fmt.groupChar)
    ensures Formatted(amount, fmt)
            == (if amount < 0 then "-" else "") + (if fmt.symbolPrefix then fmt.symbol else "") + threes
               + (if fmt.fracDigits > 0 then (if fmt.decimalChar == "" then "." else fmt.decimalChar) + decimals else "")
               + (if fmt.symbol != "" && !fmt.symbolPrefix then " " + fmt.symbol else "")
  {
    hide Grouped, Whole, Fraction, Abs, PlainNumber, InThrees;
    whole, decimals := Whole(amount, fmt), Fraction(amount, fmt);
    threes := Thousands(amount, fmt);
    PlainDigits(amount, fmt);
    WholeIsThere(amount, fmt);
    GroupedInThrees(whole, GroupMark(fmt.groupChar));
    Pieces(amount, fmt);
    Joined(Sign(amount) + Lead(fmt) + threes, Point(fmt), decimals, Tail(fmt));
    NoDecimals(amount, fmt);
  }

  lemma WholeIsThere(amount: int, fmt: MoneyFormat)
    ensures Whole(amount, fmt) != ""
  {
    TextIsDecimal(Quotient(Abs(amount), Pow10(Max0(fmt.fracDigits))));
  }

  lemma NoDecimals(amount: int, fmt: MoneyFormat)
    ensures fmt.fracDigits <= 0 ==> Point(fmt) == "" && Fraction(amount, fmt) == ""
  {
  }

  lemma Joined(a: string, b: string, c: string, d: string)
    ensures a + ((b + c) + d) == a + (b + c) + d
  {
  }

  // ----- what a typed text means -----

  /** The number n with m decimals, in minor units: the nearest one, a half away from zero; negated if it is negative. */
  ghost predicate IsAmount(r: Option<int>, digits: string, m: nat, frac: nat, negative: bool) {
    && AllDigits(digits)
    && (digits == "" <==> r == None)
    && (digits != "" ==>
          exists k: nat ::
            && r == Some(if negative then 0 - k else k)
            && 2 * (k * Pow10(m)) - Pow10(m) <= 2 * (Value(digits) * Pow10(frac)) < 2 * (k * Pow10(m)) + Pow10(m))
  }

  lemma ReadIsAmount(whole: string, decimals: string, frac: nat, negative: bool)
    requires AllDigits(whole) && AllDigits(decimals)
    ensures IsAmount(Read(whole, decimals, frac, negative), whole + decimals, |decimals|, frac, negative)
  {
    hide Value, Rounded, Pow10;
    var m, digits := |decimals|, whole + decimals;
    assert digits == "" <==> whole == "" && decimals == "";
    if digits != "" {
      var k: nat := Rounded(Value(digits), m, frac);
      var amount: int := k;
      RoundedIsNearest(Value(digits), m, frac);
      Product(k, Pow10(m));
      Product(Value(digits), Pow10(frac));
      if negative {
        amount := 0 - amount;
      }
      assert Read(whole, decimals, frac, negative) == Some(amount);
    }
  }

  /** Negative is a minus anywhere, or parentheses around all of it. */
  predicate LooksNegative(s: string) {
    (exists i :: 0 <= i < |s| && s[i] == '-') || (|s| >= 1 && s[0] == '(' && s[|s| - 1] == ')')
  }

  lemma NegativeLooks(s: string)
    ensures Negative(s) <==> LooksNegative(s)
  {
  }

  /** The digits in front of the first mark are whole units, those behind it decimals; the rest of the text does not count. */
  lemma ParsedAtTheMark(a: string, c: char, b: string, fracDigits: int, decimalChar: string)
    requires Trim(a + [c] + b) == a + [c] + b && !IsDigit(c) && c == (if decimalChar == "" then '.' else decimalChar[0])
    requires forall i :: 0 <= i < |a| ==> a[i] != c
    ensures var s := a + [c] + b;
            IsAmount(Parsed(s, fracDigits, decimalChar), Digits(a) + Digits(b), |Digits(b)|,
                     if fracDigits > 0 then fracDigits else 0, LooksNegative(s))
  {
    hide Trim, Negative, IsAmount, Read, Digits, LooksNegative;
    var s := a + [c] + b;
    assert SplitMark(decimalChar) == {c};
    FirstMark(s, {c}, |a|);
    assert s[..|a|] == a && s[|a| + 1..] == b;
    NegativeLooks(s);
    ReadIsAmount(Digits(a), Digits(b), Max0(fracDigits), Negative(s));
  }

  /** Without a mark all digits are whole units. */
  lemma ParsedWithoutMark(s: string, fracDigits: int, decimalChar: string)
    requires Trim(s) == s
    requires forall i :: 0 <= i < |s| ==> s[i] != (if decimalChar == "" then '.' else decimalChar[0])
    ensures IsAmount(Parsed(s, fracDigits, decimalChar), Digits(s), 0, if fracDigits > 0 then fracDigits else 0, LooksNegative(s))
  {
    hide Trim, Negative, IsAmount, Read, LooksNegative;
    var mark := SplitMark(decimalChar);
    FirstMark(s, mark, |s|);
    assert s[..|s|] == s;
    NegativeLooks(s);
    ReadIsAmount(Digits(s), Digits(""), Max0(fracDigits), Negative(s));
    assert Digits(s) + "" == Digits(s);
  }

  /** The lenient parser starts the decimals at the last point or comma. */
  lemma SmartAtTheLast(a: string, c: char, b: string, fracDigits: int)
    requires Trim(a + [c] + b) == a + [c] + b && fracDigits > 0 && (c == '.' || c == ',')
    requires forall i :: 0 <= i < |b| ==> b[i] != '.' && b[i] != ','
    ensures var s := a + [c] + b;
            IsAmount(ParsedSmart(s, fracDigits), Digits(a) + Digits(b), |Digits(b)|, fracDigits, LooksNegative(s))
  {
    hide Trim, Negative, IsAmount, Read, Digits, LooksNegative;
    var s := a + [c] + b;
    LastSplits(a, c, b);
    NegativeLooks(s);
    ReadIsAmount(Digits(a), Digits(b), fracDigits, Negative(s));
  }

  lemma {:induction false} LastSplits(a: string, c: char, b: string)
    requires IsSeparator(c) && forall i :: 0 <= i < |b| ==> !IsSeparator(b[i])
    ensures var s := a + [c] + b; HasSeparator(s) && BeforeLast(s) == a && AfterLast(s) == b
    decreases |b|
  {
    hide HasSeparator, BeforeLast, AfterLast;
    if b == "" {
      LastMore(a, c);
      assert a + [c] + b == a + [c];
    } else {
      var n := |b| - 1;
      LastSplits(a, c, b[..n]);
      LastMore(a + [c] + b[..n], b[n]);
      assert b == b[..n] + [b[n]];
      assert a + [c] + b == (a + [c] + b[..n]) + [b[n]];
    }
  }

  /** Without a point or comma, or in a currency without decimals, all digits are whole units. */
  lemma SmartWithoutLast(s: string, fracDigits: int)
    requires Trim(s) == s && (fracDigits <= 0 || forall i :: 0 <= i < |s| ==> s[i] != '.' && s[i] != ',')
    ensures IsAmount(ParsedSmart(s, fracDigits), Digits(s), 0, if fracDigits > 0 then fracDigits else 0, LooksNegative(s))
  {
    hide Trim, Negative, IsAmount, Read, LooksNegative, HasSeparator, BeforeLast, AfterLast;
    NegativeLooks(s);
    ReadIsAmount(Digits(s), "", Max0(fracDigits), Negative(s));
    assert Digits(s) + "" == Digits(s);
    if fracDigits > 0 {
      NoSeparator(s);
      NotSplit(s);
      assert Digits("") == "";
    }
  }

  lemma {:induction false} NoSeparator(s: string)
    requires forall i :: 0 <= i < |s| ==> !IsSeparator(s[i])
    ensures !HasSeparator(s)
  {
    if s != "" {
      NoSeparator(s[..|s| - 1]);
    }
  }

  /** Spaces around do not count. */
  lemma SpacesDoNotCount(c: char, s: string, d: char, fracDigits: int, decimalChar: string)
    requires IsSpace(c) && IsSpace(d)
    ensures Parsed([c] + s + [d], fracDigits, decimalChar) == Parsed(s, fracDigits, decimalChar)
    ensures ParsedSmart([c] + s + [d], fracDigits) == ParsedSmart(s, fracDigits)
  {
    TrimmedTwice(c, s, d);
  }

  lemma TrimmedTwice(c: char, s: string, d: char)
    requires IsSpace(c) && IsSpace(d)
    ensures Trim([c] + s + [d]) == Trim(s)
  {
    hide IsSpace;
    assert ([c] + s + [d])[1..] == s + [d];
    StartThenEnd(s, d);
  }

  lemma {:induction false} StartThenEnd(s: string, d: char)
    requires IsSpace(d)
    ensures TrimEnd(TrimStart(s + [d])) == TrimEnd(TrimStart(s))
  {
    hide IsSpace;
    if s == "" {
      assert s + [d] == [d] && [d][1..] == "";
    } else if IsSpace(s[0]) {
      assert (s + [d])[1..] == s[1..] + [d];
      StartThenEnd(s[1..], d);
    } else {
      assert (s + [d])[..|s|] == s;
    }
  }

  /** The digits of a text are its digits, in order. */
  lemma {:induction false} DigitsInOrder(a: string, c: char, b: string)
    ensures Digits(a + [c] + b) == Digits(a) + (if '0' <= c <= '9' then [c] else "") + Digits(b)
  {
    DigitsConcat(a + [c], b);
    DigitsConcat(a, [c]);
    assert [c][..0] == "";
  }

  /** The number a digit string stands for, and the powers of ten, written out. */
  lemma NumbersInTens(a: string, c: char, k: nat)
    requires AllDigits(a) && '0' <= c <= '9'
    ensures AllDigits(a + [c]) && Value(a + [c]) == 10 * Value(a) + (c as int - '0' as int) && Value("") == 0
    ensures Pow10(0) == 1 && Pow10(k + 1) == 10 * Pow10(k)
  {
    assert (a + [c])[..|a|] == a;
  }
}
