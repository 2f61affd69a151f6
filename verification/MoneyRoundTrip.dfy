/** When a printed amount reads back as itself, for each of the two parsers. */
module MoneyRoundTrip {
  import opened Options
  import opened Decimal
  import opened Division
  import opened Money

  // ----- what the marks must look like -----

  ghost predicate NoDigit(s: string) {
    forall i :: 0 <= i < |s| ==> !IsDigit(s[i])
  }

  ghost predicate MarksHaveNoDigit(fmt: MoneyFormat) {
    NoDigit(GroupMark(fmt.groupChar)) && NoDigit(DecimalMark(fmt.decimalChar)) && NoDigit(fmt.symbol)
  }

  /** Nothing printed beside the number holds a minus sign. */
  predicate NoMinus(fmt: MoneyFormat) {
    '-' !in fmt.symbol && '-' !in GroupMark(fmt.groupChar)
    && (fmt.fracDigits > 0 ==> '-' !in DecimalMark(fmt.decimalChar))
  }

  /** What `parseMinor` needs: its mark stands nowhere before the decimals. */
  predicate Readable(fmt: MoneyFormat) {
    var dc := DecimalMark(fmt.decimalChar)[0];
    NoMinus(fmt) && dc != '-' && dc !in GroupMark(fmt.groupChar) && (fmt.symbolPrefix ==> dc !in fmt.symbol)
  }

  /** What `parseAmountSmart` needs: '.' or ',' in the decimal mark and none in a trailing symbol. */
  predicate SmartReadable(fmt: MoneyFormat) {
    NoMinus(fmt)
    && (fmt.fracDigits > 0 ==> HasSeparator(DecimalMark(fmt.decimalChar)) && !HasSeparator(Tail(fmt)))
  }

  // ----- the printed pieces -----

  lemma {:induction false} GroupedDigits(d: string, mark: string)
    requires AllDigits(d) && NoDigit(mark)
    ensures Digits(Grouped(d, mark)) == d
    ensures forall c :: c in Grouped(d, mark) ==> IsDigit(c) || c in mark
    ensures d != "" ==>
              && Grouped(d, mark) != ""
              && IsDigit(Grouped(d, mark)[0])
              && IsDigit(Grouped(d, mark)[|Grouped(d, mark)| - 1])
    decreases |d|
  {
    hide Digits;
    if |d| <= 3 || mark == "" {
      DigitsOfDigits(d);
    } else {
      var front, back := d[..|d| - 3], d[|d| - 3..];
      GroupedDigits(front, mark);
      assert d == front + back;
      Between(Grouped(front, mark), mark, back);
    }
  }

  lemma Between(a: string, mark: string, b: string)
    requires AllDigits(b) && NoDigit(mark)
    ensures Digits(a + mark + b) == Digits(a) + b
    ensures forall c :: c in a + mark + b ==> c in a || c in mark || IsDigit(c)
  {
    hide Digits;
    DigitsOfNone(mark);
    DigitsOfDigits(b);
    DigitsConcat(a, mark);
    DigitsConcat(a + mark, b);
  }

  lemma PaddedDigits(n: nat, width: nat)
    requires n < Pow10(width) && width >= 1
    ensures var p := Padded(n, width); |p| == width && AllDigits(p) && Value(p) == n
  {
    TextIsDecimal(n);
    TextLength(n, width);
    var k := width - |Text(n)|;
    ValueZeros(k);
    ValueConcat(Zeros(k), Text(n));
    Zero(Pow10(|Text(n)|));
  }

  /** The digits printed, whole ones and decimals, stand for the amount again. */
  lemma PrintedValue(n: nat, frac: nat)
    ensures var whole := Text(Quotient(n, Pow10(frac)));
            var decimals := if frac > 0 then Padded(Remainder(n, Pow10(frac)), frac) else "";
            && AllDigits(whole) && whole != "" && AllDigits(decimals) && |decimals| == frac
            && Rounded(Value(whole + decimals), |decimals|, frac) == n
  {
    var q, r := Quotient(n, Pow10(frac)), Remainder(n, Pow10(frac));
    Divides(n, Pow10(frac));
    TextIsDecimal(q);
    var decimals := if frac > 0 then Padded(r, frac) else "";
    if frac > 0 {
      PaddedDigits(r, frac);
    }
    assert Value(decimals) == r;
    ValueConcat(Text(q), decimals);
    RoundedExact(n, frac, frac);
  }

  function Whole(amount: int, fmt: MoneyFormat): string {
    Text(Quotient(Abs(amount), Pow10(Max0(fmt.fracDigits))))
  }

  function Fraction(amount: int, fmt: MoneyFormat): string {
    var frac := Max0(fmt.fracDigits);
    if frac > 0 then Padded(Remainder(Abs(amount), Pow10(frac)), frac) else ""
  }

  function Sign(amount: int): string {
    if amount < 0 then "-" else ""
  }

  function Lead(fmt: MoneyFormat): string {
    if fmt.symbolPrefix then fmt.symbol else ""
  }

  function Thousands(amount: int, fmt: MoneyFormat): string {
    Grouped(Whole(amount, fmt), GroupMark(fmt.groupChar))
  }

  /** The decimal mark when there are decimals. */
  function Point(fmt: MoneyFormat): string {
    if fmt.fracDigits > 0 then DecimalMark(fmt.decimalChar) else ""
  }

  lemma Pieces(amount: int, fmt: MoneyFormat)
    ensures Formatted(amount, fmt)
         == ((Sign(amount) + Lead(fmt)) + Thousands(amount, fmt)) + ((Point(fmt) + Fraction(amount, fmt)) + Tail(fmt))
  {
    assert Decimals(amount, fmt) == Point(fmt) + Fraction(amount, fmt);
    Join3(Sign(amount) + Lead(fmt) + Thousands(amount, fmt), Decimals(amount, fmt), Tail(fmt));
  }

  lemma Join3(a: string, b: string, c: string)
    ensures (a + b) + c == a + (b + c)
  {
  }

  lemma TailHasNoDigit(fmt: MoneyFormat)
    requires MarksHaveNoDigit(fmt)
    ensures NoDigit(Tail(fmt)) && NoDigit(Point(fmt)) && NoDigit(Lead(fmt))
  {
  }

  // ----- trimming -----

  ghost predicate NotBlank(p: string) {
    exists i :: 0 <= i < |p| && !IsSpace(p[i])
  }

  lemma RestNotBlank(p: string)
    requires NotBlank(p) && IsSpace(p[0])
    ensures NotBlank(p[1..])
  {
    var i :| 0 <= i < |p| && !IsSpace(p[i]);
    assert !IsSpace(p[1..][i - 1]);
  }

  lemma {:induction false} TrimStartPieces(p: string, q: string)
    requires NotBlank(p)
    ensures TrimStart(p + q) == TrimStart(p) + q && TrimStart(p) != "" && !IsSpace(TrimStart(p)[0])
    ensures TrimStart(p)[|TrimStart(p)| - 1] == p[|p| - 1]
  {
    hide IsSpace;
    assert p != "" && (p + q)[0] == p[0];
    if IsSpace(p[0]) {
      RestNotBlank(p);
      TrimStartPieces(p[1..], q);
      assert (p + q)[1..] == p[1..] + q;
    }
  }

  lemma {:induction false} TrimStartKeeps(p: string)
    ensures Digits(TrimStart(p)) == Digits(p)
    ensures forall c :: c in TrimStart(p) ==> c in p
    ensures forall c :: c in p && !IsSpace(c) ==> c in TrimStart(p)
  {
    hide Digits;
    if p != "" && IsSpace(p[0]) {
      TrimStartKeeps(p[1..]);
      assert p == [p[0]] + p[1..];
      DigitsConcat([p[0]], p[1..]);
      SpaceIsNoDigit(p[0]);
    }
  }

  lemma SpaceIsNoDigit(c: char)
    requires IsSpace(c)
    ensures Digits([c]) == ""
  {
  }

  lemma {:induction false} TrimEndReads(s: string, mark: set<char>)
    ensures Digits(Before(TrimEnd(s), mark)) == Digits(Before(s, mark))
    ensures Digits(After(TrimEnd(s), mark)) == Digits(After(s, mark))
  {
    if s != "" && IsSpace(s[|s| - 1]) {
      var p, c := s[..|s| - 1], s[|s| - 1];
      TrimEndReads(p, mark);
      assert s == p + [c];
      OneAfter(p, c, mark);
      SpaceAdds(Before(p, mark), c);
      SpaceAdds(After(p, mark), c);
    }
  }

  lemma SpaceAdds(s: string, c: char)
    requires IsSpace(c)
    ensures Digits(s + [c]) == Digits(s)
  {
    assert (s + [c])[..|s|] == s;
  }

  lemma {:induction false} TrimEndKeeps(s: string)
    ensures forall c :: c in s && !IsSpace(c) ==> c in TrimEnd(s)
    ensures TrimEnd(s) <= s
    ensures s != "" && !IsSpace(s[|s| - 1]) ==> TrimEnd(s) == s
  {
    if s != "" && IsSpace(s[|s| - 1]) {
      TrimEndKeeps(s[..|s| - 1]);
      assert s == s[..|s| - 1] + [s[|s| - 1]];
    }
  }

  lemma {:induction false} OneAfter(p: string, c: char, mark: set<char>)
    ensures Before(p + [c], mark) == Before(p, mark) || Before(p + [c], mark) == Before(p, mark) + [c]
    ensures After(p + [c], mark) == After(p, mark) || After(p + [c], mark) == After(p, mark) + [c]
  {
    if p == "" {
      assert p + [c] == [c];
    } else {
      assert (p + [c])[1..] == p[1..] + [c];
      OneAfter(p[1..], c, mark);
      assert [p[0]] + (Before(p[1..], mark) + [c]) == ([p[0]] + Before(p[1..], mark)) + [c];
    }
  }

  lemma {:induction false} SplitPieces(p: string, q: string, mark: set<char>)
    requires forall c :: c in p ==> c !in mark
    ensures Before(p + q, mark) == p + Before(q, mark) && After(p + q, mark) == After(q, mark)
  {
    if p == "" {
      assert p + q == q;
    } else {
      assert (p + q)[1..] == p[1..] + q && p[0] in p;
      assert forall c :: c in p[1..] ==> c in p;
      SplitPieces(p[1..], q, mark);
    }
  }

  /** `parseMinor` on a text whose first piece holds no mark. */
  lemma ParsedPieces(p: string, q: string, frac: int, decimalChar: string)
    requires exists i :: 0 <= i < |p| && !IsSpace(p[i])
    requires forall c :: c in p ==> c !in SplitMark(decimalChar)
    ensures Parsed(p + q, frac, decimalChar) ==
            Read(Digits(p) + Digits(Before(q, SplitMark(decimalChar))), Digits(After(q, SplitMark(decimalChar))),
                 Max0(frac), Negative(Trim(p + q)))
  {
    var mark := SplitMark(decimalChar);
    TrimStartPieces(p, q);
    TrimStartKeeps(p);
    TrimEndReads(TrimStart(p) + q, mark);
    SplitPieces(TrimStart(p), q, mark);
    DigitsConcat(TrimStart(p), Before(q, mark));
  }

  /** Trimming keeps the first and the last character when they are not spaces. */
  lemma TrimEnds(s: string)
    requires exists i :: 0 <= i < |s| && !IsSpace(s[i])
    ensures Trim(s) != ""
    ensures !IsSpace(s[0]) ==> Trim(s)[0] == s[0]
    ensures !IsSpace(s[|s| - 1]) ==> Trim(s)[|Trim(s)| - 1] == s[|s| - 1]
    ensures '-' in Trim(s) <==> '-' in s
  {
    TrimStartPieces(s, "");
    TrimStartKeeps(s);
    assert s + "" == s && TrimStart(s) + "" == TrimStart(s);
    TrimEndKeeps(TrimStart(s));
    assert TrimStart(s)[0] in TrimEnd(TrimStart(s));
  }

  lemma {:induction false} NoneAround(s: string, mark: set<char>)
    requires NoDigit(s)
    ensures Digits(Before(s, mark)) == "" && Digits(After(s, mark)) == ""
  {
    if s != "" {
      if s[0] in mark {
        DigitsOfNone(s[1..]);
      } else {
        NoneAround(s[1..], mark);
        DigitsConcat([s[0]], Before(s[1..], mark));
      }
    }
  }

  lemma {:induction false} MarkInFront(p: string, q: string, mark: set<char>)
    requires NoDigit(p) && exists i :: 0 <= i < |p| && p[i] in mark
    ensures Digits(Before(p + q, mark)) == "" && Digits(After(p + q, mark)) == Digits(q)
  {
    assert (p + q)[0] == p[0] && (p + q)[1..] == p[1..] + q;
    if p[0] in mark {
      DigitsOfNone(p[1..]);
      DigitsConcat(p[1..], q);
    } else {
      var i :| 0 <= i < |p| && p[i] in mark;
      assert p[1..][i - 1] in mark;
      MarkInFront(p[1..], q, mark);
      DigitsConcat([p[0]], Before(p[1..] + q, mark));
    }
  }

  /** The sign is read from a minus sign alone when one end of the text is no parenthesis. */
  lemma NegativeRead(s: string)
    requires s != "" && (IsDigit(s[0]) || s[0] == '-' || IsDigit(s[|s| - 1]))
    ensures Negative(Trim(s)) <==> '-' in s
  {
    assert !IsSpace(s[0]) || !IsSpace(s[|s| - 1]);
    TrimEnds(s);
  }

  // ----- parseMinor, on the pieces of a text -----

  /** No mark before the decimals: both halves are read apart. */
  lemma ReadsApart(s: string, head: string, whole: string, point: string, decimals: string, tail: string, frac: int, decimalChar: string)
    requires Digits(head) == whole && head != "" && IsDigit(head[|head| - 1])
    requires forall c :: c in head ==> c !in SplitMark(decimalChar)
    requires AllDigits(decimals) && NoDigit(point) && NoDigit(tail)
    requires if point == "" then decimals == "" else point[0] in SplitMark(decimalChar)
    requires s == head + ((point + decimals) + tail)
    ensures Parsed(s, frac, decimalChar) == Read(whole, decimals, Max0(frac), Negative(Trim(s)))
  {
    var q := (point + decimals) + tail;
    assert head[|head| - 1] in head && !IsSpace(head[|head| - 1]);
    ParsedPieces(head, q, frac, decimalChar);
    AfterPoint(point, decimals, tail, SplitMark(decimalChar));
    assert whole + "" == whole;
  }

  lemma AfterPoint(point: string, decimals: string, tail: string, mark: set<char>)
    requires AllDigits(decimals) && NoDigit(point) && NoDigit(tail)
    requires if point == "" then decimals == "" else point[0] in mark
    ensures var q := (point + decimals) + tail;
            Digits(Before(q, mark)) == "" && Digits(After(q, mark)) == decimals
  {
    var q := (point + decimals) + tail;
    if point == "" {
      assert q == tail;
      NoneAround(tail, mark);
    } else {
      assert q[0] == point[0] && q[1..] == (point[1..] + decimals) + tail;
      DigitsInside(point[1..], decimals, tail);
    }
  }

  lemma DigitsInside(a: string, digits: string, b: string)
    requires NoDigit(a) && NoDigit(b) && AllDigits(digits)
    ensures Digits((a + digits) + b) == digits
  {
    DigitsOfNone(a);
    DigitsOfNone(b);
    DigitsOfDigits(digits);
    DigitsConcat(a, digits);
    DigitsConcat(a + digits, b);
  }

  lemma DigitsOfRest(front: string, whole: string, point: string, decimals: string, tail: string)
    requires Digits(front) == whole && NoDigit(point) && NoDigit(tail) && AllDigits(decimals)
    ensures Digits(front + ((point + decimals) + tail)) == whole + decimals
  {
    DigitsInside(point, decimals, tail);
    DigitsConcat(front, (point + decimals) + tail);
  }

  lemma ParsedFromMinus(s: string, frac: int, decimalChar: string)
    requires s != "" && s[0] == '-'
    ensures Parsed(s, frac, decimalChar) ==
            Read(Digits(Before(s, SplitMark(decimalChar))), Digits(After(s, SplitMark(decimalChar))),
                 Max0(frac), Negative(Trim(s)))
  {
    TrimEndReads(s, SplitMark(decimalChar));
  }

  /** The mark already stands before the digits: all of them are read as decimals. */
  lemma FrontMarkReads(s: string, p: string, rest: string, frac: int, decimalChar: string)
    requires p != "" && p[0] == '-' && NoDigit(p)
    requires exists i :: 0 <= i < |p| && p[i] in SplitMark(decimalChar)
    requires s == p + rest
    ensures Parsed(s, frac, decimalChar) == Read("", Digits(rest), Max0(frac), Negative(Trim(s)))
  {
    ParsedFromMinus(s, frac, decimalChar);
    MarkInFront(p, rest, SplitMark(decimalChar));
  }

  /** The mark stands between the thousands: what follows it is read as decimals. */
  lemma GroupMarkReads(s: string, p: string, g: string, rest: string, frac: int, decimalChar: string)
    requires s == p + (g + rest) && p != "" && p[0] == '-' && Digits(p) == "1" && NoDigit(g)
    requires forall c :: c in p ==> c !in SplitMark(decimalChar)
    requires exists i :: 0 <= i < |g| && g[i] in SplitMark(decimalChar)
    ensures Parsed(s, frac, decimalChar) == Read("1", Digits(rest), Max0(frac), Negative(Trim(s)))
  {
    ParsedFromMinus(s, frac, decimalChar);
    GroupSplit(p, g, rest, SplitMark(decimalChar));
  }

  lemma GroupSplit(p: string, g: string, rest: string, mark: set<char>)
    requires NoDigit(g) && (forall c :: c in p ==> c !in mark) && exists i :: 0 <= i < |g| && g[i] in mark
    ensures Digits(Before(p + (g + rest), mark)) == Digits(p) && Digits(After(p + (g + rest), mark)) == Digits(rest)
  {
    SplitPieces(p, g + rest, mark);
    MarkInFront(g, rest, mark);
    DigitsConcat(p, Before(g + rest, mark));
  }

  // ----- parseMinor, on printed amounts -----

  lemma ReadBack(amount: int, fmt: MoneyFormat)
    ensures AllDigits(Whole(amount, fmt)) && AllDigits(Fraction(amount, fmt)) && Whole(amount, fmt) != ""
    ensures |Fraction(amount, fmt)| == Max0(fmt.fracDigits)
    ensures Read(Whole(amount, fmt), Fraction(amount, fmt), Max0(fmt.fracDigits), amount < 0) == Some(amount)
  {
    PrintedValue(Abs(amount), Max0(fmt.fracDigits));
  }

  lemma InConcat(a: string, b: string)
    ensures forall c :: c in a + b <==> c in a || c in b
  {
  }

  lemma InPieces(a: string, b: string, c: string, d: string, e: string, f: string)
    ensures forall x :: x in ((a + b) + c) + ((d + e) + f) <==> x in a || x in b || x in c || x in d || x in e || x in f
  {
    InConcat(a, b);
    InConcat(a + b, c);
    InConcat(d, e);
    InConcat(d + e, f);
    InConcat((a + b) + c, (d + e) + f);
  }

  lemma SpaceBefore(s: string)
    ensures forall c :: c in " " + s <==> c == ' ' || c in s
  {
    InConcat(" ", s);
  }

  /** A minus sign is printed for the negative amounts and for no other. */
  lemma MinusPrinted(amount: int, fmt: MoneyFormat)
    requires MarksHaveNoDigit(fmt) && NoMinus(fmt)
    ensures '-' in Formatted(amount, fmt) <==> amount < 0
  {
    ReadBack(amount, fmt);
    GroupedDigits(Whole(amount, fmt), GroupMark(fmt.groupChar));
    Pieces(amount, fmt);
    InPieces(Sign(amount), Lead(fmt), Thousands(amount, fmt), Point(fmt), Fraction(amount, fmt), Tail(fmt));
    SpaceBefore(fmt.symbol);
    assert '-' !in Tail(fmt);
  }

  lemma FirstOrLast(a: string, b: string, c: string, d: string, e: string, f: string)
    requires c != "" && IsDigit(c[0]) && IsDigit(c[|c| - 1])
    requires (a == "" || a == "-") && (b == "" || f == "")
    requires AllDigits(e) && (e == "" ==> d == "")
    ensures var s := ((a + b) + c) + ((d + e) + f);
            s != "" && (IsDigit(s[0]) || s[0] == '-' || IsDigit(s[|s| - 1]))
  {
    var s := ((a + b) + c) + ((d + e) + f);
    if b == "" {
      assert s[0] == if a == "-" then '-' else c[0];
    } else {
      assert s[|s| - 1] == if e == "" then c[|c| - 1] else e[|e| - 1];
    }
  }

  lemma SignRead(amount: int, fmt: MoneyFormat)
    requires MarksHaveNoDigit(fmt)
    ensures Negative(Trim(Formatted(amount, fmt))) <==> '-' in Formatted(amount, fmt)
  {
    ReadBack(amount, fmt);
    GroupedDigits(Whole(amount, fmt), GroupMark(fmt.groupChar));
    Pieces(amount, fmt);
    FirstOrLast(Sign(amount), Lead(fmt), Thousands(amount, fmt), Point(fmt), Fraction(amount, fmt), Tail(fmt));
    NegativeRead(Formatted(amount, fmt));
  }

  lemma HeadDigits(a: string, b: string, c: string, whole: string)
    requires NoDigit(a) && NoDigit(b) && Digits(c) == whole && c != "" && IsDigit(c[|c| - 1])
    ensures var h := (a + b) + c; Digits(h) == whole && h != "" && IsDigit(h[|h| - 1])
    ensures forall x :: x in (a + b) + c <==> x in a || x in b || x in c
  {
    DigitsOfNone(a + b);
    DigitsConcat(a + b, c);
    InConcat(a, b);
    InConcat(a + b, c);
  }

  lemma UndoneParsed(amount: int, fmt: MoneyFormat)
    requires MarksHaveNoDigit(fmt) && Readable(fmt)
    ensures AllDigits(Whole(amount, fmt)) && AllDigits(Fraction(amount, fmt))
    ensures Parsed(Formatted(amount, fmt), fmt.fracDigits, fmt.decimalChar) ==
            Read(Whole(amount, fmt), Fraction(amount, fmt), Max0(fmt.fracDigits), Negative(Trim(Formatted(amount, fmt))))
  {
    hide Parsed, Trim, Formatted, Read, Negative, Whole, Fraction, Digits, Grouped, Tail;
    var whole, decimals, g := Whole(amount, fmt), Fraction(amount, fmt), Thousands(amount, fmt);
    ReadBack(amount, fmt);
    GroupedDigits(whole, GroupMark(fmt.groupChar));
    Pieces(amount, fmt);
    TailHasNoDigit(fmt);
    HeadDigits(Sign(amount), Lead(fmt), g, whole);
    ReadsApart(Formatted(amount, fmt), (Sign(amount) + Lead(fmt)) + g, whole, Point(fmt), decimals, Tail(fmt),
               fmt.fracDigits, fmt.decimalChar);
  }

  lemma Undone(amount: int, fmt: MoneyFormat)
    requires MarksHaveNoDigit(fmt) && Readable(fmt)
    ensures Parsed(Formatted(amount, fmt), fmt.fracDigits, fmt.decimalChar) == Some(amount)
  {
    UndoneParsed(amount, fmt);
    ReadBack(amount, fmt);
    SignRead(amount, fmt);
    MinusPrinted(amount, fmt);
  }

  // ----- amounts that show a format cannot be read -----

  /** A printed minus sign turns every positive amount around, for both parsers. */
  lemma MinusFails(amount: int, fmt: MoneyFormat)
    requires MarksHaveNoDigit(fmt) && amount > 0 && '-' in Formatted(amount, fmt)
    ensures Parsed(Formatted(amount, fmt), fmt.fracDigits, fmt.decimalChar) != Some(amount)
    ensures ParsedSmart(Formatted(amount, fmt), fmt.fracDigits) != Some(amount)
  {
    SignRead(amount, fmt);
  }

  /** k major units print as k and a row of zeros. */
  lemma RoundAmount(k: nat, amount: int, fmt: MoneyFormat)
    requires Abs(amount) == Times(k, Pow10(Max0(fmt.fracDigits)))
    ensures Whole(amount, fmt) == Text(k) && Fraction(amount, fmt) == Zeros(Max0(fmt.fracDigits))
  {
    var frac := Max0(fmt.fracDigits);
    Unique(Abs(amount), Pow10(frac), k, 0);
    if frac > 0 {
      assert Zeros(frac) == Zeros(frac - 1) + "0";
    }
  }

  lemma SmallTexts()
    ensures Text(1) == "1" && Text(1000) == "1000"
  {
    assert Text(10) == "10" && Text(100) == "100";
  }

  lemma GroupedThousand(mark: string)
    requires mark != ""
    ensures Grouped("1000", mark) == ("1" + mark) + "000"
  {
    assert "1000"[..1] == "1" && "1000"[1..] == "000";
  }

  lemma MinusPrintedSomewhere(fmt: MoneyFormat) returns (amount: int)
    requires MarksHaveNoDigit(fmt) && !NoMinus(fmt)
    ensures amount > 0 && '-' in Formatted(amount, fmt)
  {
    var frac := Max0(fmt.fracDigits);
    var g := GroupMark(fmt.groupChar);
    if '-' in g {
      amount := Times(1000, Pow10(frac));
      RoundAmount(1000, amount, fmt);
      SmallTexts();
      GroupedThousand(g);
      InConcat("1", g);
      InConcat("1" + g, "000");
    } else {
      amount := 1;
    }
    Pieces(amount, fmt);
    InPieces(Sign(amount), Lead(fmt), Thousands(amount, fmt), Point(fmt), Fraction(amount, fmt), Tail(fmt));
    SpaceBefore(fmt.symbol);
  }

  lemma OneAndZeros(m: nat)
    ensures AllDigits("1" + Zeros(m)) && Value("1" + Zeros(m)) == Pow10(m)
  {
    ValueZeros(m);
    assert Value("1") == 1;
    ValueConcat("1", Zeros(m));
    One(Pow10(m));
  }

  lemma TooSmall(r: nat, p: nat)
    requires p >= 1 && 2 * Times(r, 10 * p) - 10 * p <= 2 * Times(p, p)
    ensures r < p
  {
    var squares, tens := Times(p, p), Times(r, 10 * p);
    assert squares >= p by {
      Monotone(1, p, p);
      One(p);
    }
    assert r >= p ==> tens >= 10 * squares by {
      ScaleRight(10, r, p);
      if r >= p {
        Monotone(p, r, p);
      }
    }
  }

  lemma OnlyOne(p: string)
    requires p != "" && p[|p| - 1] == '1' && NoDigit(p[..|p| - 1])
    ensures Digits(p) == "1"
  {
    DigitsOfNone(p[..|p| - 1]);
  }

  lemma AllDecimalsIsLess(frac: nat)
    ensures var digits := "1" + Zeros(frac);
            AllDigits(digits) && forall neg :: Read("", digits, frac, neg) != Some(0 - Pow10(frac))
  {
    OneAndZeros(frac);
    assert "" + ("1" + Zeros(frac)) == "1" + Zeros(frac);
    RoundedIsNearest(Pow10(frac), frac + 1, frac);
    TooSmall(Rounded(Pow10(frac), frac + 1, frac), Pow10(frac));
  }

  lemma RoundedOne(m: nat, frac: nat)
    ensures Rounded(Pow10(m), m, frac) == Pow10(frac)
  {
    Exact(Pow10(frac), 1, Pow10(m));
    One(Pow10(m));
    One(Pow10(frac));
    Commute(Pow10(m), Pow10(frac));
  }

  lemma ReadAsOne(frac: nat)
    ensures var zeros := "000" + Zeros(frac);
            AllDigits(zeros) && forall neg :: Read("1", zeros, frac, neg) != Some(0 - Times(1000, Pow10(frac)))
  {
    assert "000" + Zeros(frac) == Zeros(frac + 3);
    OneAndZeros(frac + 3);
    RoundedOne(frac + 3, frac);
    Monotone(2, 1000, Pow10(frac));
    Sum(1, 1, Pow10(frac));
    One(Pow10(frac));
  }

  lemma FrontMarkFails(fmt: MoneyFormat)
    requires MarksHaveNoDigit(fmt) && DecimalMark(fmt.decimalChar)[0] in "-" + Lead(fmt)
    ensures var amount: int := 0 - Pow10(Max0(fmt.fracDigits));
            Parsed(Formatted(amount, fmt), fmt.fracDigits, fmt.decimalChar) != Some(amount)
  {
    hide Parsed, Formatted, Whole, Fraction, MarksHaveNoDigit, Lead, Negative, Text, Value, Zeros, Times, Pow10;
    var frac := Max0(fmt.fracDigits);
    var amount: int := 0 - Pow10(frac);
    One(Pow10(frac));
    RoundAmount(1, amount, fmt);
    SmallTexts();
    FrontMarkParsed(amount, fmt);
    AllDecimalsIsLess(frac);
  }

  lemma FrontMarkParsed(amount: int, fmt: MoneyFormat)
    requires MarksHaveNoDigit(fmt) && DecimalMark(fmt.decimalChar)[0] in "-" + Lead(fmt) && amount < 0
    ensures AllDigits(Whole(amount, fmt) + Fraction(amount, fmt))
    ensures Parsed(Formatted(amount, fmt), fmt.fracDigits, fmt.decimalChar) ==
            Read("", Whole(amount, fmt) + Fraction(amount, fmt), Max0(fmt.fracDigits), Negative(Trim(Formatted(amount, fmt))))
  {
    hide Parsed, Trim, Formatted, Read;
    var p, g, q := "-" + Lead(fmt), Thousands(amount, fmt), (Point(fmt) + Fraction(amount, fmt)) + Tail(fmt);
    ReadBack(amount, fmt);
    Pieces(amount, fmt);
    Join3(p, g, q);
    TailHasNoDigit(fmt);
    GroupedDigits(Whole(amount, fmt), GroupMark(fmt.groupChar));
    DigitsOfRest(g, Whole(amount, fmt), Point(fmt), Fraction(amount, fmt), Tail(fmt));
    FrontMarkReads(Formatted(amount, fmt), p, g + q, fmt.fracDigits, fmt.decimalChar);
  }

  lemma GroupMarkFails(fmt: MoneyFormat)
    requires MarksHaveNoDigit(fmt) && DecimalMark(fmt.decimalChar)[0] in GroupMark(fmt.groupChar)
    requires DecimalMark(fmt.decimalChar)[0] !in "-" + Lead(fmt)
    ensures var amount: int := 0 - Times(1000, Pow10(Max0(fmt.fracDigits)));
            Parsed(Formatted(amount, fmt), fmt.fracDigits, fmt.decimalChar) != Some(amount)
  {
    hide Parsed, Formatted, Fraction, MarksHaveNoDigit, Lead, Negative, Text, Value, Zeros, Times, Pow10;
    var frac := Max0(fmt.fracDigits);
    var amount: int := 0 - Times(1000, Pow10(frac));
    Monotone(1, 1000, Pow10(frac));
    One(Pow10(frac));
    RoundAmount(1000, amount, fmt);
    SmallTexts();
    GroupMarkParsed(amount, fmt);
    ReadAsOne(frac);
  }

  lemma GroupMarkParsed(amount: int, fmt: MoneyFormat)
    requires MarksHaveNoDigit(fmt) && DecimalMark(fmt.decimalChar)[0] in GroupMark(fmt.groupChar)
    requires DecimalMark(fmt.decimalChar)[0] !in "-" + Lead(fmt) && amount < 0 && Whole(amount, fmt) == "1000"
    ensures AllDigits("000" + Fraction(amount, fmt))
    ensures Parsed(Formatted(amount, fmt), fmt.fracDigits, fmt.decimalChar) ==
            Read("1", "000" + Fraction(amount, fmt), Max0(fmt.fracDigits), Negative(Trim(Formatted(amount, fmt))))
  {
    var p, g := ("-" + Lead(fmt)) + "1", GroupMark(fmt.groupChar);
    var rest := "000" + ((Point(fmt) + Fraction(amount, fmt)) + Tail(fmt));
    ThousandPieces(amount, fmt);
    TailHasNoDigit(fmt);
    ReadBack(amount, fmt);
    ThreeZeros(Point(fmt), Fraction(amount, fmt), Tail(fmt));
    assert Digits(p) == "1" && forall c :: c in p ==> c !in SplitMark(fmt.decimalChar) by {
      OnlyOne(p);
      InConcat("-" + Lead(fmt), "1");
    }
    GroupMarkReads(Formatted(amount, fmt), p, g, rest, fmt.fracDigits, fmt.decimalChar);
  }

  lemma ThreeZeros(point: string, decimals: string, tail: string)
    requires NoDigit(point) && NoDigit(tail) && AllDigits(decimals)
    ensures Digits("000" + ((point + decimals) + tail)) == "000" + decimals
  {
    DigitsOfDigits("000");
    DigitsOfRest("000", "000", point, decimals, tail);
  }

  lemma ThousandPieces(amount: int, fmt: MoneyFormat)
    requires amount < 0 && Whole(amount, fmt) == "1000" && GroupMark(fmt.groupChar) != ""
    ensures Formatted(amount, fmt) == (("-" + Lead(fmt)) + "1")
         + (GroupMark(fmt.groupChar) + ("000" + ((Point(fmt) + Fraction(amount, fmt)) + Tail(fmt))))
  {
    GroupedThousand(GroupMark(fmt.groupChar));
    Pieces(amount, fmt);
    Join5("-" + Lead(fmt), "1", GroupMark(fmt.groupChar), "000", (Point(fmt) + Fraction(amount, fmt)) + Tail(fmt));
  }

  lemma Join5(a: string, b: string, c: string, d: string, e: string)
    ensures (a + ((b + c) + d)) + e == (a + b) + (c + (d + e))
  {
  }

  /** Exactly when `parseMinor` undoes `formatMinor` on every amount. */
  lemma ParseMinorUndoesFormatMinor(fmt: MoneyFormat)
    requires MarksHaveNoDigit(fmt)
    ensures (forall amount: int :: Parsed(Formatted(amount, fmt), fmt.fracDigits, fmt.decimalChar) == Some(amount))
            <==> Readable(fmt)
  {
    if Readable(fmt) {
      forall amount: int
        ensures Parsed(Formatted(amount, fmt), fmt.fracDigits, fmt.decimalChar) == Some(amount)
      {
        Undone(amount, fmt);
      }
    } else if !NoMinus(fmt) {
      var amount := MinusPrintedSomewhere(fmt);
      MinusFails(amount, fmt);
    } else {
      InConcat("-", Lead(fmt));
      if DecimalMark(fmt.decimalChar)[0] in "-" + Lead(fmt) {
        FrontMarkFails(fmt);
      } else {
        GroupMarkFails(fmt);
      }
    }
  }

  /** Different marks are not enough: a space between thousands is printed non-breaking. */
  lemma DifferentMarksAreNotEnough()
    ensures var fmt := MoneyFormat(2, [NBSP], " ", "", false);
            && fmt.decimalChar != fmt.groupChar
            && !forall amount: int :: Parsed(Formatted(amount, fmt), fmt.fracDigits, fmt.decimalChar) == Some(amount)
  {
    ParseMinorUndoesFormatMinor(MoneyFormat(2, [NBSP], " ", "", false));
  }

  // ----- parseAmountSmart -----

  function Combined(a: Reading, b: Reading): Reading {
    if b.split then Reading(a.all + b.all, true, a.all + b.before, b.after)
    else if a.split then Reading(a.all + b.all, true, a.before, a.after + b.all)
    else Reading(a.all + b.all, false, a.all + b.all, "")
  }

  lemma CombinedExtended(a: Reading, b: Reading, c: char)
    ensures Combined(a, Extended(b, c)) == Extended(Combined(a, b), c)
  {
  }

  lemma {:induction false} ReadingConcat(a: string, b: string)
    ensures ReadingOf(a + b) == Combined(ReadingOf(a), ReadingOf(b))
  {
    if b == "" {
      assert a + b == a;
      assert ReadingOf(a).all + "" == ReadingOf(a).all && ReadingOf(a).after + "" == ReadingOf(a).after;
    } else {
      var p, c := b[..|b| - 1], b[|b| - 1];
      assert b == p + [c] && a + b == (a + p) + [c];
      ReadingConcat(a, p);
      OneMore(p, c);
      OneMore(a + p, c);
      CombinedExtended(ReadingOf(a), ReadingOf(p), c);
    }
  }

  lemma {:induction false} TrimReads(s: string)
    ensures ReadingOf(TrimEnd(s)) == ReadingOf(s)
  {
    if s != "" && IsSpace(s[|s| - 1]) {
      TrimReads(s[..|s| - 1]);
    }
  }

  lemma {:induction false} TrimStartReads(s: string)
    ensures ReadingOf(TrimStart(s)) == ReadingOf(s)
  {
    if s != "" && IsSpace(s[0]) {
      TrimStartReads(s[1..]);
      assert s == [s[0]] + s[1..];
      ReadingConcat([s[0]], s[1..]);
      NoDigitReading([s[0]]);
    }
  }

  lemma SmartPieces(s: string, frac: int)
    ensures var r := ReadingOf(s);
            AllDigits(r.all) && AllDigits(r.before) && AllDigits(r.after)
            && ParsedSmart(s, frac) ==
               if frac <= 0 then Read(r.all, "", 0, Negative(Trim(s))) else Read(r.before, r.after, frac, Negative(Trim(s)))
  {
    TrimStartReads(s);
    TrimReads(TrimStart(s));
    ReadingMeans(s);
    ReadingMeans(Trim(s));
  }

  lemma {:induction false} NoDigitReading(s: string)
    requires NoDigit(s)
    ensures ReadingOf(s) == Reading("", HasSeparator(s), "", "")
  {
    if s != "" {
      NoDigitReading(s[..|s| - 1]);
    }
  }

  lemma DigitsReading(f: string)
    requires AllDigits(f)
    ensures ReadingOf(f) == Reading(f, false, f, "")
  {
    NoSeparator(f);
    DigitsOfDigits(f);
    ReadingMeans(f);
  }

  lemma RestReading(point: string, decimals: string, tail: string)
    requires NoDigit(point) && NoDigit(tail) && AllDigits(decimals)
    ensures ReadingOf((point + decimals) + tail) ==
            if HasSeparator(tail) then Reading(decimals, true, decimals, "")
            else if HasSeparator(point) then Reading(decimals, true, "", decimals)
            else Reading(decimals, false, decimals, "")
  {
    hide ReadingOf, HasSeparator;
    NoDigitReading(point);
    DigitsReading(decimals);
    NoDigitReading(tail);
    ReadingConcat(point, decimals);
    ReadingConcat(point + decimals, tail);
  }

  lemma FrontReading(p: string, g: string, whole: string)
    requires Digits(p) == "" && Digits(g) == whole
    ensures ReadingOf(p + g).all == whole
    ensures AllDigits(g) && ReadingOf(p + g).split ==> ReadingOf(p + g).before == "" && ReadingOf(p + g).after == whole
  {
    hide ReadingOf, HasSeparator;
    ReadingMeans(p);
    ReadingMeans(g);
    BlankBefore(p);
    ReadingConcat(p, g);
    if AllDigits(g) {
      DigitsReading(g);
    }
  }

  /** What the pieces of a printed amount read as, whichever separators they hold. */
  lemma PiecesReading(p: string, g: string, whole: string, point: string, decimals: string, tail: string)
    requires Digits(p) == "" && Digits(g) == whole && NoDigit(point) && NoDigit(tail) && AllDigits(decimals)
    ensures var r := ReadingOf((p + g) + ((point + decimals) + tail));
            && r.all == whole + decimals
            && (HasSeparator(point) && !HasSeparator(tail) ==> r.split && r.before == whole && r.after == decimals)
            && (HasSeparator(tail) ==> r.split && r.before == r.all && r.after == "")
            && (AllDigits(g) && !HasSeparator(point) && !HasSeparator(tail) && r.split ==>
                  r.before == "" && r.after == whole + decimals)
  {
    hide ReadingOf, HasSeparator, Digits;
    FrontReading(p, g, whole);
    RestReading(point, decimals, tail);
    ReadingConcat(p + g, (point + decimals) + tail);
  }

  lemma {:induction false} BlankBefore(p: string)
    requires Digits(p) == ""
    ensures ReadingOf(p).before == "" && ReadingOf(p).after == ""
  {
    if p != "" {
      BlankBefore(p[..|p| - 1]);
      ReadingMeans(p[..|p| - 1]);
    }
  }

  lemma PrintedReading(amount: int, fmt: MoneyFormat)
    requires MarksHaveNoDigit(fmt)
    ensures var r, w, f := ReadingOf(Formatted(amount, fmt)), Whole(amount, fmt), Fraction(amount, fmt);
            && r.all == w + f
            && (HasSeparator(Point(fmt)) && !HasSeparator(Tail(fmt)) ==> r.split && r.before == w && r.after == f)
            && (HasSeparator(Tail(fmt)) ==> r.split && r.before == r.all && r.after == "")
            && (|w| <= 3 && !HasSeparator(Point(fmt)) && !HasSeparator(Tail(fmt)) && r.split ==>
                  r.before == "" && r.after == w + f)
  {
    ReadBack(amount, fmt);
    GroupedDigits(Whole(amount, fmt), GroupMark(fmt.groupChar));
    Pieces(amount, fmt);
    TailHasNoDigit(fmt);
    DigitsOfNone(Sign(amount) + Lead(fmt));
    PiecesReading(Sign(amount) + Lead(fmt), Thousands(amount, fmt), Whole(amount, fmt),
                  Point(fmt), Fraction(amount, fmt), Tail(fmt));
  }

  lemma SmartUndone(amount: int, fmt: MoneyFormat)
    requires MarksHaveNoDigit(fmt) && SmartReadable(fmt)
    ensures ParsedSmart(Formatted(amount, fmt), fmt.fracDigits) == Some(amount)
  {
    SignRead(amount, fmt);
    MinusPrinted(amount, fmt);
    PrintedReading(amount, fmt);
    SmartPieces(Formatted(amount, fmt), fmt.fracDigits);
    ReadBack(amount, fmt);
    assert Whole(amount, fmt) + "" == Whole(amount, fmt);
  }

  lemma AllWholeIsMore(frac: nat)
    requires frac > 0
    ensures var digits := "1" + Zeros(frac);
            AllDigits(digits) && forall neg :: Read(digits, "", frac, neg) != Some(0 - Pow10(frac))
  {
    var p := Pow10(frac);
    OneAndZeros(frac);
    assert ("1" + Zeros(frac)) + "" == "1" + Zeros(frac);
    RoundedExact(p, 0, frac);
    Monotone(1, p, p);
    One(p);
  }

  /** With no separator to split at, the decimals are read as whole digits or the whole digits as decimals. */
  lemma NoSeparatorFails(fmt: MoneyFormat)
    requires MarksHaveNoDigit(fmt) && fmt.fracDigits > 0
    requires HasSeparator(Tail(fmt)) || !HasSeparator(DecimalMark(fmt.decimalChar))
    ensures var amount: int := 0 - Pow10(fmt.fracDigits);
            ParsedSmart(Formatted(amount, fmt), fmt.fracDigits) != Some(amount)
  {
    hide Formatted, ParsedSmart, Read, Trim, Whole, Fraction, Text, Zeros, ReadingOf;
    var frac := fmt.fracDigits;
    var amount: int := 0 - Pow10(frac);
    One(Pow10(frac));
    RoundAmount(1, amount, fmt);
    SmallTexts();
    PrintedReading(amount, fmt);
    SmartPieces(Formatted(amount, fmt), frac);
    if HasSeparator(Tail(fmt)) || !ReadingOf(Formatted(amount, fmt)).split {
      AllWholeIsMore(frac);
    } else {
      AllDecimalsIsLess(frac);
    }
  }

  /** Exactly when `parseAmountSmart` undoes `formatMinor` on every amount. */
  lemma ParseAmountSmartUndoesFormatMinor(fmt: MoneyFormat)
    requires MarksHaveNoDigit(fmt)
    ensures (forall amount: int :: ParsedSmart(Formatted(amount, fmt), fmt.fracDigits) == Some(amount))
            <==> SmartReadable(fmt)
  {
    if SmartReadable(fmt) {
      forall amount: int
        ensures ParsedSmart(Formatted(amount, fmt), fmt.fracDigits) == Some(amount)
      {
        SmartUndone(amount, fmt);
      }
    } else if !NoMinus(fmt) {
      var amount := MinusPrintedSomewhere(fmt);
      MinusFails(amount, fmt);
    } else {
      NoSeparatorFails(fmt);
    }
  }

  // ----- the text of an input field -----

  function InputFormat(fracDigits: int, decimalChar: string): MoneyFormat {
    MoneyFormat(fracDigits, decimalChar, "", "", false)
  }

  /** Whole units without needless zeros and a fixed number of decimals, together the number. */
  ghost predicate PlainNumber(whole: string, decimals: string, n: nat, frac: nat) {
    && AllDigits(whole) && whole != "" && (|whole| > 1 ==> whole[0] != '0')
    && AllDigits(decimals) && |decimals| == frac
    && Value(whole + decimals) == n
  }

  function InputOf(whole: string, decimals: string, amount: int, fmt: MoneyFormat): string {
    Sign(amount) + whole + Point(fmt) + decimals
  }

  /** Just the number, with the currency's decimal mark. */
  ghost predicate IsInputText(s: string, amount: int, fracDigits: int, decimalChar: string) {
    exists whole, decimals ::
      && PlainNumber(whole, decimals, Abs(amount), Max0(fracDigits))
      && s == InputOf(whole, decimals, amount, InputFormat(fracDigits, decimalChar))
  }

  predicate ReadsBack(fracDigits: int, decimalChar: string) {
    DecimalMark(decimalChar)[0] != '-' && (fracDigits > 0 ==> '-' !in DecimalMark(decimalChar))
  }

  predicate ReadsBackSmart(fracDigits: int, decimalChar: string) {
    fracDigits > 0 ==> '-' !in DecimalMark(decimalChar) && HasSeparator(DecimalMark(decimalChar))
  }

  method MinorToInput(amount: int, fracDigits: int, decimalChar: string) returns (out: string)
    ensures IsInputText(out, amount, fracDigits, decimalChar)
    ensures NoDigit(DecimalMark(decimalChar)) && ReadsBack(fracDigits, decimalChar)
            ==> Parsed(out, fracDigits, decimalChar) == Some(amount)
  {
    hide Formatted, Parsed, IsInputText, Readable, MarksHaveNoDigit, ReadsBack;
    out := FormatMinor(amount, InputFormat(fracDigits, decimalChar));
    PrintedIsInputText(amount, fracDigits, decimalChar);
    if NoDigit(DecimalMark(decimalChar)) && ReadsBack(fracDigits, decimalChar) {
      InputReadable(fracDigits, decimalChar);
      Undone(amount, InputFormat(fracDigits, decimalChar));
    }
  }

  lemma InputReadable(fracDigits: int, decimalChar: string)
    requires NoDigit(DecimalMark(decimalChar))
    ensures MarksHaveNoDigit(InputFormat(fracDigits, decimalChar))
    ensures ReadsBack(fracDigits, decimalChar) <==> Readable(InputFormat(fracDigits, decimalChar))
    ensures ReadsBackSmart(fracDigits, decimalChar) <==> SmartReadable(InputFormat(fracDigits, decimalChar))
  {
  }

  lemma SplitValue(whole: string, decimals: string, n: nat, frac: nat)
    requires AllDigits(whole) && AllDigits(decimals) && |decimals| == frac
    ensures Value(decimals) < Pow10(frac)
    ensures Value(whole + decimals) == n
            <==> Value(whole) == Quotient(n, Pow10(frac)) && Value(decimals) == Remainder(n, Pow10(frac))
  {
    hide Value, Times, Quotient, Remainder, Pow10;
    ValueConcat(whole, decimals);
    ValueBound(decimals);
    Divides(n, Pow10(frac));
    if Value(whole + decimals) == n {
      Unique(n, Pow10(frac), Value(whole), Value(decimals));
    }
  }

  lemma PlainDigits(amount: int, fmt: MoneyFormat)
    ensures PlainNumber(Whole(amount, fmt), Fraction(amount, fmt), Abs(amount), Max0(fmt.fracDigits))
  {
    hide Value, Times, Quotient, Remainder, Text, Padded;
    var frac := Max0(fmt.fracDigits);
    var q, r := Quotient(Abs(amount), Pow10(frac)), Remainder(Abs(amount), Pow10(frac));
    TextIsDecimal(q);
    OneZero();
    Divides(Abs(amount), Pow10(frac));
    if frac > 0 {
      PaddedDigits(r, frac);
    }
    SplitValue(Text(q), Fraction(amount, fmt), Abs(amount), frac);
  }

  lemma OneZero()
    ensures |Text(0)| == 1 && Value("") == 0
  {
  }

  lemma PrintedIsInputText(amount: int, fracDigits: int, decimalChar: string)
    ensures IsInputText(Formatted(amount, InputFormat(fracDigits, decimalChar)), amount, fracDigits, decimalChar)
  {
    var fmt := InputFormat(fracDigits, decimalChar);
    hide Formatted, Whole, Fraction, PlainNumber;
    Pieces(amount, fmt);
    PlainDigits(amount, fmt);
    var w, d := Whole(amount, fmt), Fraction(amount, fmt);
    assert Thousands(amount, fmt) == w && Lead(fmt) == "" && Tail(fmt) == "";
    assert Formatted(amount, fmt) == InputOf(w, d, amount, fmt) by {
      NothingAround(Sign(amount), w, Point(fmt), d);
    }
  }

  lemma NothingAround(a: string, b: string, c: string, d: string)
    ensures ((a + "") + b) + ((c + d) + "") == a + b + c + d
  {
  }

  /** An amount has only one such text. */
  lemma InputTextIsPrinted(s: string, amount: int, fracDigits: int, decimalChar: string)
    requires IsInputText(s, amount, fracDigits, decimalChar)
    ensures s == Formatted(amount, InputFormat(fracDigits, decimalChar))
  {
    hide Value, Times, Quotient, Remainder, Text, Formatted, Whole, Fraction;
    var fmt := InputFormat(fracDigits, decimalChar);
    var frac := Max0(fracDigits);
    PrintedIsInputText(amount, fracDigits, decimalChar);
    var printed := Formatted(amount, fmt);
    var w, d :| PlainNumber(w, d, Abs(amount), frac) && s == InputOf(w, d, amount, fmt);
    var v, e :| PlainNumber(v, e, Abs(amount), frac) && printed == InputOf(v, e, amount, fmt);
    SplitValue(w, d, Abs(amount), frac);
    SplitValue(v, e, Abs(amount), frac);
    CanonicalIsText(w);
    CanonicalIsText(v);
    SameLengthSameValue(d, e);
  }

  /** Either parser reads every amount back from its input text exactly when the decimal mark lets it. */
  lemma InputReadsBack(fracDigits: int, decimalChar: string)
    requires NoDigit(DecimalMark(decimalChar))
    ensures (forall amount: int, s | IsInputText(s, amount, fracDigits, decimalChar) ::
               Parsed(s, fracDigits, decimalChar) == Some(amount))
            <==> ReadsBack(fracDigits, decimalChar)
    ensures (forall amount: int, s | IsInputText(s, amount, fracDigits, decimalChar) ::
               ParsedSmart(s, fracDigits) == Some(amount))
            <==> ReadsBackSmart(fracDigits, decimalChar)
  {
    hide Parsed, ParsedSmart, Formatted, IsInputText, Readable, SmartReadable, ReadsBack, ReadsBackSmart, MarksHaveNoDigit;
    var fmt := InputFormat(fracDigits, decimalChar);
    InputReadable(fracDigits, decimalChar);
    ParseMinorUndoesFormatMinor(fmt);
    ParseAmountSmartUndoesFormatMinor(fmt);
    forall amount: int
      ensures forall s :: IsInputText(s, amount, fracDigits, decimalChar) <==> s == Formatted(amount, fmt)
    {
      PrintedIsInputText(amount, fracDigits, decimalChar);
      forall s | IsInputText(s, amount, fracDigits, decimalChar)
        ensures s == Formatted(amount, fmt)
      {
        InputTextIsPrinted(s, amount, fracDigits, decimalChar);
      }
    }
  }
}
