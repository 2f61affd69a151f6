/** Printing amounts for the page and parsing what a user types (web/src/money.ts). */
module Money {
  import opened Options
  import opened Decimal
  import opened Division

  datatype MoneyFormat = MoneyFormat(fracDigits: int, decimalChar: string, groupChar: string,
                                     symbol: string, symbolPrefix: bool)

  const NBSP: char := '\U{00A0}'

  // ----- printing -----

  function Max0(k: int): nat {
    if k < 0 then 0 else k
  }

  function Abs(k: int): nat {
    if k < 0 then 0 - k else k
  }

  /** The mark printed between thousands: a plain space becomes a non-breaking one. */
  function GroupMark(groupChar: string): string {
    if groupChar == " " then [NBSP] else groupChar
  }

  function DecimalMark(decimalChar: string): string {
    if decimalChar == "" then "." else decimalChar
  }

  /** Digits with a mark before every third digit counted from the right. */
  function Grouped(digits: string, mark: string): string
    decreases |digits|
  {
    if |digits| <= 3 || mark == "" then digits
    else Grouped(digits[..|digits| - 3], mark) + mark + digits[|digits| - 3..]
  }

  function Padded(n: nat, width: nat): string {
    Zeros(Max0(width - |Text(n)|)) + Text(n)
  }

  /** Sign, leading symbol and whole units. */
  function Head(amount: int, fmt: MoneyFormat): string {
    (if amount < 0 then "-" else "")
    + (if fmt.symbolPrefix then fmt.symbol else "")
    + Grouped(Text(Quotient(Abs(amount), Pow10(Max0(fmt.fracDigits)))), GroupMark(fmt.groupChar))
  }

  /** Decimal mark and decimals. */
  function Decimals(amount: int, fmt: MoneyFormat): string {
    var frac := Max0(fmt.fracDigits);
    if frac > 0 then DecimalMark(fmt.decimalChar) + Padded(Remainder(Abs(amount), Pow10(frac)), frac) else ""
  }

  /** Trailing symbol. */
  function Tail(fmt: MoneyFormat): string {
    if fmt.symbol != "" && !fmt.symbolPrefix then " " + fmt.symbol else ""
  }

  function Formatted(amount: int, fmt: MoneyFormat): string {
    Head(amount, fmt) + Decimals(amount, fmt) + Tail(fmt)
  }

  method PowerOfTen(n: nat) returns (r: nat)
    ensures r == Pow10(n)
  {
    r := 1;
    for i := 0 to n
      invariant r == Pow10(i)
    {
      r := r * 10;
    }
  }

  function Join(parts: seq<string>, mark: string): string {
    if parts == [] then ""
    else if |parts| == 1 then parts[0]
    else Join(parts[..|parts| - 1], mark) + mark + parts[|parts| - 1]
  }

  /** The parts joined are the first i digits grouped. */
  ghost predicate GroupedSoFar(parts: seq<string>, digits: string, mark: string, i: int) {
    0 <= i <= |digits| && if i == 0 then parts == [] else parts != [] && Join(parts, mark) == Grouped(digits[..i], mark)
  }

  lemma FirstPart(digits: string, mark: string, pre: nat)
    requires pre <= |digits| && pre <= 3
    ensures GroupedSoFar(if pre > 0 then [digits[..pre]] else [], digits, mark, pre)
  {
  }

  lemma NextPart(parts: seq<string>, digits: string, mark: string, i: int)
    requires GroupedSoFar(parts, digits, mark, i) && i + 3 <= |digits| && mark != ""
    ensures GroupedSoFar(parts + [digits[i..i + 3]], digits, mark, i + 3)
  {
    var next, head := parts + [digits[i..i + 3]], digits[..i + 3];
    assert next[..|next| - 1] == parts;
    if i == 0 {
      assert head == digits[0..3];
    } else {
      assert head[..i] == digits[..i] && head[i..] == digits[i..i + 3];
    }
  }

  lemma AllParts(parts: seq<string>, digits: string, mark: string)
    requires GroupedSoFar(parts, digits, mark, |digits|) && digits != ""
    ensures Join(parts, mark) == Grouped(digits, mark)
  {
    assert digits[..|digits|] == digits;
  }

  lemma NothingToGroup(digits: string, groupChar: string)
    requires groupChar == "" || |digits| <= 3
    ensures Grouped(digits, GroupMark(groupChar)) == digits
  {
  }

  lemma MarkIsThere(groupChar: string)
    requires groupChar != ""
    ensures GroupMark(groupChar) != ""
  {
  }

  method Group(digits: string, groupChar: string) returns (r: string)
    ensures r == Grouped(digits, GroupMark(groupChar))
  {
    hide *;
    var mark := GroupMark(groupChar);
    if groupChar == "" || |digits| <= 3 {
      NothingToGroup(digits, groupChar);
      return digits;
    }
    assert mark != "" by { MarkIsThere(groupChar); }
    var pre := |digits| % 3;
    ghost var left := |digits| / 3;
    var parts: seq<string> := [];
    if pre > 0 {
      parts := parts + [digits[..pre]];
      assert parts == [digits[..pre]];
    }
    FirstPart(digits, mark, pre);
    var i := pre;
    while i < |digits|
      invariant 0 <= i && left >= 0 && |digits| == i + 3 * left
      invariant GroupedSoFar(parts, digits, mark, i)
    {
      NextPart(parts, digits, mark, i);
      parts := parts + [digits[i..i + 3]];
      i, left := i + 3, left - 1;
    }
    AllParts(parts, digits, mark);
    r := Join(parts, mark);
  }

  /** `padStart` with zeros. */
  method PadStart(digits: string, width: nat) returns (r: string)
    ensures r == Zeros(Max0(width - |digits|)) + digits
  {
    r := digits;
    ghost var k := 0;
    while |r| < width
      invariant r == Zeros(k) + digits && k <= Max0(width - |digits|)
    {
      r := ['0'] + r;
      k := k + 1;
      assert Zeros(k) == ['0'] + Zeros(k - 1);
    }
  }

  method FormatMinor(amount: int, fmt: MoneyFormat) returns (out: string)
    ensures out == Formatted(amount, fmt)
  {
    var frac := if fmt.fracDigits < 0 then 0 else fmt.fracDigits;
    var neg := amount < 0;
    var abs := if amount < 0 then 0 - amount else amount;
    var scale := PowerOfTen(frac);
    var intPart, fracPart := Quotient(abs, scale), Remainder(abs, scale);
    var num := Group(Text(intPart), fmt.groupChar);
    ghost var whole := num;
    ghost var decimals := "";
    if frac > 0 {
      var digits := PadStart(Text(fracPart), frac);
      decimals := (if fmt.decimalChar == "" then "." else fmt.decimalChar) + digits;
      num := num + ((if fmt.decimalChar == "" then "." else fmt.decimalChar) + digits);
    }
    out := if neg then "-" else "";
    ghost var sign := out;
    ghost var lead := if fmt.symbolPrefix then fmt.symbol else "";
    if fmt.symbol != "" && fmt.symbolPrefix {
      out := out + fmt.symbol;
    }
    Appended(sign, lead, whole, decimals, num);
    out := out + num;
    if fmt.symbol != "" && !fmt.symbolPrefix {
      out := out + (" " + fmt.symbol);
    }
  }

  lemma Appended(sign: string, lead: string, whole: string, decimals: string, num: string)
    requires num == whole + decimals
    ensures (sign + lead) + num == ((sign + lead) + whole) + decimals
    ensures lead == "" ==> sign + num == ((sign + lead) + whole) + decimals
    ensures decimals == "" ==> num == whole
  {
  }

  // ----- parsing -----

  predicate IsSpace(c: char) {
    c in {'\t', '\n', '\U{000B}', '\U{000C}', '\r', ' ', NBSP, '\U{1680}', '\U{2028}', '\U{2029}', '\U{202F}',
          '\U{205F}', '\U{3000}', '\U{FEFF}'} || '\U{2000}' <= c <= '\U{200A}'
  }

  function TrimStart(s: string): string {
    if s != "" && IsSpace(s[0]) then TrimStart(s[1..]) else s
  }

  function TrimEnd(s: string): string {
    if s != "" && IsSpace(s[|s| - 1]) then TrimEnd(s[..|s| - 1]) else s
  }

  function Trim(s: string): string {
    TrimEnd(TrimStart(s))
  }

  /** n / 10^m of a major unit in minor units: the nearest one, a half away from zero. */
  function Rounded(n: nat, m: nat, frac: nat): nat {
    Quotient(2 * Times(n, Pow10(frac)) + Pow10(m), 2 * Pow10(m))
  }

  predicate Negative(s: string) {
    '-' in s || (s != "" && s[0] == '(' && s[|s| - 1] == ')')
  }

  function Read(whole: string, decimals: string, frac: nat, negative: bool): Option<int>
    requires AllDigits(whole) && AllDigits(decimals)
  {
    if whole == "" && decimals == "" then None
    else
      var r: int := Rounded(Value(whole + decimals), |decimals|, frac);
      Some(if negative then -r else r)
  }

  /** The text before the first place where a mark stands. */
  function Before(s: string, mark: set<char>): string {
    if s == "" || s[0] in mark then "" else [s[0]] + Before(s[1..], mark)
  }

  /** The text after the first place where a mark stands. */
  function After(s: string, mark: set<char>): string {
    if s == "" then "" else if s[0] in mark then s[1..] else After(s[1..], mark)
  }

  predicate IsSeparator(c: char) {
    c == '.' || c == ','
  }

  predicate HasSeparator(s: string) {
    s != "" && (IsSeparator(s[|s| - 1]) || HasSeparator(s[..|s| - 1]))
  }

  /** The text before the last separator; all of it when there is none. */
  function BeforeLast(s: string): string {
    if !HasSeparator(s) then s
    else if IsSeparator(s[|s| - 1]) then s[..|s| - 1]
    else BeforeLast(s[..|s| - 1])
  }

  function AfterLast(s: string): string {
    if !HasSeparator(s) || IsSeparator(s[|s| - 1]) then ""
    else AfterLast(s[..|s| - 1]) + [s[|s| - 1]]
  }

  /** The character `parseMinor` splits at; a digit is read as a digit and splits nothing. */
  function SplitMark(decimalChar: string): set<char> {
    var dc := DecimalMark(decimalChar)[0];
    if IsDigit(dc) then {} else {dc}
  }

  /** What `parseMinor` reads, said without its loop. */
  function Parsed(input: string, fracDigits: int, decimalChar: string): Option<int> {
    var s := Trim(input);
    var mark := SplitMark(decimalChar);
    Read(Digits(Before(s, mark)), Digits(After(s, mark)), Max0(fracDigits), Negative(s))
  }

  /** What `parseAmountSmart` reads: the rightmost separator starts the decimals. */
  function ParsedSmart(input: string, fracDigits: int): Option<int> {
    var s := Trim(input);
    if fracDigits <= 0 then Read(Digits(s), "", 0, Negative(s))
    else Read(Digits(BeforeLast(s)), Digits(AfterLast(s)), fracDigits, Negative(s))
  }

  // ----- rounding by cutting digits -----

  lemma RoundedParts(n: nat, frac: nat, k: nat, hi: nat, lo: nat)
    requires n == Times(hi, Pow10(k)) + lo && lo < Pow10(k)
    ensures Rounded(n, k + frac, frac) == if 2 * lo < Pow10(k) then hi else hi + 1
  {
    hide Times, Quotient, Pow10;
    var a, b := Pow10(frac), Pow10(k);
    Pow10Sum(k, frac);
    Double(n, b, a);
    Cancel(2 * n + b, 2 * b, a);
    HalfUp(n, b, hi, lo);
  }

  lemma RoundedExact(n: nat, m: nat, frac: nat)
    requires m <= frac
    ensures Rounded(n, m, frac) == Times(n, Pow10(frac - m))
  {
    Pow10Sum(frac - m, m);
    Exact(n, Pow10(frac - m), Pow10(m));
  }

  /** The leading digit of what is cut decides which way it rounds. */
  lemma LeadingDigit(s: string)
    requires AllDigits(s) && s != ""
    ensures 2 * Value(s) < Pow10(|s|) <==> s[0] < '5'
  {
    var rest := s[1..];
    assert s == [s[0]] + rest;
    ValueConcat([s[0]], rest);
    ValueBound(rest);
    assert Value([s[0]]) == DigitValue(s[0]);
    LeadingWeight(DigitValue(s[0]), Pow10(|rest|), Value(rest));
  }

  lemma LeadingWeight(d: nat, p: nat, rest: nat)
    requires rest < p
    ensures 2 * (Times(d, p) + rest) < 10 * p <==> d < 5
  {
    Product(5, p);
    if d < 5 {
      Monotone(d, 5, p);
    } else {
      Monotone(5, d, p);
    }
  }

  /** The decimals the code keeps, and whether it adds one for the rest. */
  function Kept(decimals: string, frac: nat): string {
    if |decimals| > frac then decimals[..frac] else decimals + Zeros(frac - |decimals|)
  }

  function CarryOf(decimals: string, frac: nat): nat {
    if |decimals| > frac && decimals[frac] >= '5' then 1 else 0
  }

  lemma CutIsRounded(whole: string, kept: string, cut: string)
    requires AllDigits(whole) && AllDigits(kept) && AllDigits(cut) && cut != ""
    ensures Times(Value(whole), Pow10(|kept|)) + Value(kept) + (if cut[0] >= '5' then 1 else 0)
         == Rounded(Value((whole + kept) + cut), |cut| + |kept|, |kept|)
  {
    hide Times, Value, Pow10, Rounded;
    ValueConcat(whole, kept);
    ValueConcat(whole + kept, cut);
    ValueBound(cut);
    LeadingDigit(cut);
    RoundedParts(Value((whole + kept) + cut), |kept|, |cut|, Value(whole + kept), Value(cut));
  }

  lemma FilledIsRounded(whole: string, decimals: string, k: nat)
    requires AllDigits(whole) && AllDigits(decimals)
    ensures AllDigits(decimals + Zeros(k)) && AllDigits(whole + decimals)
    ensures Times(Value(whole), Pow10(|decimals| + k)) + Value(decimals + Zeros(k))
         == Rounded(Value(whole + decimals), |decimals|, |decimals| + k)
  {
    hide Times, Value, Pow10, Rounded;
    ValueZeros(k);
    ValueConcat(whole, decimals + Zeros(k));
    ValueConcat(whole + decimals, Zeros(k));
    assert whole + (decimals + Zeros(k)) == (whole + decimals) + Zeros(k);
    RoundedExact(Value(whole + decimals), |decimals|, |decimals| + k);
  }

  lemma CutAt(whole: string, decimals: string, frac: nat)
    requires frac < |decimals| && AllDigits(decimals)
    ensures whole + decimals == (whole + decimals[..frac]) + decimals[frac..]
    ensures AllDigits(decimals[..frac]) && AllDigits(decimals[frac..]) && decimals[frac..][0] == decimals[frac]
  {
  }

  lemma ZerosAreDigits(k: nat)
    ensures |Zeros(k)| == k && AllDigits(Zeros(k))
  {
    ValueZeros(k);
  }

  lemma KeptIsRounded(whole: string, decimals: string, frac: nat)
    requires AllDigits(whole) && AllDigits(decimals)
    ensures |Kept(decimals, frac)| == frac && AllDigits(Kept(decimals, frac))
    ensures Times(Value(whole), Pow10(frac)) + Value(Kept(decimals, frac)) + CarryOf(decimals, frac)
         == Rounded(Value(whole + decimals), |decimals|, frac)
  {
    hide Times, Value, Pow10, Rounded, AllDigits, Zeros;
    if |decimals| > frac {
      CutAt(whole, decimals, frac);
      CutIsRounded(whole, decimals[..frac], decimals[frac..]);
    } else {
      ZerosAreDigits(frac - |decimals|);
      FilledIsRounded(whole, decimals, frac - |decimals|);
    }
  }

  /** Within half a minor unit of the number read, and a half goes up. */
  lemma RoundedIsNearest(n: nat, m: nat, frac: nat)
    ensures var r := Rounded(n, m, frac);
            2 * Times(r, Pow10(m)) - Pow10(m) <= 2 * Times(n, Pow10(frac)) < 2 * Times(r, Pow10(m)) + Pow10(m)
  {
    Nearest(Times(n, Pow10(frac)), Pow10(m));
  }

  // ----- the parsers' loops -----

  lemma {:induction false} FirstMark(s: string, mark: set<char>, k: nat)
    requires k <= |s| && forall i :: 0 <= i < k ==> s[i] !in mark
    requires k < |s| ==> s[k] in mark
    ensures Before(s, mark) == s[..k] && After(s, mark) == if k < |s| then s[k + 1..] else ""
  {
    if k > 0 {
      FirstMark(s[1..], mark, k - 1);
      assert s[..k] == [s[0]] + s[1..][..k - 1];
    }
  }

  /** The last steps both parsers share: cut or pad the decimals, add, carry, sign. */
  method ToMinor(whole: string, decimals: string, frac: nat, neg: bool) returns (r: Option<int>)
    requires AllDigits(whole) && AllDigits(decimals)
    ensures r == Read(whole, decimals, frac, neg)
  {
    if whole == "" && decimals == "" {
      return None;
    }
    var roundUp := false;
    var kept := decimals;
    if |kept| > frac {
      if kept[frac] >= '5' {
        roundUp := true;
      }
      kept := kept[..frac];
    }
    kept := kept + Zeros(frac - |kept|);
    KeptIsRounded(whole, decimals, frac);
    assert kept == Kept(decimals, frac);
    var scale := PowerOfTen(frac);
    var total := Times(Value(whole), scale) + Value(kept);
    if roundUp {
      total := total + 1;
    }
    r := Some(if neg then 0 - total else total);
  }

  /** The first i characters read: the mark, if seen, stands at k, with the digits before and after it collected. */
  ghost predicate Scanned(s: string, i: int, k: int, dc: char, seen: bool, whole: string, decimals: string) {
    && 0 <= k <= i <= |s| && (forall j :: 0 <= j < k ==> s[j] != dc || IsDigit(dc))
    && (if seen then k < i && s[k] == dc && !IsDigit(dc) && whole == Digits(s[0..k]) && decimals == Digits(s[k + 1..i])
        else k == i && whole == Digits(s[0..i]) && decimals == "")
  }

  lemma DigitsStep(s: string, a: nat, i: nat)
    requires a <= i < |s|
    ensures Digits(s[a..i + 1]) == Digits(s[a..i]) + if IsDigit(s[i]) then [s[i]] else ""
  {
    assert s[a..i + 1][..i - a] == s[a..i];
  }

  lemma ScanStep(s: string, i: int, k: int, dc: char, seen: bool, whole: string, decimals: string)
    requires Scanned(s, i, k, dc, seen, whole, decimals) && i < |s|
    ensures var c := s[i];
            if IsDigit(c) then
              if seen then Scanned(s, i + 1, k, dc, true, whole, decimals + [c])
              else Scanned(s, i + 1, k + 1, dc, false, whole + [c], decimals)
            else if seen then Scanned(s, i + 1, k, dc, true, whole, decimals)
            else if c == dc then Scanned(s, i + 1, k, dc, true, whole, decimals)
            else Scanned(s, i + 1, k + 1, dc, false, whole, decimals)
  {
    DigitsStep(s, if seen then k + 1 else 0, i);
    hide Digits;
    EmptyHasNoDigits(s, i + 1);
  }

  lemma EmptyHasNoDigits(s: string, i: nat)
    requires i <= |s|
    ensures Digits(s[i..i]) == ""
  {
  }

  lemma ScanDone(s: string, k: int, decimalChar: string, seen: bool, whole: string, decimals: string)
    requires Scanned(s, |s|, k, if |decimalChar| > 0 then decimalChar[0] else '.', seen, whole, decimals)
    ensures whole == Digits(Before(s, SplitMark(decimalChar))) && decimals == Digits(After(s, SplitMark(decimalChar)))
  {
    EmptyHasNoDigits(s, 0);
    assert s[0..k] == s[..k] && s[0..|s|] == s[..|s|] && s[0..0] == "";
    assert seen ==> s[k + 1..|s|] == s[k + 1..];
    hide Digits, Before, After;
    FirstMark(s, SplitMark(decimalChar), if seen then k else |s|);
  }

  method ParseMinor(input: string, fracDigits: int, decimalChar: string) returns (r: Option<int>)
    ensures r == Parsed(input, fracDigits, decimalChar)
  {
    hide Digits, Scanned, Before, After, Trim, Negative, SplitMark;
    var s := Trim(input);
    if s == "" {
      NothingToRead(fracDigits, decimalChar, s);
      return None;
    }
    var frac := Max0(fracDigits);
    var neg := Negative(s);
    var dc := if |decimalChar| > 0 then decimalChar[0] else '.';
    var whole, decimals, seenDec := "", "", false;
    ghost var k := 0;
    ScanStart(s, dc);
    for i := 0 to |s|
      invariant Scanned(s, i, k, dc, seenDec, whole, decimals)
    {
      ScanStep(s, i, k, dc, seenDec, whole, decimals);
      if IsDigit(s[i]) {
        if seenDec {
          decimals := decimals + [s[i]];
        } else {
          whole := whole + [s[i]];
          k := k + 1;
        }
      } else if s[i] == dc && !seenDec {
        seenDec := true;
      } else if !seenDec {
        k := k + 1;
      }
    }
    ScanDone(s, k, decimalChar, seenDec, whole, decimals);
    r := ToMinor(whole, decimals, frac, neg);
  }

  lemma ScanStart(s: string, dc: char)
    ensures Scanned(s, 0, 0, dc, false, "", "")
  {
    EmptyHasNoDigits(s, 0);
  }

  lemma NothingToRead(fracDigits: int, decimalChar: string, s: string)
    requires s == ""
    ensures Read(Digits(Before(s, SplitMark(decimalChar))), Digits(After(s, SplitMark(decimalChar))),
                 Max0(fracDigits), Negative(s)) == None
  {
  }

  // ----- the lenient parser -----

  /** The digits and separators of a string. */
  function Cleaned(s: string): string {
    if s == "" then ""
    else
      var c := s[|s| - 1];
      Cleaned(s[..|s| - 1]) + (if IsDigit(c) || IsSeparator(c) then [c] else "")
  }

  function StripSeparators(s: string): string {
    if s == "" then ""
    else StripSeparators(s[..|s| - 1]) + (if IsSeparator(s[|s| - 1]) then "" else [s[|s| - 1]])
  }

  /** The digits of a string, and those on either side of its last separator. */
  datatype Reading = Reading(all: string, split: bool, before: string, after: string)

  /** How one more character changes a reading. */
  function Extended(r: Reading, c: char): Reading {
    var all := if IsDigit(c) then r.all + [c] else r.all;
    if IsSeparator(c) then Reading(all, true, r.all, "")
    else if r.split then Reading(all, true, r.before, if IsDigit(c) then r.after + [c] else r.after)
    else Reading(all, false, all, "")
  }

  function ReadingOf(s: string): (r: Reading)
    ensures !r.split ==> r.before == r.all && r.after == ""
  {
    if s == "" then Reading("", false, "", "") else Extended(ReadingOf(s[..|s| - 1]), s[|s| - 1])
  }

  lemma LastMore(p: string, c: char)
    ensures HasSeparator(p + [c]) <==> IsSeparator(c) || HasSeparator(p)
    ensures BeforeLast(p + [c]) == if IsSeparator(c) then p else if HasSeparator(p) then BeforeLast(p) else p + [c]
    ensures AfterLast(p + [c]) == if IsSeparator(c) then "" else if HasSeparator(p) then AfterLast(p) + [c] else ""
  {
    hide IsSeparator;
    assert (p + [c])[..|p|] == p;
  }

  lemma DigitsMore(p: string, c: char)
    ensures Digits(p + [c]) == if IsDigit(c) then Digits(p) + [c] else Digits(p)
  {
    assert (p + [c])[..|p|] == p;
  }

  lemma LastOfNothing()
    ensures BeforeLast("") == "" && AfterLast("") == "" && !HasSeparator("") && Digits("") == ""
  {
  }

  lemma {:induction false} NotSplit(p: string)
    ensures !HasSeparator(p) ==> BeforeLast(p) == p && AfterLast(p) == ""
  {
    if p != "" {
      NotSplit(p[..|p| - 1]);
      SplitLast(p);
      LastMore(p[..|p| - 1], p[|p| - 1]);
    }
  }

  lemma {:induction false} ReadingMeans(s: string)
    ensures ReadingOf(s) == Reading(Digits(s), HasSeparator(s), Digits(BeforeLast(s)), Digits(AfterLast(s)))
  {
    hide Digits, HasSeparator, BeforeLast, AfterLast, IsSeparator, IsDigit;
    LastOfNothing();
    if s != "" {
      var p, c := s[..|s| - 1], s[|s| - 1];
      ReadingMeans(p);
      SplitLast(s);
      NotSplit(p);
      LastMore(p, c);
      DigitsMore(p, c);
      DigitsMore(AfterLast(p), c);
    }
  }

  lemma OneMore(p: string, c: char)
    ensures ReadingOf(p + [c]) == Extended(ReadingOf(p), c)
  {
    assert (p + [c])[..|p|] == p;
  }

  lemma CleanedStep(p: string, c: char)
    ensures Cleaned(p + [c]) == if IsDigit(c) || IsSeparator(c) then Cleaned(p) + [c] else Cleaned(p)
  {
    assert (p + [c])[..|p|] == p;
  }

  lemma SplitLast(s: string)
    requires s != ""
    ensures s == s[..|s| - 1] + [s[|s| - 1]]
  {
  }

  ghost predicate IsCleaned(s: string) {
    forall i :: 0 <= i < |s| ==> IsDigit(s[i]) || IsSeparator(s[i])
  }

  lemma CleanedGrows(s: string, c: char)
    requires IsCleaned(s) && (IsDigit(c) || IsSeparator(c))
    ensures IsCleaned(s + [c])
  {
  }

  lemma {:induction false} CleanedReadsTheSame(s: string)
    ensures ReadingOf(Cleaned(s)) == ReadingOf(s) && IsCleaned(Cleaned(s))
  {
    if s != "" {
      hide ReadingOf, Cleaned, IsCleaned;
      var p, c := s[..|s| - 1], s[|s| - 1];
      CleanedReadsTheSame(p);
      SplitLast(s);
      CleanedStep(p, c);
      OneMore(p, c);
      OneMore(Cleaned(p), c);
      if IsDigit(c) || IsSeparator(c) {
        CleanedGrows(Cleaned(p), c);
      }
    }
  }

  lemma {:induction false} NoSeparator(s: string)
    requires forall i :: 0 <= i < |s| ==> !IsSeparator(s[i])
    ensures !HasSeparator(s)
  {
    if s != "" {
      NoSeparator(s[..|s| - 1]);
    }
  }

  lemma {:induction false} StrippedIsDigits(s: string)
    requires forall i :: 0 <= i < |s| ==> IsDigit(s[i]) || IsSeparator(s[i])
    ensures StripSeparators(s) == Digits(s)
  {
    if s != "" {
      StrippedIsDigits(s[..|s| - 1]);
    }
  }

  lemma {:induction false} LastMark(s: string, k: nat)
    requires k < |s| && IsSeparator(s[k]) && forall i :: k < i < |s| ==> !IsSeparator(s[i])
    ensures HasSeparator(s) && BeforeLast(s) == s[..k] && AfterLast(s) == s[k + 1..]
  {
    if k < |s| - 1 {
      var p := s[..|s| - 1];
      LastMark(p, k);
      assert s[k + 1..] == p[k + 1..] + [s[|s| - 1]] && p[..k] == s[..k];
    }
  }

  method LastSeparator(cleaned: string) returns (last: int)
    ensures -1 <= last < |cleaned|
    ensures last >= 0 ==> IsSeparator(cleaned[last])
    ensures forall j :: last < j < |cleaned| ==> !IsSeparator(cleaned[j])
  {
    last := |cleaned| - 1;
    while last >= 0
      invariant -1 <= last < |cleaned|
      invariant forall j :: last < j < |cleaned| ==> !IsSeparator(cleaned[j])
    {
      if cleaned[last] == '.' || cleaned[last] == ',' {
        return;
      }
      last := last - 1;
    }
  }

  method Clean(s: string) returns (cleaned: string)
    ensures cleaned == Cleaned(s)
  {
    cleaned := "";
    for i := 0 to |s|
      invariant cleaned == Cleaned(s[..i])
    {
      assert s[..i + 1][..i] == s[..i];
      if IsDigit(s[i]) || s[i] == '.' || s[i] == ',' {
        cleaned := cleaned + [s[i]];
      }
    }
    assert s[..|s|] == s;
  }

  method ParseAmountSmart(input: string, fracDigits: int) returns (r: Option<int>)
    ensures r == ParsedSmart(input, fracDigits)
  {
    hide Cleaned, StripSeparators, ReadingOf, Trim, Negative;
    var s := Trim(input);
    if s == "" {
      return None;
    }
    var frac := Max0(fracDigits);
    var neg := Negative(s);
    var cleaned := Clean(s);
    CleanedReadsTheSame(s);
    ReadingMeans(s);
    ReadingMeans(cleaned);
    var lastSep := -1;
    if frac > 0 {
      lastSep := LastSeparator(cleaned);
    }
    var whole, decimals;
    if lastSep < 0 {
      whole, decimals := StripSeparators(cleaned), "";
      StrippedIsDigits(cleaned);
      assert whole == Digits(s);
      if frac > 0 {
        NoSeparator(cleaned);
      }
    } else {
      whole, decimals := StripSeparators(cleaned[..lastSep]), StripSeparators(cleaned[lastSep + 1..]);
      StrippedIsDigits(cleaned[..lastSep]);
      StrippedIsDigits(cleaned[lastSep + 1..]);
      LastMark(cleaned, lastSep);
    }
    assert frac > 0 ==> whole == ReadingOf(s).before && decimals == ReadingOf(s).after;
    r := ToMinor(whole, decimals, frac, neg);
  }
}
