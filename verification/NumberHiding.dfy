/** Blanking long numbers before a text leaves the server: the digit pass of hideNumbers (server/internal/ai/mail.go). */
module NumberHiding {
  const BULLET: char := '\U{2022}'
  const HIDDEN := "[hidden]"

  predicate Digit(c: char) {
    '0' <= c <= '9'
  }

  predicate Mask(c: char) {
    c == '*' || c == BULLET || c == '_' || c == 'x' || c == 'X'
  }

  /** What a run may start with. */
  predicate Opens(c: char) {
    Digit(c) || Mask(c)
  }

  /** What a run is made of. */
  predicate Joins(c: char) {
    Digit(c) || Mask(c) || c == ' ' || c == '-'
  }

  ghost predicate AllJoin(s: string) {
    forall i :: 0 <= i < |s| ==> Joins(s[i])
  }

  ghost predicate NoDigits(s: string) {
    forall i :: 0 <= i < |s| ==> !Digit(s[i])
  }

  predicate IsoDate(s: string) {
    |s| == 10 && s[4] == '-' && s[7] == '-'
    && forall i :: 0 <= i < 10 && i != 4 && i != 7 ==> Digit(s[i])
  }

  function CountDigits(s: string): nat {
    if s == "" then 0 else CountDigits(s[..|s| - 1]) + (if Digit(s[|s| - 1]) then 1 else 0)
  }

  predicate Masked(s: string) {
    exists i :: 0 <= i < |s| && Mask(s[i])
  }

  /** A card's number, masked or not, or another long one. */
  predicate Long(s: string) {
    !IsoDate(s) && (CountDigits(s) >= 8 || (Masked(s) && CountDigits(s) >= 4))
  }

  // ----- a long number, in plain characters -----

  /** What a run is made of: digits, a space, a dash, and what banks mask cards with. */
  const RUN_CHARS: set<char> := {'0', '1', '2', '3', '4', '5', '6', '7', '8', '9', ' ', '-', '*', '_', 'x', 'X', '\U{2022}'}

  /** The places of a text's digits. */
  function DigitsIn(s: string): set<nat> {
    set i: nat | i < |s| && '0' <= s[i] <= '9'
  }

  predicate HasMask(s: string) {
    exists i :: 0 <= i < |s| && s[i] in {'*', '_', 'x', 'X', '\U{2022}'}
  }

  /** YYYY-MM-DD: digits but for two dashes. */
  predicate IsDate(s: string) {
    |s| == 10 && s[4] == '-' && s[7] == '-' && DigitsIn(s) == {0, 1, 2, 3, 5, 6, 8, 9}
  }

  /** Eight digits, or four beside a mask, that are no date. */
  predicate MustHide(s: string) {
    !IsDate(s) && (|DigitsIn(s)| >= 8 || (HasMask(s) && |DigitsIn(s)| >= 4))
  }

  lemma {:induction false} DigitsAreCounted(s: string)
    ensures CountDigits(s) == |DigitsIn(s)|
  {
    if s == "" {
      assert DigitsIn(s) == {};
    } else {
      var n := |s| - 1;
      DigitsAreCounted(s[..n]);
      assert forall i: nat :: i < n ==> s[..n][i] == s[i];
      assert DigitsIn(s) == DigitsIn(s[..n]) + if Digit(s[n]) then {n} else {};
    }
  }

  lemma DatesAreIso(s: string)
    ensures IsoDate(s) <==> IsDate(s)
  {
    if IsoDate(s) {
      assert forall i: nat :: i in DigitsIn(s) <==> i in {0, 1, 2, 3, 5, 6, 8, 9};
    }
    if IsDate(s) {
      forall i | 0 <= i < 10 && i != 4 && i != 7
        ensures Digit(s[i])
      {
        assert i in DigitsIn(s);
      }
    }
  }

  lemma LongMustHide(s: string)
    ensures Long(s) <==> MustHide(s)
    ensures forall c :: Joins(c) <==> c in RUN_CHARS
  {
    hide IsoDate, IsDate, CountDigits, DigitsIn;
    DigitsAreCounted(s);
    DatesAreIso(s);
  }

  function Replacement(run: string): string {
    if Long(run) then HIDDEN else run
  }

  // ----- the pass as the regular expression makes it -----

  /** The expression matches s[i..j]: an opening character, joined ones, and a digit last. */
  ghost predicate Match(s: string, i: int, j: int) {
    0 <= i && i + 2 <= j <= |s| && Opens(s[i]) && Digit(s[j - 1]) && forall k :: i <= k < j ==> Joins(s[k])
  }

  /** The match the expression finds from a position on: the leftmost, and the longest there. */
  ghost predicate Found(s: string, from: int, i: int, j: int) {
    && from <= i && Match(s, i, j)
    && (forall k, l :: from <= k < i ==> !Match(s, k, l))
    && (forall l :: Match(s, i, l) ==> l <= j)
  }

  /** The longest match at i; 0 when there is none. */
  method LongestAt(s: string, i: nat) returns (j: nat)
    requires i < |s|
    ensures j == 0 || Match(s, i, j)
    ensures forall l :: Match(s, i, l) ==> l <= j
  {
    j := 0;
    if !Opens(s[i]) {
      return;
    }
    var k := i + 1;
    while k < |s| && Joins(s[k])
      invariant i + 1 <= k <= |s| && forall m :: i <= m < k ==> Joins(s[m])
      invariant j == 0 || (j <= k && Match(s, i, j))
      invariant forall l :: Match(s, i, l) && l <= k ==> l <= j
    {
      k := k + 1;
      if Digit(s[k - 1]) {
        j := k;
      }
    }
    assert forall l :: Match(s, i, l) ==> l <= k;
  }

  method Find(s: string, from: nat) returns (i: nat, j: nat)
    requires from <= |s|
    ensures if i == |s| then forall k, l :: from <= k ==> !Match(s, k, l) else Found(s, from, i, j)
  {
    i, j := from, 0;
    while i < |s|
      invariant from <= i <= |s| && forall k, l :: from <= k < i ==> !Match(s, k, l)
    {
      j := LongestAt(s, i);
      if j > 0 {
        return;
      }
      i := i + 1;
    }
  }

  /** What takes the place of a run the expression found. */
  method HideRun(run: string) returns (r: string)
    ensures r == Replacement(run)
  {
    if IsoDate(run) {
      return run;
    }
    var digits, masked := 0, false;
    for i := 0 to |run|
      invariant digits == CountDigits(run[..i])
      invariant masked <==> exists k :: 0 <= k < i && Mask(run[k])
    {
      assert run[..i + 1][..i] == run[..i];
      if '0' <= run[i] <= '9' {
        digits := digits + 1;
      } else if run[i] == '*' || run[i] == BULLET || run[i] == '_' || run[i] == 'x' || run[i] == 'X' {
        masked := true;
      }
    }
    assert run[..|run|] == run;
    r := if digits >= 8 || (masked && digits >= 4) then HIDDEN else run;
  }

  // ----- the pass said run by run -----

  /** The length of the run of joined characters at the front. */
  function RunLength(s: string): (n: nat)
    ensures n <= |s| && AllJoin(s[..n]) && (n < |s| ==> !Joins(s[n]))
  {
    if s != "" && Joins(s[0]) then
      var n := 1 + RunLength(s[1..]);
      assert s[..n] == [s[0]] + s[1..][..n - 1];
      n
    else 0
  }

  function FirstOpening(r: string): (p: nat)
    ensures p <= |r| && (p < |r| ==> Opens(r[p])) && forall i :: 0 <= i < p ==> !Opens(r[i])
  {
    if r == "" || Opens(r[0]) then 0 else 1 + FirstOpening(r[1..])
  }

  function LastDigit(r: string): (q: int)
    ensures -1 <= q < |r| && (q >= 0 ==> Digit(r[q])) && forall i :: q < i < |r| ==> !Digit(r[i])
  {
    if r == "" || Digit(r[|r| - 1]) then |r| - 1 else LastDigit(r[..|r| - 1])
  }

  /** From the first digit or mask character of a run to its last digit. */
  function Span(r: string): string {
    var p, q := FirstOpening(r), LastDigit(r);
    if p <= q then r[p..q + 1] else ""
  }

  function HideIn(r: string): string {
    var p, q := FirstOpening(r), LastDigit(r);
    if p < q then r[..p] + Replacement(r[p..q + 1]) + r[q + 1..] else r
  }

  function Hidden(s: string): string
    decreases |s|
  {
    if s == "" then ""
    else if !Joins(s[0]) then [s[0]] + Hidden(s[1..])
    else HideIn(s[..RunLength(s)]) + Hidden(s[RunLength(s)..])
  }

  lemma {:induction false} RunLengthIs(s: string, m: nat)
    requires m <= |s| && AllJoin(s[..m]) && (m < |s| ==> !Joins(s[m]))
    ensures RunLength(s) == m
  {
    var n := RunLength(s);
    assert forall k :: 0 <= k < m ==> s[k] == s[..m][k];
    assert forall k :: 0 <= k < n ==> s[k] == s[..n][k];
  }

  /** A run with no digit stays as it is. */
  lemma DigitlessRun(s: string, m: nat)
    requires m <= |s| && AllJoin(s[..m]) && NoDigits(s[..m]) && (m < |s| ==> !Joins(s[m]))
    ensures Hidden(s) == s[..m] + Hidden(s[m..])
  {
    if m > 0 {
      RunLengthIs(s, m);
      assert s[..m][0] == s[0];
    } else {
      assert s[m..] == s && s[..m] == "";
    }
  }

  /** In a run, the match goes from its first opening character to its last digit. */
  lemma MatchInRun(s: string, i: int, j: int)
    requires Found(s, 0, i, j) && i < RunLength(s)
    ensures var r := s[..RunLength(s)];
            FirstOpening(r) == i && LastDigit(r) == j - 1 && j <= RunLength(s)
  {
    var n := RunLength(s);
    var r := s[..n];
    assert forall k :: 0 <= k < n ==> r[k] == s[k];
    var p, q := FirstOpening(r), LastDigit(r);
    assert j <= n;
    assert r[j - 1] == s[j - 1] && r[i] == s[i];
    assert p <= i && j - 1 <= q;
    assert Match(s, i, q + 1);
    assert Match(s, p, q + 1);
  }

  lemma MatchFurther(s: string, n: nat, i: int, j: int)
    requires n <= i && Found(s, 0, i, j)
    ensures Found(s[n..], 0, i - n, j - n)
  {
    assert forall k, l :: Match(s[n..], k, l) ==> Match(s, k + n, l + n);
  }

  /** A run before the match has nothing to hide. */
  lemma RunWithoutMatch(s: string)
    requires forall l, k :: 0 <= k < RunLength(s) ==> !Match(s, k, l)
    ensures HideIn(s[..RunLength(s)]) == s[..RunLength(s)]
  {
    var n := RunLength(s);
    var r := s[..n];
    assert forall k :: 0 <= k < n ==> r[k] == s[k];
    var p, q := FirstOpening(r), LastDigit(r);
    if p < q {
      assert Match(s, p, q + 1);
    }
  }

  /** One replacement: what is before the match stays, the match is replaced, and the pass goes on behind it. */
  lemma {:induction false} HiddenAtMatch(s: string, i: int, j: int)
    requires Found(s, 0, i, j)
    ensures 0 <= i && i + 2 <= j <= |s|
    ensures Hidden(s) == s[..i] + Replacement(s[i..j]) + Hidden(s[j..])
    decreases |s|
  {
    hide *;
    FoundBounds(s, i, j);
    var n := RunLength(s);
    if !Joins(s[0]) {
      NotOutside(s, 0, i, j);
      MatchFurther(s, 1, i, j);
      HiddenAtMatch(s[1..], i - 1, j - 1);
      HiddenOutside(s);
      Shift(s, 1, i, j, Replacement(s[i..j]), Hidden(s[j..]));
    } else if i < n {
      HiddenInRun(s, i, j);
    } else {
      RunWithoutMatchBefore(s, i, j);
      MatchFurther(s, n, i, j);
      HiddenRun(s);
      HiddenAtMatch(s[n..], i - n, j - n);
      Shift(s, n, i, j, Replacement(s[i..j]), Hidden(s[j..]));
    }
  }

  lemma HiddenOutside(s: string)
    requires s != "" && !Joins(s[0])
    ensures Hidden(s) == [s[0]] + Hidden(s[1..])
  {
  }

  lemma HiddenInRun(s: string, i: int, j: int)
    requires Found(s, 0, i, j) && s != "" && Joins(s[0]) && i < RunLength(s)
    ensures 0 <= i && i + 2 <= j <= |s|
    ensures Hidden(s) == s[..i] + Replacement(s[i..j]) + Hidden(s[j..])
  {
    hide *;
    var n := RunLength(s);
    MatchInRun(s, i, j);
    FoundBounds(s, i, j);
    HiddenRun(s);
    HideInIs(s, n, i, j);
    EndOfRun(s, n, j);
    InRun(s[..i], Replacement(s[i..j]), s[j..n], Hidden(s[n..]));
  }

  lemma HiddenRun(s: string)
    requires s != "" && Joins(s[0])
    ensures RunLength(s) > 0
    ensures Hidden(s) == HideIn(s[..RunLength(s)]) + Hidden(s[RunLength(s)..])
  {
    hide HideIn;
  }

  lemma HideInIs(s: string, n: nat, i: int, j: int)
    requires n <= |s| && 0 <= i < j - 1 && j <= n && FirstOpening(s[..n]) == i && LastDigit(s[..n]) == j - 1
    ensures HideIn(s[..n]) == s[..i] + Replacement(s[i..j]) + s[j..n]
  {
    hide FirstOpening, LastDigit, Replacement;
    var r := s[..n];
    assert r[..i] == s[..i] && r[i..j] == s[i..j] && r[j..] == s[j..n];
  }

  lemma RunWithoutMatchBefore(s: string, i: int, j: int)
    requires Found(s, 0, i, j) && RunLength(s) <= i
    ensures HideIn(s[..RunLength(s)]) == s[..RunLength(s)]
  {
    hide Match, HideIn, Joins, RunLength;
    RunWithoutMatch(s);
  }

  lemma NotOutside(s: string, k: int, i: int, j: int)
    requires 0 <= k <= i && Found(s, 0, i, j) && k < |s| && !Joins(s[k])
    ensures k < i
  {
  }

  lemma Shift(s: string, n: nat, i: int, j: int, mid: string, rest: string)
    requires n <= i <= j <= |s|
    ensures s[n..][i - n..j - n] == s[i..j] && s[n..][j - n..] == s[j..]
    ensures s[..n] + (s[n..][..i - n] + mid + rest) == s[..i] + mid + rest
    ensures n == 1 ==> [s[0]] == s[..1]
  {
  }

  lemma InRun(a: string, mid: string, b: string, rest: string)
    ensures (a + mid + b) + rest == a + mid + (b + rest)
  {
  }

  lemma TailOfRun(s: string, n: nat, j: nat)
    requires n == RunLength(s) && j <= n && LastDigit(s[..n]) == j - 1
    ensures s[j..][..n - j] == s[j..n] && s[j..][n - j..] == s[n..]
    ensures AllJoin(s[j..n]) && NoDigits(s[j..n]) && (n < |s| ==> !Joins(s[n]))
  {
    hide RunLength, LastDigit;
    var u, r := s[j..n], s[..n];
    assert forall k :: 0 <= k < |u| ==> u[k] == r[j + k];
  }

  /** Behind the match, what is left of its run has no digit. */
  lemma EndOfRun(s: string, n: nat, j: nat)
    requires n == RunLength(s) && j <= n && LastDigit(s[..n]) == j - 1
    ensures Hidden(s[j..]) == s[j..n] + Hidden(s[n..])
  {
    hide *;
    TailOfRun(s, n, j);
    DigitlessRun(s[j..], n - j);
  }

  /** Nothing found, nothing changed. */
  lemma {:induction false} HiddenWithoutMatch(s: string)
    requires forall k, l :: 0 <= k ==> !Match(s, k, l)
    ensures Hidden(s) == s
    decreases |s|
  {
    if s != "" {
      if !Joins(s[0]) {
        assert forall k, l :: Match(s[1..], k, l) ==> Match(s, k + 1, l + 1);
        HiddenWithoutMatch(s[1..]);
      } else {
        var n := RunLength(s);
        assert forall k, l :: Match(s[n..], k, l) ==> Match(s, k + n, l + n);
        RunWithoutMatch(s);
        HiddenWithoutMatch(s[n..]);
        assert s == s[..n] + s[n..];
      }
    }
  }

  /** The digit pass: each match, found behind the one before, is replaced. */
  method HideNumbers(s: string) returns (out: string)
    ensures out == Hidden(s)
  {
    hide *;
    out := "";
    var pos := 0;
    while true
      invariant 0 <= pos <= |s| && out + Hidden(s[pos..]) == Hidden(s)
      decreases |s| - pos
    {
      var rest := s[pos..];
      var i, j := Find(rest, 0);
      if i == |rest| {
        HiddenWithoutMatch(rest);
        out := out + rest;
        return;
      }
      HiddenAtMatch(rest, i, j);
      FoundBounds(rest, i, j);
      var r := HideRun(rest[i..j]);
      assert rest[j..] == s[pos + j..];
      assert out + (rest[..i] + r + Hidden(rest[j..])) == (out + rest[..i] + r) + Hidden(rest[j..]);
      out := out + rest[..i] + r;
      pos := pos + j;
    }
  }

  lemma FoundBounds(s: string, i: int, j: int)
    requires Found(s, 0, i, j)
    ensures 0 <= i && i + 2 <= j <= |s|
  {
  }

  // ----- what the pass guarantees -----

  /** A maximal run of joined characters. */
  ghost predicate Run(t: string, a: int, b: int) {
    && 0 <= a < b <= |t|
    && (forall k :: a <= k < b ==> Joins(t[k]))
    && (a == 0 || !Joins(t[a - 1])) && (b == |t| || !Joins(t[b]))
  }

  predicate AllSafe(t: string)
    decreases |t|
  {
    if t == "" then true
    else if !Joins(t[0]) then AllSafe(t[1..])
    else !Long(Span(t[..RunLength(t)])) && AllSafe(t[RunLength(t)..])
  }

  /** No run goes on from x into y. */
  predicate Apart(x: string, y: string) {
    x == "" || y == "" || !Joins(x[|x| - 1]) || !Joins(y[0])
  }

  lemma {:induction false} SafeAppend(x: string, y: string)
    requires Apart(x, y)
    ensures AllSafe(x + y) <==> AllSafe(x) && AllSafe(y)
    decreases |x|
  {
    hide Long, Span;
    if x == "" {
      assert x + y == y;
    } else if !Joins(x[0]) {
      assert (x + y)[1..] == x[1..] + y;
      SafeAppend(x[1..], y);
    } else {
      var n := RunLength(x);
      RunAppend(x, y);
      assert (x + y)[..n] == x[..n] && (x + y)[n..] == x[n..] + y;
      SafeAppend(x[n..], y);
    }
  }

  lemma RunAppend(x: string, y: string)
    requires x != "" && Apart(x, y)
    ensures RunLength(x + y) == RunLength(x)
  {
    var n := RunLength(x);
    assert (x + y)[..n] == x[..n];
    assert n > 0 ==> x[..n][n - 1] == x[n - 1];
    RunLengthIs(x + y, n);
  }

  lemma DigitlessIsSafe(x: string)
    requires AllJoin(x) && NoDigits(x)
    ensures AllSafe(x)
  {
    if x != "" {
      assert x[..|x|] == x;
      RunLengthIs(x, |x|);
    }
  }

  lemma {:induction false} AllOutside(t: string)
    requires forall k :: 0 <= k < |t| ==> !Joins(t[k])
    ensures AllSafe(t)
  {
    if t != "" {
      AllOutside(t[1..]);
    }
  }

  /** Only what is between the two ends of a run holds digits. */
  lemma EndsOfRun(r: string)
    requires AllJoin(r) && FirstOpening(r) < LastDigit(r)
    ensures var p, q := FirstOpening(r), LastDigit(r);
            && AllJoin(r[..p]) && NoDigits(r[..p]) && AllJoin(r[q + 1..]) && NoDigits(r[q + 1..])
            && Span(r) == r[p..q + 1]
            && HideIn(r) == r[..p] + Replacement(Span(r)) + r[q + 1..]
  {
    hide Long, FirstOpening, LastDigit;
  }

  lemma MarkerOutside()
    ensures |HIDDEN| == 8 && forall k :: 0 <= k < |HIDDEN| ==> !Joins(HIDDEN[k])
  {
  }

  lemma MarkerStandsApart(x: string, y: string)
    ensures AllSafe(HIDDEN) && Apart(x, HIDDEN) && Apart(x + HIDDEN, y)
  {
    hide Joins, AllSafe;
    MarkerOutside();
    assert (x + HIDDEN)[|x + HIDDEN| - 1] == HIDDEN[|HIDDEN| - 1];
    AllOutside(HIDDEN);
  }

  /** One run, with the number in it blanked, is safe. */
  lemma RunIsSafe(r: string)
    requires r != "" && AllJoin(r)
    ensures AllSafe(HideIn(r))
  {
    hide *;
    if FirstOpening(r) < LastDigit(r) && Long(Span(r)) {
      EndsOfRun(r);
      var x, y := r[..FirstOpening(r)], r[LastDigit(r) + 1..];
      LongIsReplaced(Span(r));
      DigitlessIsSafe(x);
      DigitlessIsSafe(y);
      MarkerStandsApart(x, y);
      SafeAppend(x, HIDDEN);
      SafeAppend(x + HIDDEN, y);
    } else {
      ShortIsSafe(r);
    }
  }

  lemma LongIsReplaced(run: string)
    requires Long(run)
    ensures Replacement(run) == HIDDEN
  {
  }

  lemma ShortIsSafe(r: string)
    requires r != "" && AllJoin(r)
    requires FirstOpening(r) < LastDigit(r) ==> !Long(Span(r))
    ensures AllSafe(r) && HideIn(r) == r
  {
    hide FirstOpening, LastDigit, Long, Span, CountDigits, Masked, RunLength;
    if FirstOpening(r) < LastDigit(r) {
      ShortIsKept(r);
    } else {
      SpanOfOne(r);
    }
    WholeRun(r);
  }

  lemma WholeRun(r: string)
    requires r != "" && AllJoin(r) && !Long(Span(r))
    ensures AllSafe(r)
  {
    hide Long, Span;
    assert r[..|r|] == r && r[|r|..] == "";
    RunLengthIs(r, |r|);
  }

  lemma ShortIsKept(r: string)
    requires FirstOpening(r) < LastDigit(r) && !Long(Span(r))
    ensures HideIn(r) == r
  {
    hide FirstOpening, LastDigit, Long;
    var p, q := FirstOpening(r), LastDigit(r);
    assert r == r[..p] + r[p..q + 1] + r[q + 1..];
  }

  lemma SpanOfOne(r: string)
    requires LastDigit(r) <= FirstOpening(r)
    ensures !Long(Span(r))
  {
    hide FirstOpening, LastDigit;
    var t := Span(r);
    assert |t| <= 1;
    assert t != "" ==> CountDigits(t[..|t| - 1]) == 0;
  }

  /** Hiding one run of a text in place. */
  lemma {:induction false} HiddenIsAllSafe(s: string)
    ensures AllSafe(Hidden(s))
    ensures s != "" && !Joins(s[0]) ==> Hidden(s) != "" && Hidden(s)[0] == s[0]
    decreases |s|
  {
    if s == "" {
    } else if !Joins(s[0]) {
      hide Span, Long, RunLength, HideIn;
      HiddenIsAllSafe(s[1..]);
      assert ([s[0]] + Hidden(s[1..]))[1..] == Hidden(s[1..]);
    } else {
      var n := RunLength(s);
      hide HideIn, AllSafe;
      RunIsSafe(s[..n]);
      HiddenIsAllSafe(s[n..]);
      SafeAppend(HideIn(s[..n]), Hidden(s[n..]));
    }
  }

  lemma RunStartsAtZero(t: string, a: int, b: int)
    requires Run(t, a, b) && a < RunLength(t)
    ensures a == 0 && b == RunLength(t)
  {
    var n := RunLength(t);
    var u := t[..n];
    assert forall k :: 0 <= k < n ==> t[k] == u[k];
    RunLengthIs(t, b);
  }

  lemma SafeStep(t: string)
    requires AllSafe(t) && t != ""
    ensures !Joins(t[0]) ==> AllSafe(t[1..])
    ensures Joins(t[0]) ==> RunLength(t) > 0 && !Long(Span(t[..RunLength(t)])) && AllSafe(t[RunLength(t)..])
  {
    hide Long, Span;
  }

  lemma RunFurther(t: string, n: nat, a: int, b: int)
    requires Run(t, a, b) && n <= a
    ensures Run(t[n..], a - n, b - n) && t[n..][a - n..b - n] == t[a..b]
  {
  }

  lemma RunBounds(t: string, a: int, b: int)
    requires Run(t, a, b)
    ensures 0 <= a < b <= |t| && (!Joins(t[0]) ==> a > 0)
  {
  }

  lemma {:induction false} SafeRun(t: string, a: int, b: int)
    requires AllSafe(t) && Run(t, a, b)
    ensures 0 <= a < b <= |t| && !Long(Span(t[a..b]))
    decreases |t|
  {
    hide *;
    RunBounds(t, a, b);
    SafeStep(t);
    var n := RunLength(t);
    if !Joins(t[0]) {
      RunFurther(t, 1, a, b);
      SafeRun(t[1..], a - 1, b - 1);
    } else if a < n {
      RunStartsAtZero(t, a, b);
      assert t[..b] == t[a..b];
    } else {
      RunFurther(t, n, a, b);
      SafeRun(t[n..], a - n, b - n);
    }
  }

  /**
   * In the text that leaves, take any maximal run of digits, masks, spaces and dashes: from its first digit or mask
   * to its last digit it is a date, or has fewer than eight digits, and fewer than four if it is masked.
   */
  lemma HiddenIsSafe(s: string, a: int, b: int)
    requires Run(Hidden(s), a, b)
    ensures var number := Span(Hidden(s)[a..b]);
            IsDate(number) || (|DigitsIn(number)| < 8 && (HasMask(number) ==> |DigitsIn(number)| < 4))
  {
    hide Hidden, Span, Run, IsDate, DigitsIn, HasMask, Long;
    HiddenIsAllSafe(s);
    SafeRun(Hidden(s), a, b);
    LongMustHide(Span(Hidden(s)[a..b]));
  }

  lemma {:induction false} SafeStays(t: string)
    requires AllSafe(t)
    ensures Hidden(t) == t
    decreases |t|
  {
    hide Long, Span, HideIn;
    if t == "" {
    } else if !Joins(t[0]) {
      SafeStays(t[1..]);
    } else {
      var n := RunLength(t);
      SafeStays(t[n..]);
      ShortIsSafe(t[..n]);
      assert t == t[..n] + t[n..];
    }
  }

  /** Hiding what was hidden changes nothing more. */
  lemma HidingIsIdempotent(s: string)
    ensures Hidden(Hidden(s)) == Hidden(s)
  {
    hide Hidden, AllSafe;
    HiddenIsAllSafe(s);
    SafeStays(Hidden(s));
  }

  // ----- what stays -----

  datatype Piece = Kept(text: string) | Blanked(text: string)

  function Source(ps: seq<Piece>): string {
    if ps == [] then "" else ps[0].text + Source(ps[1..])
  }

  function Output(ps: seq<Piece>): string {
    if ps == [] then "" else (if ps[0].Kept? then ps[0].text else HIDDEN) + Output(ps[1..])
  }

  /** A run the pass may blank: it starts with a digit or a mask, ends with a digit, and is long. */
  ghost predicate Blankable(run: string) {
    && |run| >= 2 && Opens(run[0]) && Digit(run[|run| - 1]) && AllJoin(run)
    && MustHide(run)
  }

  function PiecesOfRun(r: string): seq<Piece> {
    var p, q := FirstOpening(r), LastDigit(r);
    if p < q && Long(Span(r)) then [Kept(r[..p]), Blanked(Span(r)), Kept(r[q + 1..])] else [Kept(r)]
  }

  function Pieces(s: string): seq<Piece>
    decreases |s|
  {
    if s == "" then []
    else if !Joins(s[0]) then [Kept([s[0]])] + Pieces(s[1..])
    else PiecesOfRun(s[..RunLength(s)]) + Pieces(s[RunLength(s)..])
  }

  lemma PieceFirst(p: Piece, ps: seq<Piece>)
    ensures Source([p] + ps) == p.text + Source(ps)
    ensures Output([p] + ps) == (if p.Kept? then p.text else HIDDEN) + Output(ps)
  {
    assert ([p] + ps)[1..] == ps;
  }

  lemma PiecesOfRunAre(r: string)
    requires AllJoin(r)
    ensures if FirstOpening(r) < LastDigit(r) && Long(Span(r)) then
              exists a, b :: PiecesOfRun(r) == [Kept(a), Blanked(Span(r)), Kept(b)] && r == a + Span(r) + b
                             && HideIn(r) == a + Replacement(Span(r)) + b
            else PiecesOfRun(r) == [Kept(r)]
  {
    hide Long, FirstOpening, LastDigit, AllJoin, NoDigits, Replacement;
    var p, q := FirstOpening(r), LastDigit(r);
    if p < q && Long(Span(r)) {
      EndsOfRun(r);
      assert r == r[..p] + Span(r) + r[q + 1..];
      assert PiecesOfRun(r) == [Kept(r[..p]), Blanked(Span(r)), Kept(r[q + 1..])];
    }
  }

  lemma ThreePieces(a: string, m: string, b: string, ps: seq<Piece>)
    ensures Source([Kept(a), Blanked(m), Kept(b)] + ps) == a + m + b + Source(ps)
    ensures Output([Kept(a), Blanked(m), Kept(b)] + ps) == a + HIDDEN + b + Output(ps)
  {
    hide Source, Output;
    assert [Kept(a), Blanked(m), Kept(b)] + ps == [Kept(a)] + ([Blanked(m)] + ([Kept(b)] + ps));
    PieceFirst(Kept(a), [Blanked(m)] + ([Kept(b)] + ps));
    PieceFirst(Blanked(m), [Kept(b)] + ps);
    PieceFirst(Kept(b), ps);
    InRun(a, m, b, Source(ps));
    InRun(a, HIDDEN, b, Output(ps));
    FirstOf(m, b, Source(ps));
    FirstOf(HIDDEN, b, Output(ps));
  }

  lemma RunInPieces(r: string, ps: seq<Piece>)
    requires r != "" && AllJoin(r)
    ensures Source(PiecesOfRun(r) + ps) == r + Source(ps)
    ensures Output(PiecesOfRun(r) + ps) == HideIn(r) + Output(ps)
  {
    hide *;
    PiecesOfRunAre(r);
    if FirstOpening(r) < LastDigit(r) && Long(Span(r)) {
      var a, b :| PiecesOfRun(r) == [Kept(a), Blanked(Span(r)), Kept(b)] && r == a + Span(r) + b
                  && HideIn(r) == a + Replacement(Span(r)) + b;
      LongIsReplaced(Span(r));
      ThreePieces(a, Span(r), b, ps);
    } else {
      ShortIsSafe(r);
      PieceFirst(Kept(r), ps);
    }
  }

  lemma RunIsBlankable(r: string)
    requires AllJoin(r) && FirstOpening(r) < LastDigit(r) && Long(Span(r))
    ensures Blankable(Span(r))
  {
    hide Long, FirstOpening, LastDigit, MustHide;
    LongMustHide(Span(r));
  }

  lemma Split(s: string, n: nat)
    requires n <= |s|
    ensures s == s[..n] + s[n..] && (n == 1 ==> s == [s[0]] + s[1..])
  {
  }

  lemma PiecesStep(s: string)
    ensures s == "" ==> Pieces(s) == []
    ensures s != "" && !Joins(s[0]) ==> Pieces(s) == [Kept([s[0]])] + Pieces(s[1..])
    ensures s != "" && Joins(s[0]) ==> Pieces(s) == PiecesOfRun(s[..RunLength(s)]) + Pieces(s[RunLength(s)..])
  {
    hide PiecesOfRun;
  }

  /** Every character outside the blanked runs stays, in order, and in the place of each of these is the marker. */
  lemma {:induction false} EverythingElseStays(s: string)
    ensures Source(Pieces(s)) == s && Output(Pieces(s)) == Hidden(s)
    decreases |s|
  {
    if s != "" {
      hide *;
      PiecesStep(s);
      if !Joins(s[0]) {
        EverythingElseStays(s[1..]);
        HiddenOutside(s);
        PieceFirst(Kept([s[0]]), Pieces(s[1..]));
        Split(s, 1);
      } else {
        var n := RunLength(s);
        HiddenRun(s);
        EverythingElseStays(s[n..]);
        RunInPieces(s[..n], Pieces(s[n..]));
        Split(s, n);
      }
    }
  }

  /** And every run that was blanked was a long number. */
  lemma {:induction false} OnlyLongNumbersAreBlanked(s: string, run: string)
    requires Blanked(run) in Pieces(s)
    ensures Blankable(run)
    decreases |s|
  {
    hide *;
    PiecesStep(s);
    if !Joins(s[0]) {
      OnlyLongNumbersAreBlanked(s[1..], run);
    } else {
      HiddenRun(s);
      var n := RunLength(s);
      if Blanked(run) in Pieces(s[n..]) {
        OnlyLongNumbersAreBlanked(s[n..], run);
      } else {
        BlankedInRun(s[..n], run);
      }
    }
  }

  lemma BlankedInRun(r: string, run: string)
    requires AllJoin(r) && Blanked(run) in PiecesOfRun(r)
    ensures Blankable(run)
  {
    hide Blankable, Long, FirstOpening, LastDigit, Span, AllJoin;
    RunIsBlankable(r);
  }

  // ----- each run hidden in its place, or as it was -----

  /** Texts no run connects are hidden each on its own. */
  lemma {:induction false} HiddenApart(x: string, y: string)
    requires Apart(x, y)
    ensures Hidden(x + y) == Hidden(x) + Hidden(y)
    decreases |x|
  {
    hide HideIn;
    if x == "" {
      assert x + y == y;
    } else if !Joins(x[0]) {
      assert (x + y)[1..] == x[1..] + y;
      HiddenApart(x[1..], y);
      FirstOf([x[0]], Hidden(x[1..]), Hidden(y));
    } else {
      var n := RunLength(x);
      RunAppend(x, y);
      assert (x + y)[..n] == x[..n] && (x + y)[n..] == x[n..] + y;
      HiddenApart(x[n..], y);
      FirstOf(HideIn(x[..n]), Hidden(x[n..]), Hidden(y));
    }
  }

  lemma FirstOf(a: string, b: string, c: string)
    ensures a + (b + c) == (a + b) + c
  {
  }

  lemma HiddenWholeRun(r: string)
    requires r != "" && AllJoin(r)
    ensures Hidden(r) == HideIn(r)
  {
    hide HideIn;
    assert r[..|r|] == r && r[|r|..] == "";
    RunLengthIs(r, |r|);
  }

  /** A run cut at its ends: what is in front, from the first digit or mask to the last digit, what is behind. */
  ghost predicate IsCut(run: string, front: string, number: string, back: string) {
    && run == front + number + back
    && DigitsIn(front) == {} && DigitsIn(back) == {}
    && (number != "" ==> !HasMask(front) && number[0] != ' ' && number[0] != '-' && '0' <= number[|number| - 1] <= '9')
  }

  lemma NoDigitsIn(s: string)
    requires NoDigits(s)
    ensures DigitsIn(s) == {}
  {
  }

  lemma PartsAreCut(r: string, p: nat, q: nat)
    requires p <= q < |r| && Opens(r[p]) && Digit(r[q])
    requires (forall i :: 0 <= i < p ==> !Opens(r[i])) && forall i :: q < i < |r| ==> !Digit(r[i])
    ensures IsCut(r, r[..p], r[p..q + 1], r[q + 1..])
  {
    hide DigitsIn;
    NoDigitsIn(r[..p]);
    NoDigitsIn(r[q + 1..]);
    var front, number := r[..p], r[p..q + 1];
    assert number[0] == r[p] && number[|number| - 1] == r[q];
    assert forall i :: 0 <= i < |front| ==> front[i] == r[i] && !Opens(r[i]);
    assert r == front + number + r[q + 1..];
  }

  lemma CutOf(r: string) returns (front: string, number: string, back: string)
    requires AllJoin(r)
    ensures IsCut(r, front, number, back)
    ensures HideIn(r) == if MustHide(number) then front + "[hidden]" + back else r
  {
    hide IsDate, MustHide, Long, IsCut, FirstOpening, LastDigit, Opens, Digit, AllJoin;
    var p, q := FirstOpening(r), LastDigit(r);
    if p <= q {
      front, number, back := r[..p], r[p..q + 1], r[q + 1..];
      PartsAreCut(r, p, q);
      LongMustHide(number);
      if p == q {
        SpanOfOne(r);
      }
    } else {
      front, number, back := r, "", "";
      NothingOpens(r);
      NothingToHide();
    }
  }

  lemma NothingOpens(r: string)
    requires LastDigit(r) < FirstOpening(r)
    ensures IsCut(r, r, "", "")
  {
    var q := LastDigit(r);
    assert q >= 0 ==> Opens(r[q]);
    assert NoDigits(r);
    NoDigitsIn(r);
    NothingToHide();
    assert r + "" + "" == r;
  }

  lemma NothingToHide()
    ensures !MustHide("") && DigitsIn("") == {}
  {
  }

  /**
   * Take any maximal run. It is cut at its ends; a long number in the middle that is no date gives way to the marker,
   * anything else, a date too, stays as it is. What is before the run and behind it is hidden on its own.
   */
  lemma RunHiddenInPlace(s: string, a: nat, b: nat) returns (front: string, number: string, back: string)
    requires a < b <= |s| && forall i :: a <= i < b ==> s[i] in RUN_CHARS
    requires (a == 0 || s[a - 1] !in RUN_CHARS) && (b == |s| || s[b] !in RUN_CHARS)
    ensures IsCut(s[a..b], front, number, back)
    ensures Hidden(s) == Hidden(s[..a]) + (if MustHide(number) then front + "[hidden]" + back else s[a..b]) + Hidden(s[b..])
  {
    hide MustHide, IsCut, Hidden, HideIn;
    LongMustHide("");
    var x, r, y := s[..a], s[a..b], s[b..];
    assert s == x + (r + y);
    assert AllJoin(r);
    HiddenApart(r, y);
    HiddenApart(x, r + y);
    HiddenWholeRun(r);
    front, number, back := CutOf(r);
    FirstOf(Hidden(x), Hidden(r), Hidden(y));
  }

  /** What is in no run stays. */
  lemma {:induction false} NoRunStays(s: string)
    requires forall i :: 0 <= i < |s| ==> s[i] !in RUN_CHARS
    ensures Hidden(s) == s
  {
    LongMustHide("");
    if s != "" {
      NoRunStays(s[1..]);
    }
  }

  lemma EndDigits(s: string)
    ensures s != "" && '0' <= s[0] <= '9' ==> DigitsIn(s) != {}
    ensures s != "" && '0' <= s[|s| - 1] <= '9' ==> DigitsIn(s) != {}
  {
    if s != "" {
      assert '0' <= s[0] <= '9' ==> 0 in DigitsIn(s);
      assert '0' <= s[|s| - 1] <= '9' ==> |s| - 1 in DigitsIn(s);
    }
  }

  lemma WholeIsTheNumber(r: string, front: string, number: string, back: string)
    requires IsCut(r, front, number, back) && r != "" && '0' <= r[0] <= '9' && '0' <= r[|r| - 1] <= '9'
    ensures number == r
  {
    hide DigitsIn, HasMask;
    assert front != "" ==> front[0] == r[0];
    assert back != "" ==> back[|back| - 1] == r[|r| - 1];
    EndDigits(front);
    EndDigits(back);
  }

  lemma DateIsARun(r: string)
    requires IsDate(r)
    ensures AllJoin(r) && Digit(r[0]) && Digit(r[9])
  {
    hide IsDate, DigitsIn;
    DatesAreIso(r);
  }

  /** A date on its own stays. */
  lemma DateStays(s: string, a: nat)
    requires a + 10 <= |s| && IsDate(s[a..a + 10])
    requires (a == 0 || s[a - 1] !in RUN_CHARS) && (a + 10 == |s| || s[a + 10] !in RUN_CHARS)
    ensures Hidden(s) == Hidden(s[..a]) + s[a..a + 10] + Hidden(s[a + 10..])
  {
    hide Hidden, DigitsIn, IsDate, IsCut, HasMask;
    var r := s[a..a + 10];
    assert |r| == 10;
    DateIsARun(r);
    LongMustHide(r);
    forall i | a <= i < a + 10
      ensures s[i] in RUN_CHARS
    {
      assert s[i] == r[i - a];
    }
    var front, number, back := RunHiddenInPlace(s, a, a + 10);
    WholeIsTheNumber(r, front, number, back);
  }
}
