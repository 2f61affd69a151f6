/** The payee cleanup's text work: the run two names share and the rule text of a group (server/internal/ai/payees.go). */
module PayeeCleanup {
  import opened Options
  import opened RuleEngine
  import StableSort

  // ----- the longest run two names share -----

  /** x and y share the l characters from i and from j. */
  ghost predicate SharedRun(x: string, y: string, i: int, j: int, l: int) {
    0 <= l && 0 <= i && i + l <= |x| && 0 <= j && j + l <= |y| && x[i..i + l] == y[j..j + l]
  }

  /** How many of the last characters of x[..i] and y[..j] agree. */
  function Ending(x: string, y: string, i: nat, j: nat): (k: nat)
    requires i <= |x| && j <= |y|
    ensures k <= i && k <= j
  {
    if i > 0 && j > 0 && x[i - 1] == y[j - 1] then Ending(x, y, i - 1, j - 1) + 1 else 0
  }

  lemma {:induction false} EndingIsShared(x: string, y: string, i: nat, j: nat)
    requires i <= |x| && j <= |y|
    ensures var k := Ending(x, y, i, j); SharedRun(x, y, i - k, j - k, k)
  {
    var k := Ending(x, y, i, j);
    if k > 0 {
      EndingIsShared(x, y, i - 1, j - 1);
      assert x[i - k..i] == x[i - k..i - 1] + [x[i - 1]];
      assert y[j - k..j] == y[j - k..j - 1] + [y[j - 1]];
    }
  }

  lemma {:induction false} EndingIsLongest(x: string, y: string, i: int, j: int, l: int)
    requires SharedRun(x, y, i, j, l)
    ensures l <= Ending(x, y, i + l, j + l)
    decreases l
  {
    if l > 0 {
      assert x[i + l - 1] == x[i..i + l][l - 1] && y[j + l - 1] == y[j..j + l][l - 1];
      assert x[i..i + l - 1] == x[i..i + l][..l - 1] && y[j..j + l - 1] == y[j..j + l][..l - 1];
      EndingIsLongest(x, y, i, j, l - 1);
    }
  }

  /** Where the first of the longest runs ends in x, and its length. */
  datatype Best = Best(end: nat, size: nat)

  /** The best run over the cells up to (i, j), taken row by row. */
  function BestUpTo(x: string, y: string, i: nat, j: nat): (b: Best)
    requires i <= |x| && j <= |y|
    ensures b.size <= b.end <= i
    decreases i, j
  {
    if i == 0 then Best(0, 0)
    else
      var before := if j == 0 then BestUpTo(x, y, i - 1, |y|) else BestUpTo(x, y, i, j - 1);
      if Ending(x, y, i, j) > before.size then Best(i, Ending(x, y, i, j)) else before
  }

  ghost predicate Seen(i: int, j: int, p: nat, q: nat) {
    1 <= p && (p < i || (p == i && q <= j))
  }

  lemma {:induction false} BestIsBest(x: string, y: string, i: nat, j: nat)
    requires i <= |x| && j <= |y|
    ensures var b := BestUpTo(x, y, i, j);
            && (b.size > 0 ==> exists q: nat :: q <= |y| && Ending(x, y, b.end, q) == b.size)
            && forall p: nat, q: nat :: p <= |x| && q <= |y| && Seen(i, j, p, q) ==>
                 Ending(x, y, p, q) <= b.size && (p < b.end ==> Ending(x, y, p, q) < b.size)
    decreases i, j
  {
    if i > 0 {
      var b := BestUpTo(x, y, i, j);
      if j == 0 {
        BestIsBest(x, y, i - 1, |y|);
      } else {
        BestIsBest(x, y, i, j - 1);
      }
      forall p: nat, q: nat | p <= |x| && q <= |y| && Seen(i, j, p, q)
        ensures Ending(x, y, p, q) <= b.size && (p < b.end ==> Ending(x, y, p, q) < b.size)
      {
        if p == i && q == j {
        } else if j == 0 {
          assert Seen(i - 1, |y|, p, q) || (p == i && q == 0);
        } else {
          assert Seen(i, j - 1, p, q);
        }
      }
    }
  }

  function CommonText(a: string, b: string, lower: char -> char): string {
    var best := BestUpTo(Mapped(a, lower), Mapped(b, lower), |a|, |b|);
    a[best.end - best.size..best.end]
  }

  lemma NoLongerRun(x: string, y: string, p: int, q: int, l: int)
    requires SharedRun(x, y, p, q, l)
    ensures var best := BestUpTo(x, y, |x|, |y|);
            l <= best.size && (l == best.size && l > 0 ==> best.end <= p + l)
  {
    BestIsBest(x, y, |x|, |y|);
    EndingIsLongest(x, y, p, q, l);
    if l > 0 {
      assert Seen(|x|, |y|, p + l, q + l);
    }
  }

  lemma BestIsShared(x: string, y: string) returns (j: nat)
    ensures var best := BestUpTo(x, y, |x|, |y|); SharedRun(x, y, best.end - best.size, j, best.size)
  {
    var best := BestUpTo(x, y, |x|, |y|);
    BestIsBest(x, y, |x|, |y|);
    if best.size > 0 {
      var q: nat :| q <= |y| && Ending(x, y, best.end, q) == best.size;
      EndingIsShared(x, y, best.end, q);
      j := q - best.size;
    } else {
      j := 0;
    }
  }

  /** The longest run two names share, case aside, spelled as in the first; the leftmost of several. */
  lemma CommonTextIsLongest(a: string, b: string, lower: char -> char)
    ensures var r, x, y := CommonText(a, b, lower), Mapped(a, lower), Mapped(b, lower);
            exists i: nat, j: nat ::
              && i + |r| <= |a| && r == a[i..i + |r|] && SharedRun(x, y, i, j, |r|)
              && forall p, q, l :: SharedRun(x, y, p, q, l) ==> l <= |r| && (l == |r| && l > 0 ==> i <= p)
  {
    hide BestUpTo, SharedRun;
    var x, y := Mapped(a, lower), Mapped(b, lower);
    var best := BestUpTo(x, y, |x|, |y|);
    var r := CommonText(a, b, lower);
    var i: nat := best.end - best.size;
    var j := BestIsShared(x, y);
    assert SharedRun(x, y, i, j, |r|);
    forall p, q, l | SharedRun(x, y, p, q, l)
      ensures l <= |r| && (l == |r| && l > 0 ==> i <= p)
    {
      NoLongerRun(x, y, p, q, l);
    }
  }

  ghost predicate RowOf(row: array<nat>, x: string, y: string, i: nat, upTo: nat)
    reads row
    requires i <= |x|
  {
    row.Length == |y| + 1 && row[0] == 0 && upTo <= |y| && forall j :: 0 <= j <= upTo ==> row[j] == Ending(x, y, i, j)
  }

  /** Fills the row of i from the row of i - 1, and keeps the best run up to date. */
  method FillRow(al: string, bl: string, i: nat, prev: array<nat>, cur: array<nat>, end0: nat, size0: nat)
    returns (end: nat, size: nat)
    requires 1 <= i <= |al| && prev != cur && cur.Length == |bl| + 1 && cur[0] == 0
    requires RowOf(prev, al, bl, i - 1, |bl|) && Best(end0, size0) == BestUpTo(al, bl, i - 1, |bl|)
    modifies cur
    ensures RowOf(cur, al, bl, i, |bl|) && Best(end, size) == BestUpTo(al, bl, i, |bl|)
  {
    end, size := end0, size0;
    for j := 1 to |bl| + 1
      invariant RowOf(cur, al, bl, i, j - 1) && Best(end, size) == BestUpTo(al, bl, i, j - 1)
    {
      if al[i - 1] == bl[j - 1] {
        cur[j] := prev[j - 1] + 1;
        if cur[j] > size {
          end, size := i, cur[j];
        }
      } else {
        cur[j] := 0;
      }
    }
  }

  /** The two rows of the table, filled and swapped. */
  method ComputeCommonText(a: string, b: string, lower: char -> char) returns (r: string)
    ensures r == CommonText(a, b, lower)
  {
    var al, bl := Mapped(a, lower), Mapped(b, lower);
    var prev := new nat[|b| + 1](_ => 0);
    var cur := new nat[|b| + 1](_ => 0);
    var end: nat, size: nat := 0, 0;
    for i := 1 to |a| + 1
      invariant prev != cur && cur.Length == |b| + 1 && cur[0] == 0 && fresh(prev) && fresh(cur)
      invariant RowOf(prev, al, bl, i - 1, |b|) && Best(end, size) == BestUpTo(al, bl, i - 1, |b|)
    {
      end, size := FillRow(al, bl, i, prev, cur, end, size);
      prev, cur := cur, prev;
    }
    r := a[end - size..end];
  }

  // ----- the rule text of a group -----

  /** What the cleanup takes from the language, beside the letters' lower cases. */
  datatype Letters = Letters(lower: char -> char, letter: char -> bool, digit: char -> bool, space: char -> bool)

  const RULE_MIN := 4

  predicate Kept(c: char, t: Letters) {
    t.letter(c) || t.digit(c)
  }

  function TrimStart(s: string, t: Letters): string {
    if s != "" && !Kept(s[0], t) then TrimStart(s[1..], t) else s
  }

  function TrimEnd(s: string, t: Letters): string {
    if s != "" && !Kept(s[|s| - 1], t) then TrimEnd(s[..|s| - 1], t) else s
  }

  function TrimText(s: string, t: Letters): string {
    TrimEnd(TrimStart(s, t), t)
  }

  lemma {:induction false} TrimEndIsPart(s: string, t: Letters)
    ensures TrimEnd(s, t) <= s
    ensures TrimEnd(s, t) != "" ==> Kept(TrimEnd(s, t)[|TrimEnd(s, t)| - 1], t)
  {
    if s != "" && !Kept(s[|s| - 1], t) {
      TrimEndIsPart(s[..|s| - 1], t);
    }
  }

  lemma {:induction false} TrimStartIsPart(s: string, t: Letters) returns (k: nat)
    ensures k <= |s| && TrimStart(s, t) == s[k..]
    ensures TrimStart(s, t) != "" ==> Kept(TrimStart(s, t)[0], t)
  {
    if s != "" && !Kept(s[0], t) {
      k := TrimStartIsPart(s[1..], t);
      assert s[1..][k..] == s[k + 1..];
      k := k + 1;
    } else {
      k := 0;
    }
  }

  /** A trimmed text stands in the text, and starts and ends with a letter or a digit. */
  lemma TrimTextIsPart(s: string, t: Letters) returns (k: nat)
    ensures var r := TrimText(s, t);
            && k + |r| <= |s| && r == s[k..k + |r|]
            && (r != "" ==> Kept(r[0], t) && Kept(r[|r| - 1], t))
  {
    k := TrimStartIsPart(s, t);
    TrimEndIsPart(TrimStart(s, t), t);
    var r := TrimText(s, t);
    assert r == s[k..][..|r|] == s[k..k + |r|];
  }

  /** Only what is no letter and no digit is cut, all of it at both ends. */
  lemma TrimmedIsTheMiddle(s: string, t: Letters) returns (k: nat)
    ensures var r := TrimText(s, t);
            && k + |r| <= |s| && r == s[k..k + |r|]
            && (r != "" ==> Kept(r[0], t) && Kept(r[|r| - 1], t))
            && (forall i :: 0 <= i < k || k + |r| <= i < |s| ==> !t.letter(s[i]) && !t.digit(s[i]))
  {
    k := TrimTextIsPart(s, t);
    var start := TrimStart(s, t);
    var at := TrimStartCuts(s, t);
    TrimEndCuts(start, t);
    TrimEndIsPart(start, t);
    k := at;
  }

  lemma {:induction false} TrimStartCuts(s: string, t: Letters) returns (k: nat)
    ensures k <= |s| && TrimStart(s, t) == s[k..] && forall i :: 0 <= i < k ==> !t.letter(s[i]) && !t.digit(s[i])
    ensures k < |s| ==> Kept(s[k], t)
  {
    k := 0;
    if s != "" && !Kept(s[0], t) {
      k := TrimStartCuts(s[1..], t);
      assert forall i :: 0 < i <= k ==> s[i] == s[1..][i - 1];
      k := k + 1;
    }
  }

  lemma {:induction false} TrimEndCuts(s: string, t: Letters)
    ensures |TrimEnd(s, t)| <= |s| && forall i :: |TrimEnd(s, t)| <= i < |s| ==> !t.letter(s[i]) && !t.digit(s[i])
    ensures s != "" && Kept(s[0], t) ==> TrimEnd(s, t) != "" && TrimEnd(s, t)[0] == s[0]
  {
    if s != "" && !Kept(s[|s| - 1], t) {
      TrimEndCuts(s[..|s| - 1], t);
    }
  }

  /** The rule engine's "contains", case aside. */
  predicate Has(name: string, part: string, t: Letters) {
    Contains(Mapped(name, t.lower), Mapped(part, t.lower))
  }

  /** How many of the names hold the text. */
  function Cover(names: seq<string>, part: string, t: Letters): nat {
    if names == [] then 0
    else Cover(names[..|names| - 1], part, t) + (if Has(names[|names| - 1], part, t) then 1 else 0)
  }

  lemma {:induction false} CoverAtLeastTwo(names: seq<string>, i: nat, j: nat, part: string, t: Letters)
    requires i < j < |names| && Has(names[i], part, t) && Has(names[j], part, t)
    ensures Cover(names, part, t) >= 2
  {
    var p := names[..|names| - 1];
    if j < |names| - 1 {
      CoverAtLeastTwo(p, i, j, part, t);
    } else {
      CoverAtLeastOne(p, i, part, t);
    }
  }

  lemma {:induction false} CoverAtLeastOne(names: seq<string>, i: nat, part: string, t: Letters)
    requires i < |names| && Has(names[i], part, t)
    ensures Cover(names, part, t) >= 1
  {
    if i < |names| - 1 {
      CoverAtLeastOne(names[..|names| - 1], i, part, t);
    }
  }

  /** The places of the names that hold the text. */
  function Holders(names: seq<string>, part: string, t: Letters): set<nat> {
    set k: nat | k < |names| && Contains(Mapped(names[k], t.lower), Mapped(part, t.lower))
  }

  lemma {:induction false} CoverCountsHolders(names: seq<string>, part: string, t: Letters)
    ensures Cover(names, part, t) == |Holders(names, part, t)|
  {
    hide Contains, Mapped;
    if names == [] {
      assert Holders(names, part, t) == {};
    } else {
      var n := |names| - 1;
      CoverCountsHolders(names[..n], part, t);
      assert Holders(names, part, t) == Holders(names[..n], part, t) + if Has(names[n], part, t) then {n} else {};
    }
  }

  /** The text a pair of names proposes. */
  function Candidate(names: seq<string>, i: nat, j: nat, t: Letters): string
    requires i < |names| && j < |names|
  {
    TrimText(CommonText(names[i], names[j], t.lower), t)
  }

  lemma SliceOfSlice(s: string, p: nat, n: nat, k: nat, m: nat)
    requires p + n <= |s| && k + m <= n
    ensures s[p..p + n][k..k + m] == s[p + k..p + k + m]
  {
    var u, v := s[p..p + n][k..k + m], s[p + k..p + k + m];
    assert forall i :: 0 <= i < m ==> u[i] == s[p..p + n][k + i] == v[i];
  }

  lemma PartOfShared(x: string, y: string, p: nat, q: nat, l: nat, k: nat, m: nat)
    requires SharedRun(x, y, p, q, l) && k + m <= l
    ensures SharedRun(x, y, p + k, q + k, m)
  {
    SliceOfSlice(x, p, l, k, m);
    SliceOfSlice(y, q, l, k, m);
  }

  lemma MappedPart(s: string, p: nat, m: nat, f: char -> char)
    requires p + m <= |s|
    ensures Mapped(s[p..p + m], f) == Mapped(s, f)[p..p + m]
  {
  }

  lemma HeldByBoth(x: string, y: string, i: nat, j: nat, part: string)
    requires SharedRun(x, y, i, j, |part|) && x[i..i + |part|] == part
    ensures Contains(x, part) && Contains(y, part)
  {
    assert StandsAt(x, part, i) && StandsAt(y, part, j);
  }

  /** Where the common text stands in each of the names. */
  lemma CommonPlaces(a: string, b: string, lower: char -> char) returns (p: nat, q: nat)
    ensures var common := CommonText(a, b, lower);
            && p + |common| <= |a| && common == a[p..p + |common|]
            && SharedRun(Mapped(a, lower), Mapped(b, lower), p, q, |common|)
  {
    hide CommonText, SharedRun;
    CommonTextIsLongest(a, b, lower);
    var common := CommonText(a, b, lower);
    p, q :| p + |common| <= |a| && common == a[p..p + |common|]
            && SharedRun(Mapped(a, lower), Mapped(b, lower), p, q, |common|);
  }

  /** Both names of a pair hold the text it proposes. */
  lemma CandidateIsHeld(names: seq<string>, i: nat, j: nat, t: Letters)
    requires i < |names| && j < |names|
    ensures Has(names[i], Candidate(names, i, j, t), t) && Has(names[j], Candidate(names, i, j, t), t)
  {
    hide CommonText, TrimText, Contains, Mapped, SharedRun;
    var a, b := names[i], names[j];
    var common := CommonText(a, b, t.lower);
    var x, y := Mapped(a, t.lower), Mapped(b, t.lower);
    var p, q := CommonPlaces(a, b, t.lower);
    var k := TrimTextIsPart(common, t);
    var c := TrimText(common, t);
    PartOfShared(x, y, p, q, |common|, k, |c|);
    SliceOfSlice(a, p, |common|, k, |c|);
    MappedPart(a, p + k, |c|, t.lower);
    HeldByBoth(x, y, p + k, q + k, Mapped(c, t.lower));
  }

  /** The length in bytes, as UTF-8 has it, which settles a tie. */
  function Bytes(s: string): nat {
    if s == "" then 0
    else
      var c := s[|s| - 1] as int;
      Bytes(s[..|s| - 1]) + (if c < 0x80 then 1 else if c < 0x800 then 2 else if c < 0x1_0000 then 3 else 4)
  }

  lemma {:induction false} BytesOfAscii(s: string)
    requires forall i :: 0 <= i < |s| ==> s[i] < '\U{0080}'
    ensures Bytes(s) == |s|
  {
    if s != "" {
      BytesOfAscii(s[..|s| - 1]);
    }
  }

  /** A candidate that is long enough is no better than the best: it covers less, or as much and is no longer. */
  ghost predicate NoBetter(names: seq<string>, c: string, best: string, t: Letters) {
    |c| >= RULE_MIN ==>
      && best != ""
      && (Cover(names, c, t) < Cover(names, best, t)
          || (Cover(names, c, t) == Cover(names, best, t) && Bytes(c) <= Bytes(best)))
  }

  ghost predicate Proposed(names: seq<string>, best: string, t: Letters) {
    && |best| >= RULE_MIN && Cover(names, best, t) >= 2
    && exists i: nat, j: nat :: i < j < |names| && best == Candidate(names, i, j, t)
  }

  method CountCover(names: seq<string>, part: string, t: Letters) returns (n: nat)
    ensures n == Cover(names, part, t)
  {
    n := 0;
    for i := 0 to |names|
      invariant n == Cover(names[..i], part, t)
    {
      assert names[..i + 1][..i] == names[..i];
      if Contains(Mapped(names[i], t.lower), Mapped(part, t.lower)) {
        n := n + 1;
      }
    }
    assert names[..|names|] == names;
  }

  /** Whether the pair (p, q) comes before (i, j) in the loops. */
  ghost predicate Tried(i: int, j: int, p: int, q: int) {
    p < i || (p == i && q < j)
  }

  /** The rule text of several names: the shared text that the most of them hold, the longest of those. */
  method RuleTextOfMany(names: seq<string>, t: Letters) returns (best: string)
    ensures best == "" || Proposed(names, best, t)
    ensures forall i: nat, j: nat :: i < j < |names| ==> NoBetter(names, Candidate(names, i, j, t), best, t)
  {
    hide CommonText, TrimText, Bytes, Cover;
    best := "";
    var cover := 0;
    for i := 0 to |names|
      invariant if best == "" then cover == 0 else Proposed(names, best, t) && cover == Cover(names, best, t)
      invariant forall p: nat, q: nat :: p < q < |names| && Tried(i, 0, p, q) ==>
                  NoBetter(names, Candidate(names, p, q, t), best, t)
    {
      for j := i + 1 to |names|
        invariant if best == "" then cover == 0 else Proposed(names, best, t) && cover == Cover(names, best, t)
        invariant forall p: nat, q: nat :: p < q < |names| && Tried(i, j, p, q) ==>
                    NoBetter(names, Candidate(names, p, q, t), best, t)
      {
        var common := ComputeCommonText(names[i], names[j], t.lower);
        var c := TrimText(common, t);
        assert c == Candidate(names, i, j, t);
        if |c| >= RULE_MIN {
          var n := CountCover(names, c, t);
          CandidateIsHeld(names, i, j, t);
          CoverAtLeastTwo(names, i, j, c, t);
          if n > cover || (n == cover && Bytes(c) > Bytes(best)) {
            best, cover := c, n;
          }
        }
      }
    }
  }

  // ----- the rule text of one name -----

  /** The words of a text (`strings.Fields`). */
  function Words(s: string, t: Letters): seq<string> {
    if s == "" then []
    else
      var last, rest := s[|s| - 1], Words(s[..|s| - 1], t);
      if t.space(last) then rest
      else if |s| == 1 || t.space(s[|s| - 2]) || rest == [] then rest + [[last]]
      else rest[..|rest| - 1] + [rest[|rest| - 1] + [last]]
  }

  lemma WordsMore(p: string, c: char, t: Letters)
    ensures var before := Words(p, t);
            Words(p + [c], t) == if t.space(c) then before
                                 else if p == "" || t.space(p[|p| - 1]) || before == [] then before + [[c]]
                                 else before[..|before| - 1] + [before[|before| - 1] + [c]]
  {
    var s := p + [c];
    assert s[..|s| - 1] == p && s[|s| - 1] == c;
    assert p != "" ==> s[|s| - 2] == p[|p| - 1];
  }

  lemma Front(s: string)
    requires s != ""
    ensures s == s[..|s| - 1] + [s[|s| - 1]]
  {
  }

  lemma SomeWord(s: string, t: Letters)
    requires s != "" && !t.space(s[|s| - 1])
    ensures Words(s, t) != []
  {
    hide Words;
    Front(s);
    WordsMore(s[..|s| - 1], s[|s| - 1], t);
  }

  lemma NoWord(t: Letters)
    ensures Words("", t) == []
  {
  }

  /** A text without spaces is one word. */
  lemma {:induction false} OneWord(s: string, t: Letters)
    requires s != "" && forall i :: 0 <= i < |s| ==> !t.space(s[i])
    ensures Words(s, t) == [s]
  {
    hide Words;
    var p, c := s[..|s| - 1], s[|s| - 1];
    Front(s);
    WordsMore(p, c, t);
    NoWord(t);
    if p != "" {
      OneWord(p, t);
      assert [p][..0] == [] && [p][0] == p;
    }
  }

  /** The words around a space are those before it and those behind. */
  lemma {:induction false} WordsAroundSpace(a: string, c: char, b: string, t: Letters)
    requires t.space(c)
    ensures Words(a + [c] + b, t) == Words(a, t) + Words(b, t)
    decreases |b|
  {
    hide Words;
    NoWord(t);
    if b == "" {
      WordsMore(a, c, t);
      assert a + [c] + b == a + [c];
    } else {
      var front, last := b[..|b| - 1], b[|b| - 1];
      WordsAroundSpace(a, c, front, t);
      Front(b);
      WordsMore(front, last, t);
      WordsMore(a + [c] + front, last, t);
      assert a + [c] + b == (a + [c] + front) + [last];
      if front != "" && !t.space(front[|front| - 1]) {
        SomeWord(front, t);
        LastOfBoth(Words(a, t), Words(front, t), last);
      } else {
        assert (a + [c] + front)[|a + [c] + front| - 1] == if front == "" then c else front[|front| - 1];
      }
    }
  }

  lemma LastOfBoth(a: seq<string>, b: seq<string>, c: char)
    requires b != []
    ensures var both := a + b;
            both[..|both| - 1] + [both[|both| - 1] + [c]] == a + (b[..|b| - 1] + [b[|b| - 1] + [c]])
  {
    var both := a + b;
    assert both[..|both| - 1] == a + b[..|b| - 1];
  }

  predicate CodeChar(c: char, t: Letters) {
    t.digit(c) || c == '*'
  }

  predicate IsCode(word: string, t: Letters) {
    exists i :: 0 <= i < |word| && CodeChar(word[i], t)
  }

  function JoinWords(words: seq<string>): string {
    if words == [] then ""
    else if |words| == 1 then words[0]
    else JoinWords(words[..|words| - 1]) + " " + words[|words| - 1]
  }

  lemma {:induction false} JoinedHasNoCode(words: seq<string>, t: Letters)
    requires !t.digit(' ') && forall i :: 0 <= i < |words| ==> !IsCode(words[i], t)
    ensures !IsCode(JoinWords(words), t)
  {
    if |words| > 1 {
      var front, last := JoinWords(words[..|words| - 1]), words[|words| - 1];
      JoinedHasNoCode(words[..|words| - 1], t);
      forall i | 0 <= i < |JoinWords(words)|
        ensures !CodeChar(JoinWords(words)[i], t)
      {
        if i < |front| {
          assert JoinWords(words)[i] == front[i];
        } else if i > |front| {
          assert JoinWords(words)[i] == last[i - |front| - 1];
        }
      }
    }
  }

  /** The first k words, trimmed; there are no more, or the next one is a code, and none of these is. */
  ghost predicate IsLead(name: string, k: nat, lead: string, t: Letters) {
    && k <= |Words(name, t)| && lead == TrimText(JoinWords(Words(name, t)[..k]), t)
    && (forall w, i :: 0 <= w < k && 0 <= i < |Words(name, t)[w]| ==>
          !t.digit(Words(name, t)[w][i]) && Words(name, t)[w][i] != '*')
    && (k < |Words(name, t)| ==>
          exists i :: 0 <= i < |Words(name, t)[k]| && (t.digit(Words(name, t)[k][i]) || Words(name, t)[k][i] == '*'))
  }

  /** The rule text of one name: its leading words before a code, when they are long enough. */
  method RuleTextOfOne(name: string, t: Letters) returns (r: string)
    ensures r == "" || |r| >= RULE_MIN
    ensures exists k: nat, lead :: IsLead(name, k, lead, t) && r == if |lead| < 4 then "" else lead
    ensures !t.digit(' ') ==> !IsCode(r, t)
  {
    hide TrimText, Words, JoinWords;
    var words := Words(name, t);
    var lead: seq<string> := [];
    var k := 0;
    while k < |words| && !IsCode(words[k], t)
      invariant 0 <= k <= |words| && lead == words[..k]
      invariant forall i :: 0 <= i < k ==> !IsCode(words[i], t)
    {
      lead := lead + [words[k]];
      k := k + 1;
    }
    var joined := JoinWords(lead);
    r := TrimText(joined, t);
    ghost var at := TrimTextIsPart(joined, t);
    if !t.digit(' ') {
      JoinedHasNoCode(lead, t);
      assert forall i :: 0 <= i < |r| ==> r[i] == joined[at + i];
    }
    assert IsLead(name, k, r, t) by {
      LeadIs(name, k, r, t);
    }
    if |r| < RULE_MIN {
      r := "";
    }
  }

  lemma LeadIs(name: string, k: nat, lead: string, t: Letters)
    requires k <= |Words(name, t)| && lead == TrimText(JoinWords(Words(name, t)[..k]), t)
    requires forall i :: 0 <= i < k ==> !IsCode(Words(name, t)[i], t)
    requires k < |Words(name, t)| ==> IsCode(Words(name, t)[k], t)
    ensures IsLead(name, k, lead, t)
  {
    forall w, i | 0 <= w < k && 0 <= i < |Words(name, t)[w]|
      ensures !t.digit(Words(name, t)[w][i]) && Words(name, t)[w][i] != '*'
    {
      assert !IsCode(Words(name, t)[w], t);
      assert !CodeChar(Words(name, t)[w][i], t);
    }
  }

  /** No pair's common text, trimmed, of four characters or more stands in more of the names than the one proposed. */
  lemma ProposedCoversMost(names: seq<string>, r: string, i: nat, j: nat, t: Letters)
    requires i < j < |names| && NoBetter(names, Candidate(names, i, j, t), r, t)
    requires |TrimText(CommonText(names[i], names[j], t.lower), t)| >= 4
    ensures r != ""
    ensures |Holders(names, TrimText(CommonText(names[i], names[j], t.lower), t), t)| <= |Holders(names, r, t)|
  {
    hide CommonText, TrimText, Cover, Holders;
    CoverCountsHolders(names, r, t);
    CoverCountsHolders(names, Candidate(names, i, j, t), t);
  }

  method RuleText(names: seq<string>, t: Letters) returns (r: string)
    ensures r == "" || |r| >= 4
    ensures |names| >= 2 ==> r == "" || Proposed(names, r, t)
    ensures |names| >= 2 ==> forall i: nat, j: nat :: i < j < |names| ==> NoBetter(names, Candidate(names, i, j, t), r, t)
    ensures |names| == 1 ==> r == "" || exists k: nat :: IsLead(names[0], k, r, t)
    ensures |names| == 1 && r == "" ==> exists k: nat, lead :: IsLead(names[0], k, lead, t) && |lead| < 4
    ensures |names| == 1 && !t.digit(' ') ==> !IsCode(r, t)
  {
    if |names| == 1 {
      r := RuleTextOfOne(names[0], t);
    } else {
      r := RuleTextOfMany(names, t);
    }
  }

  /** Saved as a "payee contains" rule, the text matches exactly the payees it was counted on, two at least. */
  lemma ProposedRuleMatches(names: seq<string>, text: string, t: Letters, l: Language, id: int, account: int)
    requires Proposed(names, text, t) && l.lower == t.lower
    ensures var rule := Rule(id, Field.Payee, Containing, text, false, None, None, None, None, None, []);
            && (forall i :: 0 <= i < |names| ==>
                  (Matches(rule, Subject("", names[i], {}, account), l) <==> Has(names[i], text, t)))
            && exists i, j :: 0 <= i < j < |names|
                 && Matches(rule, Subject("", names[i], {}, account), l)
                 && Matches(rule, Subject("", names[j], {}, account), l)
  {
    hide Candidate;
    var i: nat, j: nat :| i < j < |names| && text == Candidate(names, i, j, t);
    CandidateIsHeld(names, i, j, t);
    var rule := Rule(id, Field.Payee, Containing, text, false, None, None, None, None, None, []);
    assert Matches(rule, Subject("", names[i], {}, account), l);
    assert Matches(rule, Subject("", names[j], {}, account), l);
  }

  // ----- the groups -----

  datatype Payee = Payee(id: int, name: string)

  /** One line of the model's reply: the numbers of a group, counted from one, and its clean name. */
  datatype Line = Line(numbers: seq<nat>, name: string)

  datatype Group = Group(name: string, members: seq<Payee>)

  const PAYEES_MAX := 100

  /** No payee is twice in the groups, be it in one or in two of them. */
  ghost predicate Apart(groups: seq<Group>) {
    && (forall g, i, j :: 0 <= g < |groups| && 0 <= i < j < |groups[g].members| ==>
          groups[g].members[i].id != groups[g].members[j].id)
    && (forall g, h, i, j :: 0 <= g < h < |groups| && 0 <= i < |groups[g].members| && 0 <= j < |groups[h].members| ==>
          groups[g].members[i].id != groups[h].members[j].id)
  }

  /** Each call numbers the payees of its own hundred, from one on. */
  ghost predicate InChunks(payees: seq<Payee>, replies: seq<seq<Line>>) {
    && |replies| * PAYEES_MAX < |payees| + PAYEES_MAX
    && forall r, k, n :: 0 <= r < |replies| && 0 <= k < |replies[r]| && n in replies[r][k].numbers ==>
                           1 <= n <= PAYEES_MAX && r * PAYEES_MAX + n <= |payees|
  }

  /** A line with the payees it numbers. */
  datatype Named = Named(name: string, payees: seq<Payee>)

  ghost predicate IsNamed(named: Named, line: Line, payees: seq<Payee>, r: nat) {
    && named.name == line.name && |named.payees| == |line.numbers|
    && forall j :: 0 <= j < |line.numbers| ==>
         && 0 <= r * PAYEES_MAX + line.numbers[j] - 1 < |payees|
         && named.payees[j] == payees[r * PAYEES_MAX + line.numbers[j] - 1]
  }

  function LinesBefore(replies: seq<seq<Line>>, r: nat): nat
    requires r <= |replies|
  {
    if r == 0 then 0 else LinesBefore(replies, r - 1) + |replies[r - 1]|
  }

  /** The lines of the first replies, one reply after the other. */
  ghost predicate AreLines(lines: seq<Named>, payees: seq<Payee>, replies: seq<seq<Line>>, upTo: nat)
    requires upTo <= |replies|
  {
    && |lines| == LinesBefore(replies, upTo)
    && forall r, k :: 0 <= r < upTo && 0 <= k < |replies[r]| ==> LineIsAt(lines, payees, replies, r, k)
  }

  ghost predicate LineIsAt(lines: seq<Named>, payees: seq<Payee>, replies: seq<seq<Line>>, r: nat, k: nat)
    requires r < |replies| && k < |replies[r]|
  {
    var at := LinesBefore(replies, r) + k;
    at < |lines| && IsNamed(lines[at], replies[r][k], payees, r)
  }

  /** The place before which the payee was not numbered: in no earlier line, nor earlier in its own. */
  ghost predicate Said(lines: seq<Named>, k: int, j: int, id: int)
    requires 0 <= k <= |lines|
  {
    || (exists h, i :: 0 <= h < k && 0 <= i < |lines[h].payees| && lines[h].payees[i].id == id)
    || (k < |lines| && exists i :: 0 <= i < j && i < |lines[k].payees| && lines[k].payees[i].id == id)
  }

  ghost predicate IsNew(lines: seq<Named>, k: int, j: int)
    requires 0 <= k < |lines| && 0 <= j < |lines[k].payees|
  {
    !Said(lines, k, j, lines[k].payees[j].id)
  }

  /** The payees at these places of the line, the places of exactly the new ones, in order. */
  ghost predicate AreNewOnes(members: seq<Payee>, places: seq<int>, lines: seq<Named>, k: int, upTo: int)
    requires 0 <= k < |lines| && 0 <= upTo <= |lines[k].payees|
  {
    && |members| == |places|
    && (forall i :: 0 <= i < |places| ==>
          0 <= places[i] < upTo && IsNew(lines, k, places[i]) && members[i] == lines[k].payees[places[i]])
    && (forall h, i :: 0 <= h < i < |places| ==> places[h] < places[i])
    && (forall j :: 0 <= j < upTo && IsNew(lines, k, j) ==> j in places)
  }

  /** Its new payees, in the order the line numbers them. */
  ghost predicate NewOnes(members: seq<Payee>, lines: seq<Named>, k: int)
    requires 0 <= k < |lines|
  {
    exists places :: AreNewOnes(members, places, lines, k, |lines[k].payees|)
  }

  predicate NothingToDo(members: seq<Payee>, name: string) {
    |members| == 0 || (|members| == 1 && members[0].name == name)
  }

  /**
   * A group for each line, in the lines' order, with the line's name and its new payees as the line has them, but where
   * none is new, or a single one that has the name already.
   */
  ghost predicate AreGroups(groups: seq<Group>, from: seq<int>, lines: seq<Named>, upTo: int)
    requires 0 <= upTo <= |lines|
  {
    && |from| == |groups|
    && (forall g, h :: 0 <= g < h < |from| ==> from[g] < from[h])
    && (forall g :: 0 <= g < |groups| ==>
          && 0 <= from[g] < upTo && groups[g].name == lines[from[g]].name
          && NewOnes(groups[g].members, lines, from[g]) && !NothingToDo(groups[g].members, groups[g].name))
    && (forall k :: 0 <= k < upTo && k !in from ==>
          exists members :: NewOnes(members, lines, k) && NothingToDo(members, lines[k].name))
  }

  lemma SaidMore(lines: seq<Named>, k: int, j: int)
    requires 0 <= k < |lines| && 0 <= j < |lines[k].payees|
    ensures forall id :: Said(lines, k, j + 1, id) <==> Said(lines, k, j, id) || id == lines[k].payees[j].id
  {
    forall id
      ensures Said(lines, k, j + 1, id) <==> Said(lines, k, j, id) || id == lines[k].payees[j].id
    {
      if Said(lines, k, j + 1, id) && id != lines[k].payees[j].id {
        assert Said(lines, k, j, id);
      }
    }
  }

  lemma SaidNext(lines: seq<Named>, k: int)
    requires 0 <= k < |lines|
    ensures forall id :: Said(lines, k + 1, 0, id) <==> Said(lines, k, |lines[k].payees|, id)
  {
    forall id | Said(lines, k, |lines[k].payees|, id)
      ensures Said(lines, k + 1, 0, id)
    {
    }
  }

  lemma NewOnesMore(members: seq<Payee>, places: seq<int>, lines: seq<Named>, k: int, j: int)
    requires 0 <= k < |lines| && 0 <= j < |lines[k].payees| && AreNewOnes(members, places, lines, k, j)
    ensures if IsNew(lines, k, j) then AreNewOnes(members + [lines[k].payees[j]], places + [j], lines, k, j + 1)
            else AreNewOnes(members, places, lines, k, j + 1)
  {
    hide IsNew;
    var more := places + [j];
    assert j in more;
    assert forall p :: p in places ==> p in more;
  }

  lemma NewOnesAreApart(members: seq<Payee>, places: seq<int>, lines: seq<Named>, k: int)
    requires 0 <= k < |lines| && AreNewOnes(members, places, lines, k, |lines[k].payees|)
    ensures forall h, i :: 0 <= h < i < |members| ==> members[h].id != members[i].id
    ensures forall m :: m in members ==> m in lines[k].payees && !Said(lines, k, 0, m.id)
  {
    forall h, i | 0 <= h < i < |members|
      ensures members[h].id != members[i].id
    {
      assert IsNew(lines, k, places[i]);
      assert lines[k].payees[places[h]].id == members[h].id;
    }
  }

  /** The payees of a line that no line before numbers. */
  method TakeLine(line: Line, chunk: seq<Payee>, taken0: set<int>, ghost lines: seq<Named>, ghost k: nat)
    returns (members: seq<Payee>, taken: set<int>)
    requires k < |lines| && |lines[k].payees| == |line.numbers|
    requires forall j :: 0 <= j < |line.numbers| ==>
               1 <= line.numbers[j] <= |chunk| && lines[k].payees[j] == chunk[line.numbers[j] - 1]
    requires forall id :: id in taken0 <==> Said(lines, k, 0, id)
    ensures NewOnes(members, lines, k)
    ensures forall id :: id in taken <==> Said(lines, k + 1, 0, id)
  {
    hide Said, AreNewOnes;
    members, taken := [], taken0;
    ghost var places: seq<int> := [];
    NoneYet(lines, k);
    for j := 0 to |line.numbers|
      invariant AreNewOnes(members, places, lines, k, j)
      invariant forall id :: id in taken <==> Said(lines, k, j, id)
    {
      var p := chunk[line.numbers[j] - 1];
      SaidMore(lines, k, j);
      NewOnesMore(members, places, lines, k, j);
      if p.id !in taken {
        taken := taken + {p.id};
        members, places := members + [p], places + [j];
      }
    }
    SaidNext(lines, k);
  }

  lemma NoneYet(lines: seq<Named>, k: nat)
    requires k < |lines|
    ensures AreNewOnes([], [], lines, k, 0)
  {
  }

  lemma NoGroupYet(lines: seq<Named>)
    ensures AreGroups([], [], lines, 0) && forall id :: !Said(lines, 0, 0, id)
  {
  }

  lemma GroupsMore(groups: seq<Group>, from: seq<int>, lines: seq<Named>, k: int, members: seq<Payee>)
    requires 0 <= k < |lines| && AreGroups(groups, from, lines, k) && NewOnes(members, lines, k)
    ensures if NothingToDo(members, lines[k].name) then AreGroups(groups, from, lines, k + 1)
            else AreGroups(groups + [Group(lines[k].name, members)], from + [k], lines, k + 1)
  {
    hide NewOnes;
    assert k in from + [k];
    assert forall h :: h in from ==> h in from + [k];
  }

  /** The lines are those of the replies, read one after the other. */
  lemma LinesOfReplies(payees: seq<Payee>, replies: seq<seq<Line>>) returns (lines: seq<Named>)
    requires InChunks(payees, replies)
    ensures AreLines(lines, payees, replies, |replies|)
  {
    lines := [];
    for r := 0 to |replies|
      invariant AreLines(lines, payees, replies, r)
    {
      ghost var more := seq(|replies[r]|, k requires 0 <= k < |replies[r]| => NamedOf(payees, replies, r, k));
      lines := LinesJoined(lines, more, payees, replies, r);
    }
  }

  ghost function NamedOf(payees: seq<Payee>, replies: seq<seq<Line>>, r: nat, k: nat): (named: Named)
    requires InChunks(payees, replies) && r < |replies| && k < |replies[r]|
    ensures IsNamed(named, replies[r][k], payees, r)
  {
    NumbersInRange(payees, replies, r, k);
    var line := replies[r][k];
    Named(line.name, seq(|line.numbers|, j requires 0 <= j < |line.numbers| => payees[r * PAYEES_MAX + line.numbers[j] - 1]))
  }

  lemma NumbersInRange(payees: seq<Payee>, replies: seq<seq<Line>>, r: nat, k: nat)
    requires InChunks(payees, replies) && r < |replies| && k < |replies[r]|
    ensures forall j :: 0 <= j < |replies[r][k].numbers| ==> 0 <= r * PAYEES_MAX + replies[r][k].numbers[j] - 1 < |payees|
  {
    forall j | 0 <= j < |replies[r][k].numbers|
      ensures 0 <= r * PAYEES_MAX + replies[r][k].numbers[j] - 1 < |payees|
    {
      assert replies[r][k].numbers[j] in replies[r][k].numbers;
    }
  }

  lemma LinesJoined(lines: seq<Named>, more: seq<Named>, payees: seq<Payee>, replies: seq<seq<Line>>, r: nat)
    returns (all: seq<Named>)
    requires r < |replies| && AreLines(lines, payees, replies, r)
    requires |more| == |replies[r]| && forall k :: 0 <= k < |more| ==> IsNamed(more[k], replies[r][k], payees, r)
    ensures all == lines + more && AreLines(all, payees, replies, r + 1)
  {
    hide IsNamed;
    all := lines + more;
    forall q, k | 0 <= q < r + 1 && 0 <= k < |replies[q]|
      ensures LineIsAt(all, payees, replies, q, k)
    {
      var at := LinesBefore(replies, q) + k;
      if q < r {
        assert LineIsAt(lines, payees, replies, q, k);
        assert all[at] == lines[at];
      } else {
        assert all[at] == more[k];
      }
    }
  }

  /** A line's payees, as the call's hundred has them. */
  lemma LineInChunk(lines: seq<Named>, payees: seq<Payee>, replies: seq<seq<Line>>, r: nat, k: nat, chunk: seq<Payee>)
    requires InChunks(payees, replies) && AreLines(lines, payees, replies, |replies|) && r < |replies| && k < |replies[r]|
    requires r * PAYEES_MAX <= |payees|
    requires chunk == payees[r * PAYEES_MAX..if r * PAYEES_MAX + PAYEES_MAX < |payees| then r * PAYEES_MAX + PAYEES_MAX else |payees|]
    ensures var at, line := LinesBefore(replies, r) + k, replies[r][k];
            && 0 <= at < |lines| && lines[at].name == line.name && |lines[at].payees| == |line.numbers|
            && forall j :: 0 <= j < |line.numbers| ==>
                 1 <= line.numbers[j] <= |chunk| && lines[at].payees[j] == chunk[line.numbers[j] - 1]
  {
    var at, line := LinesBefore(replies, r) + k, replies[r][k];
    assert LineIsAt(lines, payees, replies, r, k);
    forall j | 0 <= j < |line.numbers|
      ensures 1 <= line.numbers[j] <= |chunk| && lines[at].payees[j] == chunk[line.numbers[j] - 1]
    {
      assert line.numbers[j] in line.numbers;
    }
  }

  /** The groups of all replies; the replies stop at the first call that fails. */
  method Groups(payees: seq<Payee>, replies: seq<seq<Line>>)
    returns (groups: seq<Group>, ghost lines: seq<Named>, ghost from: seq<int>)
    requires InChunks(payees, replies)
    ensures AreLines(lines, payees, replies, |replies|) && AreGroups(groups, from, lines, |lines|)
  {
    hide AreLines, AreGroups, NewOnes, Said, IsNamed, LinesBefore, InChunks;
    lines := LinesOfReplies(payees, replies);
    groups, from := [], [];
    var taken: set<int> := {};
    NoGroupYet(lines);
    NoLineYet(lines, payees, replies);
    for r := 0 to |replies|
      invariant LinesBefore(replies, r) <= |lines|
      invariant AreGroups(groups, from, lines, LinesBefore(replies, r))
      invariant forall id :: id in taken <==> Said(lines, LinesBefore(replies, r), 0, id)
    {
      ChunkStarts(payees, replies, r);
      var start := r * PAYEES_MAX;
      var chunk := payees[start..if start + PAYEES_MAX < |payees| then start + PAYEES_MAX else |payees|];
      ghost var at := LinesBefore(replies, r);
      NextReply(lines, payees, replies, r);
      for k := 0 to |replies[r]|
        invariant AreGroups(groups, from, lines, at + k)
        invariant forall id :: id in taken <==> Said(lines, at + k, 0, id)
      {
        var line := replies[r][k];
        LineInChunk(lines, payees, replies, r, k, chunk);
        var members;
        members, taken := TakeLine(line, chunk, taken, lines, at + k);
        GroupsMore(groups, from, lines, at + k, members);
        if |members| == 0 || (|members| == 1 && members[0].name == line.name) {
          continue;
        }
        groups, from := groups + [Group(line.name, members)], from + [at + k];
      }
    }
  }

  lemma NoLineYet(lines: seq<Named>, payees: seq<Payee>, replies: seq<seq<Line>>)
    requires AreLines(lines, payees, replies, |replies|)
    ensures LinesBefore(replies, 0) == 0 && |lines| == LinesBefore(replies, |replies|)
  {
  }

  lemma ChunkStarts(payees: seq<Payee>, replies: seq<seq<Line>>, r: nat)
    requires InChunks(payees, replies) && r < |replies|
    ensures r * PAYEES_MAX <= |payees|
  {
  }

  lemma {:induction false} LinesGrow(replies: seq<seq<Line>>, r: nat, q: nat)
    requires r <= q <= |replies|
    ensures LinesBefore(replies, r) <= LinesBefore(replies, q)
    decreases q
  {
    if r < q {
      LinesGrow(replies, r, q - 1);
    }
  }

  lemma NextReply(lines: seq<Named>, payees: seq<Payee>, replies: seq<seq<Line>>, r: nat)
    requires AreLines(lines, payees, replies, |replies|) && r < |replies|
    ensures LinesBefore(replies, r + 1) == LinesBefore(replies, r) + |replies[r]| <= |lines|
  {
    LinesGrow(replies, r + 1, |replies|);
  }

  /**
   * A payee a line numbers that no line before it does is in that line's group, unless it is the only one and has the
   * name already.
   */
  lemma NumberedIsGrouped(groups: seq<Group>, from: seq<int>, lines: seq<Named>, k: int, j: int)
    requires AreGroups(groups, from, lines, |lines|) && 0 <= k < |lines| && 0 <= j < |lines[k].payees|
    requires forall h, i :: 0 <= h <= k && 0 <= i < |lines[h].payees| && (h < k || i < j) ==>
               lines[h].payees[i].id != lines[k].payees[j].id
    ensures (exists g :: 0 <= g < |groups| && from[g] == k && groups[g].name == lines[k].name
                         && lines[k].payees[j] in groups[g].members)
            || (NewOnes([lines[k].payees[j]], lines, k) && lines[k].payees[j].name == lines[k].name)
  {
    hide AreNewOnes, NewOnes;
    assert IsNew(lines, k, j);
    if k in from {
      var g :| 0 <= g < |from| && from[g] == k;
      NewIsMember(groups[g].members, lines, k, j);
    } else {
      var members :| NewOnes(members, lines, k) && NothingToDo(members, lines[k].name);
      NewIsMember(members, lines, k, j);
      assert members == [lines[k].payees[j]];
    }
  }

  lemma NewIsMember(members: seq<Payee>, lines: seq<Named>, k: int, j: int)
    requires 0 <= k < |lines| && 0 <= j < |lines[k].payees| && NewOnes(members, lines, k) && IsNew(lines, k, j)
    ensures lines[k].payees[j] in members
  {
    hide IsNew;
    var places :| AreNewOnes(members, places, lines, k, |lines[k].payees|);
    var i :| 0 <= i < |places| && places[i] == j;
    assert members[i] == lines[k].payees[j];
  }

  /** No payee is in two groups, or twice in one, and each one is the wallet's. */
  lemma GroupsAreApart(groups: seq<Group>, from: seq<int>, lines: seq<Named>)
    requires AreGroups(groups, from, lines, |lines|)
    ensures Apart(groups)
  {
    hide NothingToDo;
    forall g, i, j | 0 <= g < |groups| && 0 <= i < j < |groups[g].members|
      ensures groups[g].members[i].id != groups[g].members[j].id
    {
      var places :| AreNewOnes(groups[g].members, places, lines, from[g], |lines[from[g]].payees|);
      NewOnesAreApart(groups[g].members, places, lines, from[g]);
    }
    forall g, h, i, j | 0 <= g < h < |groups| && 0 <= i < |groups[g].members| && 0 <= j < |groups[h].members|
      ensures groups[g].members[i].id != groups[h].members[j].id
    {
      var a :| AreNewOnes(groups[g].members, a, lines, from[g], |lines[from[g]].payees|);
      var b :| AreNewOnes(groups[h].members, b, lines, from[h], |lines[from[h]].payees|);
      assert IsNew(lines, from[h], b[j]);
      assert lines[from[g]].payees[a[i]].id == groups[g].members[i].id;
    }
  }

  // ----- the proposals -----

  /** A group filled in: the payee outside it that has the name already, the payees in order, the rule text. */
  datatype Proposal = Proposal(name: string, target: Option<int>, payees: seq<Payee>, rule: string)

  /** strings.EqualFold */
  predicate SameName(a: string, b: string, l: Language) {
    Mapped(a, l.fold) == Mapped(b, l.fold)
  }

  function UsedBy(used: map<int, int>, p: Payee): int {
    if p.id in used then used[p.id] else 0
  }

  /** The payees already spelled like the name first, then those with more transactions. */
  function KeepsRowBefore(name: string, used: map<int, int>, l: Language): (Payee, Payee) -> bool {
    (a: Payee, b: Payee) =>
      if SameName(a.name, name, l) != SameName(b.name, name, l) then SameName(a.name, name, l)
      else UsedBy(used, a) > UsedBy(used, b)
  }

  lemma KeepsRowOrders(name: string, used: map<int, int>, l: Language)
    ensures StableSort.Orders(KeepsRowBefore(name, used, l))
  {
    hide SameName, UsedBy;
  }

  function NamesOf(payees: seq<Payee>): (r: seq<string>)
    ensures |r| == |payees| && forall k :: 0 <= k < |payees| ==> r[k] == payees[k].name
  {
    seq(|payees|, k requires 0 <= k < |payees| => payees[k].name)
  }

  predicate IsMember(payees: seq<Payee>, id: int) {
    exists k :: 0 <= k < |payees| && payees[k].id == id
  }

  /** The first payee of the wallet outside the group that has the name. */
  ghost predicate IsTarget(target: Option<int>, all: seq<Payee>, members: seq<Payee>, name: string, l: Language) {
    match target
    case None => forall k :: 0 <= k < |all| ==> IsMember(members, all[k].id) || !SameName(all[k].name, name, l)
    case Some(id) =>
      exists k :: 0 <= k < |all| && all[k].id == id && !IsMember(members, id) && SameName(all[k].name, name, l)
                  && forall j :: 0 <= j < k ==> IsMember(members, all[j].id) || !SameName(all[j].name, name, l)
  }

  /** What a proposal of a group promises. */
  ghost predicate Proposes(p: Proposal, g: Group, all: seq<Payee>, used: map<int, int>, t: Letters, l: Language) {
    && p.name == g.name && IsTarget(p.target, all, g.members, g.name, l)
    && StableSort.Reordered(p.payees, g.members) && StableSort.InOrder(p.payees, KeepsRowBefore(g.name, used, l))
    && (p.rule == "" || |p.rule| >= RULE_MIN)
    && (|p.payees| >= 2 ==> p.rule == "" || Proposed(NamesOf(p.payees), p.rule, t))
    && (|p.payees| >= 2 ==> forall i: nat, j: nat :: i < j < |p.payees| ==>
                              NoBetter(NamesOf(p.payees), Candidate(NamesOf(p.payees), i, j, t), p.rule, t))
  }

  method FindTarget(all: seq<Payee>, members: seq<Payee>, name: string, l: Language) returns (target: Option<int>)
    ensures IsTarget(target, all, members, name, l)
  {
    hide IsMember, SameName;
    for k := 0 to |all|
      invariant forall j :: 0 <= j < k ==> IsMember(members, all[j].id) || !SameName(all[j].name, name, l)
    {
      var member, same := IsMember(members, all[k].id), SameName(all[k].name, name, l);
      if !member && same {
        return Some(all[k].id);
      }
    }
    target := None;
  }

  method Propose(g: Group, all: seq<Payee>, used: map<int, int>, t: Letters, l: Language) returns (p: Proposal)
    ensures Proposes(p, g, all, used, t, l)
  {
    hide StableSort.InOrder, StableSort.Reordered, StableSort.Orders, IsTarget, Proposed, NoBetter, Candidate;
    var target := FindTarget(all, g.members, g.name, l);
    KeepsRowOrders(g.name, used, l);
    var sorted := StableSort.Sort(g.members, KeepsRowBefore(g.name, used, l));
    var rule := RuleText(NamesOf(sorted), t);
    p := Proposal(g.name, target, sorted, rule);
  }

  function TotalUsed(p: Proposal, used: map<int, int>): int {
    TotalOf(p.payees, used)
  }

  function TotalOf(payees: seq<Payee>, used: map<int, int>): int {
    if payees == [] then 0 else TotalOf(payees[..|payees| - 1], used) + UsedBy(used, payees[|payees| - 1])
  }

  /** The proposals with more transactions first. */
  function MoreUsed(used: map<int, int>): (Proposal, Proposal) -> bool {
    (a: Proposal, b: Proposal) => TotalUsed(a, used) > TotalUsed(b, used)
  }

  ghost predicate FromGroup(p: Proposal, groups: seq<Group>, payees: seq<Payee>, used: map<int, int>, t: Letters, l: Language) {
    exists g :: 0 <= g < |groups| && Proposes(p, groups[g], payees, used, t, l)
  }

  /** One proposal for each group, group by group. */
  ghost predicate OfGroups(ps: seq<Proposal>, groups: seq<Group>, payees: seq<Payee>, used: map<int, int>, t: Letters, l: Language) {
    |ps| == |groups| && forall g :: 0 <= g < |groups| ==> Proposes(ps[g], groups[g], payees, used, t, l)
  }

  lemma MoreUsedOrders(used: map<int, int>)
    ensures StableSort.Orders(MoreUsed(used))
  {
    hide TotalUsed;
  }

  /** A proposal's payees: those spelled like the name, case aside, come first, and among either those with more use. */
  lemma PayeesInOrder(p: Proposal, g: Group, all: seq<Payee>, used: map<int, int>, t: Letters, l: Language, i: nat, j: nat)
    requires Proposes(p, g, all, used, t, l) && i < j < |p.payees|
    ensures var a, b := p.payees[i], p.payees[j];
            && (SameName(b.name, g.name, l) ==> SameName(a.name, g.name, l))
            && ((SameName(a.name, g.name, l) <==> SameName(b.name, g.name, l)) && a.id in used && b.id in used ==>
                  used[a.id] >= used[b.id])
  {
    hide IsTarget, Proposed, NoBetter, SameName;
    assert !KeepsRowBefore(g.name, used, l)(p.payees[j], p.payees[i]);
  }

  /** Names are the same when letter by letter they fold alike. */
  lemma SameNameIsEqualFold(a: string, b: string, l: Language)
    ensures SameName(a, b, l) <==> |a| == |b| && forall i :: 0 <= i < |a| ==> l.fold(a[i]) == l.fold(b[i])
  {
    if SameName(a, b, l) {
      forall i | 0 <= i < |a|
        ensures l.fold(a[i]) == l.fold(b[i])
      {
        assert Mapped(a, l.fold)[i] == Mapped(b, l.fold)[i];
      }
    }
  }

  lemma MostUsedFirst(out: seq<Proposal>, used: map<int, int>)
    requires StableSort.InOrder(out, MoreUsed(used))
    ensures forall i, j :: 0 <= i < j < |out| ==> TotalUsed(out[i], used) >= TotalUsed(out[j], used)
  {
    hide TotalUsed;
    forall i, j | 0 <= i < j < |out|
      ensures TotalUsed(out[i], used) >= TotalUsed(out[j], used)
    {
      assert !MoreUsed(used)(out[j], out[i]);
    }
  }

  /** All of it: the groups, disjoint, each filled in, those with more transactions first. */
  method ProposePayeeCleanup(payees: seq<Payee>, replies: seq<seq<Line>>, used: map<int, int>, t: Letters, l: Language)
    returns (out: seq<Proposal>, ghost groups: seq<Group>, ghost unsorted: seq<Proposal>, ghost lines: seq<Named>,
             ghost from: seq<int>)
    requires InChunks(payees, replies)
    ensures AreLines(lines, payees, replies, |replies|) && AreGroups(groups, from, lines, |lines|)
    ensures Apart(groups) && OfGroups(unsorted, groups, payees, used, t, l)
    ensures StableSort.Reordered(out, unsorted)
    ensures forall i, j :: 0 <= i < j < |out| ==> TotalUsed(out[i], used) >= TotalUsed(out[j], used)
    ensures forall i :: 0 <= i < |out| ==> FromGroup(out[i], groups, payees, used, t, l)
  {
    hide InChunks, AreLines, AreGroups, Apart, Proposes, StableSort.InOrder, StableSort.Reordered, StableSort.Orders;
    var made;
    made, lines, from := Groups(payees, replies);
    groups := made;
    GroupsAreApart(groups, from, lines);
    var filled: seq<Proposal> := [];
    for g := 0 to |made|
      invariant |filled| == g && forall h :: 0 <= h < g ==> Proposes(filled[h], made[h], payees, used, t, l)
    {
      var p := Propose(made[g], payees, used, t, l);
      filled := filled + [p];
    }
    unsorted := filled;
    MoreUsedOrders(used);
    out := StableSort.Sort(filled, MoreUsed(used));
    MostUsedFirst(out, used);
    forall i | 0 <= i < |out|
      ensures FromGroup(out[i], groups, payees, used, t, l)
    {
      StableSort.SameElements(out, filled, out[i]);
      var g :| 0 <= g < |filled| && filled[g] == out[i];
    }
  }
}
