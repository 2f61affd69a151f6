/** The rule engine: what a rule matches and which rule decides (server/internal/assignment/engine.go). */
module RuleEngine {
  import opened Options

  /** What the engine takes from the language: letters' cases, spaces, regular expressions. */
  datatype Language = Language(
    lower: char -> char,                // unicode.ToLower
    fold: char -> char,                 // one letter for all that strings.EqualFold takes as the same
    space: char -> bool,                // unicode.IsSpace
    compiles: (string, bool) -> bool,   // the expression, with case or without, is well formed
    finds: (string, bool, string) -> bool)  // the expression, with case or without, matches in the text

  function Mapped(s: string, f: char -> char): (r: string)
    ensures |r| == |s| && forall i :: 0 <= i < |s| ==> r[i] == f(s[i])
  {
    seq(|s|, i requires 0 <= i < |s| => f(s[i]))
  }

  function TrimLeft(s: string, l: Language): (r: string)
    ensures |r| <= |s| && (r != "" ==> !l.space(r[0]))
  {
    if s != "" && l.space(s[0]) then TrimLeft(s[1..], l) else s
  }

  function TrimRight(s: string, l: Language): (r: string)
    ensures |r| <= |s| && r == s[..|r|] && (r != "" ==> !l.space(r[|r| - 1]))
  {
    if s != "" && l.space(s[|s| - 1]) then TrimRight(s[..|s| - 1], l) else s
  }

  /** strings.TrimSpace */
  function Trim(s: string, l: Language): string {
    TrimRight(TrimLeft(s, l), l)
  }

  lemma TrimTwice(s: string, l: Language)
    ensures Trim(Trim(s, l), l) == Trim(s, l)
  {
    var t := Trim(s, l);
    assert t != "" ==> t[0] == TrimLeft(s, l)[0];
  }

  predicate StandsAt(text: string, part: string, i: nat) {
    i + |part| <= |text| && text[i..i + |part|] == part
  }

  predicate Contains(text: string, part: string) {
    exists i: nat :: i <= |text| && StandsAt(text, part, i)
  }

  datatype Field = Memo | Payee | Both | Tag | OtherField

  datatype Kind = Exact | Containing | Regex | OtherKind

  datatype Rule = Rule(
    id: int, field: Field, kind: Kind, pattern: string, caseSensitive: bool, account: Option<int>,
    setPayee: Option<int>, setCategory: Option<int>, setMode: Option<int>, setInfo: Option<string>, addTags: seq<string>)

  /** What a rule reads of a transaction. */
  datatype Subject = Subject(memo: string, payee: string, tags: set<string>, account: int)

  predicate Blank(s: string, l: Language) {
    forall i :: 0 <= i < |s| ==> l.space(s[i])
  }

  /** Whether a rule can be saved and used. */
  predicate Compiles(r: Rule, l: Language) {
    && !r.field.OtherField? && !Blank(r.pattern, l) && !r.kind.OtherKind?
    && (r.kind.Regex? ==> l.compiles(r.pattern, r.caseSensitive))
  }

  predicate MatchText(r: Rule, text: string, l: Language) {
    match r.kind
    case Regex => l.finds(r.pattern, r.caseSensitive, text)
    case Exact => if r.caseSensitive then text == r.pattern else Mapped(text, l.fold) == Mapped(r.pattern, l.fold)
    case _ =>
      if r.caseSensitive then Contains(text, r.pattern)
      else Contains(Mapped(text, l.lower), Mapped(r.pattern, l.lower))
  }

  predicate Matches(r: Rule, s: Subject, l: Language) {
    if r.account.Some? && r.account.value != s.account then false
    else match r.field
      case Memo => MatchText(r, s.memo, l)
      case Payee => MatchText(r, s.payee, l)
      case Tag => exists t :: t in s.tags && MatchText(r, t, l)
      case _ => MatchText(r, s.memo, l) || MatchText(r, s.payee, l)
  }

  // ----- what a rule matches, in the text's own terms -----

  /** From place k on the text goes on as the pattern does, letters taken as f takes them. */
  predicate GoesOn(text: string, k: nat, pattern: string, f: char -> char) {
    k + |pattern| <= |text| && forall i :: 0 <= i < |pattern| ==> f(text[k + i]) == f(pattern[i])
  }

  lemma MappedContains(text: string, pattern: string, f: char -> char)
    ensures Contains(Mapped(text, f), Mapped(pattern, f)) <==> exists k: nat :: GoesOn(text, k, pattern, f)
  {
    var x, y := Mapped(text, f), Mapped(pattern, f);
    forall k: nat
      ensures k <= |x| && StandsAt(x, y, k) <==> GoesOn(text, k, pattern, f)
    {
      if k <= |x| && StandsAt(x, y, k) {
        forall i | 0 <= i < |pattern|
          ensures f(text[k + i]) == f(pattern[i])
        {
          assert x[k..k + |y|][i] == y[i];
        }
      }
      if GoesOn(text, k, pattern, f) {
        assert x[k..k + |y|] == y;
      }
    }
  }

  function Letter(c: char): char {
    c
  }

  /** An exact rule matches its pattern and no longer text, a containing one what the pattern stands in. */
  lemma TextMatched(r: Rule, text: string, l: Language)
    ensures r.kind == Exact ==>
              (MatchText(r, text, l) <==> |text| == |r.pattern| && GoesOn(text, 0, r.pattern, if r.caseSensitive then Letter else l.fold))
    ensures r.kind == Containing ==>
              var f := if r.caseSensitive then Letter else l.lower;
              MatchText(r, text, l) <==> exists k: nat :: GoesOn(text, k, r.pattern, f)
    ensures r.kind == Regex ==> (MatchText(r, text, l) <==> l.finds(r.pattern, r.caseSensitive, text))
  {
    if r.caseSensitive {
      MappedContains(text, r.pattern, Letter);
      assert Mapped(text, Letter) == text && Mapped(r.pattern, Letter) == r.pattern;
      if |text| == |r.pattern| && GoesOn(text, 0, r.pattern, Letter) {
        assert text == r.pattern;
      }
    } else {
      MappedContains(text, r.pattern, l.lower);
      FoldedAlike(text, r.pattern, l.fold);
    }
  }

  lemma FoldedAlike(a: string, b: string, f: char -> char)
    ensures Mapped(a, f) == Mapped(b, f) <==> |a| == |b| && GoesOn(a, 0, b, f)
  {
    if Mapped(a, f) == Mapped(b, f) {
      forall i | 0 <= i < |b|
        ensures f(a[0 + i]) == f(b[i])
      {
        assert Mapped(a, f)[i] == Mapped(b, f)[i];
      }
    }
  }

  /**
   * A rule looks at its field alone: the memo, the payee's name, either, or any of the tags; one with an account
   * matches what it would without, on that account alone.
   */
  lemma FieldMatched(r: Rule, s: Subject, l: Language)
    ensures var rest := r.(account := None);
            && (Matches(r, s, l) <==> Matches(rest, s, l) && (r.account == None || r.account == Some(s.account)))
            && (r.field == Field.Memo ==> (Matches(rest, s, l) <==> MatchText(r, s.memo, l)))
            && (r.field == Field.Payee ==> (Matches(rest, s, l) <==> MatchText(r, s.payee, l)))
            && (r.field == Both ==> (Matches(rest, s, l) <==> MatchText(r, s.memo, l) || MatchText(r, s.payee, l)))
            && (r.field == Field.Tag ==> (Matches(rest, s, l) <==> exists t :: t in s.tags && MatchText(r, t, l)))
  {
    var rest := r.(account := None);
    assert forall text :: MatchText(rest, text, l) <==> MatchText(r, text, l);
  }

  /** A rule can be saved when its field and kind are known and its pattern has more than spaces and, if an expression, is one. */
  lemma Saved(r: Rule, l: Language)
    ensures Compiles(r, l) <==>
            && r.field in {Field.Memo, Field.Payee, Both, Field.Tag} && r.kind in {Exact, Containing, Regex}
            && Trim(r.pattern, l) != "" && (r.kind == Regex ==> l.compiles(r.pattern, r.caseSensitive))
  {
    TrimmedAway(r.pattern, l);
  }

  lemma {:induction false} LeftTrimmedAway(s: string, l: Language)
    ensures TrimLeft(s, l) == "" <==> Blank(s, l)
  {
    if s != "" && l.space(s[0]) {
      LeftTrimmedAway(s[1..], l);
      assert forall i :: 0 < i < |s| ==> s[i] == s[1..][i - 1];
    }
  }

  lemma TrimmedAway(s: string, l: Language)
    ensures Trim(s, l) == "" <==> Blank(s, l)
  {
    LeftTrimmedAway(s, l);
    var t := TrimLeft(s, l);
    if t != "" {
      SomeIsKept(t, l);
    }
  }

  lemma {:induction false} SomeIsKept(s: string, l: Language)
    requires s != "" && !l.space(s[0])
    ensures TrimRight(s, l) != ""
  {
    if l.space(s[|s| - 1]) {
      SomeIsKept(s[..|s| - 1], l);
    }
  }

  /** Only spaces are trimmed, all of them on both sides. */
  lemma TrimmedIsTheMiddle(s: string, l: Language) returns (k: nat)
    ensures var r := Trim(s, l);
            && k + |r| <= |s| && r == s[k..k + |r|]
            && (forall i :: 0 <= i < k || k + |r| <= i < |s| ==> l.space(s[i]))
            && (r != "" ==> !l.space(r[0]) && !l.space(r[|r| - 1]))
  {
    k := LeftTrimmed(s, l);
    var t := TrimLeft(s, l);
    RightTrimmed(t, l);
    assert forall i :: 0 <= i < |t| ==> t[i] == s[k + i];
  }

  lemma {:induction false} LeftTrimmed(s: string, l: Language) returns (k: nat)
    ensures k <= |s| && TrimLeft(s, l) == s[k..] && forall i :: 0 <= i < k ==> l.space(s[i])
  {
    k := 0;
    if s != "" && l.space(s[0]) {
      k := LeftTrimmed(s[1..], l);
      assert forall i :: 0 < i <= k ==> s[i] == s[1..][i - 1];
      k := k + 1;
    }
  }

  lemma {:induction false} RightTrimmed(s: string, l: Language)
    ensures TrimRight(s, l) <= s && forall i :: |TrimRight(s, l)| <= i < |s| ==> l.space(s[i])
    ensures s != "" && !l.space(s[0]) ==> TrimRight(s, l) != "" && TrimRight(s, l)[0] == s[0]
  {
    if s != "" && l.space(s[|s| - 1]) {
      RightTrimmed(s[..|s| - 1], l);
    }
  }

  /** The place of the first rule that matches; none when no rule does. */
  function First(rules: seq<Rule>, s: Subject, l: Language): (r: Option<nat>)
    ensures r.Some? ==> r.value < |rules| && Matches(rules[r.value], s, l)
    ensures r.Some? ==> forall i :: 0 <= i < r.value ==> !Matches(rules[i], s, l)
    ensures r.None? ==> forall i :: 0 <= i < |rules| ==> !Matches(rules[i], s, l)
  {
    if rules == [] then None
    else
      var before := First(rules[..|rules| - 1], s, l);
      if before.Some? then before
      else if Matches(rules[|rules| - 1], s, l) then Some(|rules| - 1)
      else None
  }

  method FirstMatch(rules: seq<Rule>, s: Subject, l: Language) returns (r: Option<Rule>)
    ensures r == if First(rules, s, l).Some? then Some(rules[First(rules, s, l).value]) else None
  {
    for i := 0 to |rules|
      invariant forall j :: 0 <= j < i ==> !Matches(rules[j], s, l)
    {
      if Matches(rules[i], s, l) {
        return Some(rules[i]);
      }
    }
    r := None;
  }

  /** The names stand in the list, each where it comes first, in the list's order. */
  ghost predicate FirstsOf(names: seq<string>, places: seq<nat>, all: seq<string>) {
    && |names| == |places|
    && (forall i :: 0 <= i < |places| ==> places[i] < |all| && names[i] == all[places[i]] && names[i] !in all[..places[i]])
    && (forall i, j :: 0 <= i < j < |places| ==> places[i] < places[j])
  }

  lemma FirstsMore(names: seq<string>, places: seq<nat>, all: seq<string>, k: nat)
    requires FirstsOf(names, places, all) && k < |all| && all[k] !in all[..k] && forall i :: 0 <= i < |places| ==> places[i] < k
    ensures FirstsOf(names + [all[k]], places + [k], all)
  {
  }

  /** Appends the names that are not there yet, in order; takes none away. */
  method AddTags(tags: seq<string>, add: seq<string>) returns (r: seq<string>)
    ensures tags <= r
    ensures forall t :: t in r <==> t in tags || t in add
    ensures forall i, j :: |tags| <= j < |r| && 0 <= i < j ==> r[i] != r[j]
    ensures exists places :: FirstsOf(r[|tags|..], places, add)
  {
    hide FirstsOf;
    ghost var places: seq<nat> := [];
    assert FirstsOf([], [], add) by { NoFirsts(add); }
    var have: set<string> := {};
    for i := 0 to |tags|
      invariant forall t :: t in have <==> t in tags[..i]
    {
      have := have + {tags[i]};
    }
    r := tags;
    assert r[|tags|..] == [];
    for i := 0 to |add|
      invariant tags <= r && forall t :: t in have <==> t in r
      invariant forall t :: t in r <==> t in tags || t in add[..i]
      invariant forall k, j :: |tags| <= j < |r| && 0 <= k < j ==> r[k] != r[j]
      invariant FirstsOf(r[|tags|..], places, add) && forall k :: 0 <= k < |places| ==> places[k] < i
    {
      if add[i] !in have {
        FirstsMore(r[|tags|..], places, add, i);
        assert (r + [add[i]])[|tags|..] == r[|tags|..] + [add[i]];
        have := have + {add[i]};
        r, places := r + [add[i]], places + [i];
      }
    }
  }

  lemma NoFirsts(all: seq<string>)
    ensures FirstsOf([], [], all)
  {
  }
}
