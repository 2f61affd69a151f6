/** The wallet's rules: counted, tried out, and applied (server/internal/assignment/service.go, unruled.go). */
module AssignmentService {
  import opened Options
  import opened RuleEngine
  import StableSort

  datatype Txn = Txn(id: int, account: int, date: int, memo: string, payee: Option<int>, category: Option<int>,
                     mode: int, info: string, tags: set<string>, isSplit: bool)

  /** What matching takes besides the rules: the payees' names and the language. */
  datatype View = View(payees: map<int, string>, l: Language)

  function PayeeName(payee: int, v: View): string {
    if payee in v.payees then v.payees[payee] else ""
  }

  function SubjectOf(t: Txn, v: View): Subject {
    Subject(t.memo, if t.payee.Some? then PayeeName(t.payee.value, v) else "", t.tags, t.account)
  }

  /** The rule is usable and matches the transaction. */
  predicate Hits(r: Rule, t: Txn, v: View) {
    Compiles(r, v.l) && Matches(r, SubjectOf(t, v), v.l)
  }

  predicate NoneHits(rules: seq<Rule>, t: Txn, v: View) {
    forall i :: 0 <= i < |rules| ==> !Hits(rules[i], t, v)
  }

  // ----- counting transactions -----

  function Count(ts: seq<Txn>, p: Txn -> bool): nat {
    if ts == [] then 0 else Count(ts[..|ts| - 1], p) + if p(ts[|ts| - 1]) then 1 else 0
  }

  lemma CountStep(ts: seq<Txn>, i: nat, p: Txn -> bool)
    requires i < |ts|
    ensures Count(ts[..i + 1], p) == Count(ts[..i], p) + if p(ts[i]) then 1 else 0
  {
    assert ts[..i + 1][..i] == ts[..i];
  }

  lemma {:induction false} CountSame(ts: seq<Txn>, p: Txn -> bool, q: Txn -> bool)
    requires forall t :: t in ts ==> (p(t) <==> q(t))
    ensures Count(ts, p) == Count(ts, q)
  {
    if ts != [] {
      assert ts[|ts| - 1] in ts;
      CountSame(ts[..|ts| - 1], p, q);
    }
  }

  lemma {:induction false} CountSplit(ts: seq<Txn>, p: Txn -> bool, q: Txn -> bool, r: Txn -> bool)
    requires forall t :: (p(t) <==> q(t) || r(t)) && !(q(t) && r(t))
    ensures Count(ts, p) == Count(ts, q) + Count(ts, r)
  {
    if ts != [] {
      CountSplit(ts[..|ts| - 1], p, q, r);
    }
  }

  lemma {:induction false} CountNone(ts: seq<Txn>, p: Txn -> bool)
    ensures Count(ts, p) == 0 <==> forall t :: t in ts ==> !p(t)
  {
    if ts != [] {
      var n := |ts| - 1;
      CountNone(ts[..n], p);
      assert ts == ts[..n] + [ts[n]];
      assert forall t :: t in ts <==> t in ts[..n] || t == ts[n];
    }
  }

  lemma {:induction false} CountAll(ts: seq<Txn>, p: Txn -> bool)
    requires forall t :: p(t)
    ensures Count(ts, p) == |ts|
  {
    if ts != [] {
      CountAll(ts[..|ts| - 1], p);
    }
  }

  // ----- who decides what -----

  function Reaching(r: Rule, v: View): Txn -> bool {
    (t: Txn) => Hits(r, t, v)
  }

  /** The rule at i is the first to hit. */
  function Deciding(rules: seq<Rule>, i: nat, v: View): Txn -> bool
    requires i < |rules|
  {
    (t: Txn) => Hits(rules[i], t, v) && NoneHits(rules[..i], t, v)
  }

  function Undecided(rules: seq<Rule>, v: View): Txn -> bool {
    (t: Txn) => NoneHits(rules, t, v)
  }

  /** The candidate hits, and one of the others does first. */
  function Taking(r: Rule, above: seq<Rule>, v: View): Txn -> bool {
    (t: Txn) => Hits(r, t, v) && !NoneHits(above, t, v)
  }

  function Uncategorised(r: Rule, above: seq<Rule>, v: View): Txn -> bool {
    (t: Txn) => Hits(r, t, v) && NoneHits(above, t, v) && t.category.None?
  }

  function SumDecided(rules: seq<Rule>, n: nat, ts: seq<Txn>, v: View): nat
    requires n <= |rules|
  {
    if n == 0 then 0 else SumDecided(rules, n - 1, ts, v) + Count(ts, Deciding(rules, n - 1, v))
  }

  /** A rule decides what no rule before it hits. */
  lemma DecidedOrNot(rules: seq<Rule>, n: nat, t: Txn, v: View)
    requires n < |rules|
    ensures NoneHits(rules[..n], t, v) <==> NoneHits(rules[..n + 1], t, v) || Deciding(rules, n, v)(t)
    ensures !(NoneHits(rules[..n + 1], t, v) && Deciding(rules, n, v)(t))
  {
    hide Hits;
    var a, b := rules[..n], rules[..n + 1];
    assert forall i :: 0 <= i < n ==> a[i] == b[i];
    assert b[n] == rules[n];
  }

  lemma {:induction false} DecidedUpTo(rules: seq<Rule>, n: nat, ts: seq<Txn>, v: View)
    requires n <= |rules|
    ensures SumDecided(rules, n, ts, v) + Count(ts, Undecided(rules[..n], v)) == |ts|
  {
    hide NoneHits, Hits, Count;
    if n == 0 {
      NothingDecided(v);
      CountAll(ts, Undecided(rules[..0], v));
    } else {
      DecidedUpTo(rules, n - 1, ts, v);
      forall t
        ensures NoneHits(rules[..n - 1], t, v) <==> NoneHits(rules[..n], t, v) || Deciding(rules, n - 1, v)(t)
        ensures !(NoneHits(rules[..n], t, v) && Deciding(rules, n - 1, v)(t))
      {
        DecidedOrNot(rules, n - 1, t, v);
      }
      CountSplit(ts, Undecided(rules[..n - 1], v), Undecided(rules[..n], v), Deciding(rules, n - 1, v));
    }
  }

  lemma NothingDecided(v: View)
    ensures forall t :: NoneHits([], t, v)
  {
  }

  /** Every transaction is decided by one rule or by none. */
  lemma AllAreDecidedOnce(rules: seq<Rule>, ts: seq<Txn>, v: View)
    ensures SumDecided(rules, |rules|, ts, v) + Count(ts, Undecided(rules, v)) == |ts|
  {
    DecidedUpTo(rules, |rules|, ts, v);
    assert rules[..|rules|] == rules;
  }

  // ----- the usable rules -----

  function Usable(rules: seq<Rule>, l: Language): seq<Rule> {
    if rules == [] then []
    else Usable(rules[..|rules| - 1], l) + if Compiles(rules[|rules| - 1], l) then [rules[|rules| - 1]] else []
  }

  lemma UsableStep(rules: seq<Rule>, i: nat, l: Language)
    requires i < |rules|
    ensures Usable(rules[..i + 1], l) == Usable(rules[..i], l) + if Compiles(rules[i], l) then [rules[i]] else []
  {
    assert rules[..i + 1][..i] == rules[..i];
  }

  lemma NoneHitsMore(rules: seq<Rule>, r: Rule, t: Txn, v: View)
    ensures NoneHits(rules + [r], t, v) <==> NoneHits(rules, t, v) && !Hits(r, t, v)
  {
    hide Hits;
    var all := rules + [r];
    assert all[|rules|] == r && forall i :: 0 <= i < |rules| ==> all[i] == rules[i];
  }

  lemma {:induction false} UsableAreUsable(rules: seq<Rule>, t: Txn, v: View)
    ensures NoneHits(Usable(rules, v.l), t, v) <==> NoneHits(rules, t, v)
    ensures forall i :: 0 <= i < |Usable(rules, v.l)| ==> Compiles(Usable(rules, v.l)[i], v.l)
  {
    hide Matches, Compiles, SubjectOf, NoneHits;
    if rules != [] {
      var some, last := rules[..|rules| - 1], rules[|rules| - 1];
      UsableAreUsable(some, t, v);
      assert rules == some + [last];
      NoneHitsMore(some, last, t, v);
      NoneHitsMore(Usable(some, v.l), last, t, v);
      assert Usable(some, v.l) + [] == Usable(some, v.l);
    }
  }

  lemma UsableHits(rules: seq<Rule>, t: Txn, v: View)
    ensures NoneHits(Usable(rules, v.l), t, v) <==> NoneHits(rules, t, v)
    ensures First(Usable(rules, v.l), SubjectOf(t, v), v.l).None? <==> NoneHits(rules, t, v)
    ensures forall i :: 0 <= i < |Usable(rules, v.l)| ==> Compiles(Usable(rules, v.l)[i], v.l)
  {
    hide Matches, Compiles, SubjectOf, Usable;
    UsableAreUsable(rules, t, v);
  }

  /** The rules above one with this id among the usable ones; all of them when it is not there. */
  function Above(all: seq<Rule>, id: int): seq<Rule> {
    if all == [] then [] else if all[0].id == id then [] else [all[0]] + Above(all[1..], id)
  }

  lemma {:induction false} AboveIs(all: seq<Rule>, id: int, k: nat)
    requires k <= |all| && (forall i :: 0 <= i < k ==> all[i].id != id) && (k < |all| ==> all[k].id == id)
    ensures Above(all, id) == all[..k]
  {
    if k > 0 {
      AboveIs(all[1..], id, k - 1);
      assert all[..k] == [all[0]] + all[1..][..k - 1];
    }
  }

  datatype Error = Invalid | NotFound | BadReference

  datatype Result<+T> = Ok(value: T) | Err(error: Error)

  datatype TestResult = TestResult(count: nat, taken: nat, withoutCategory: nat, latest: seq<Txn>)

  // ----- the latest matches -----

  predicate Newer(a: Txn, b: Txn) {
    a.date > b.date || (a.date == b.date && a.id > b.id)
  }

  function Among(ts: seq<Txn>, p: Txn -> bool): seq<Txn> {
    if ts == [] then [] else Among(ts[..|ts| - 1], p) + if p(ts[|ts| - 1]) then [ts[|ts| - 1]] else []
  }

  lemma AmongStep(ts: seq<Txn>, k: nat, p: Txn -> bool)
    requires k < |ts|
    ensures Among(ts[..k + 1], p) == Among(ts[..k], p) + if p(ts[k]) then [ts[k]] else []
  {
    assert ts[..k + 1][..k] == ts[..k];
  }

  /** The first n of the hits, newest first; all of them when n is not positive. */
  ghost predicate AreLatest(latest: seq<Txn>, hits: seq<Txn>, n: int) {
    exists sorted ::
      StableSort.InOrder(sorted, Newer) && StableSort.Reordered(sorted, hits) && latest == Cut(sorted, n)
  }

  function Cut(ts: seq<Txn>, n: int): seq<Txn> {
    if 0 < n < |ts| then ts[..n] else ts
  }

  lemma NoneAmong(p: Txn -> bool)
    ensures Among([], p) == []
  {
  }

  lemma NewerOrders()
    ensures StableSort.Orders(Newer)
  {
  }

  /** No match that is left out is newer than one that is shown. */
  lemma NoneNewerIsLeftOut(latest: seq<Txn>, hits: seq<Txn>, n: int, shown: Txn, out: Txn)
    requires AreLatest(latest, hits, n) && shown in latest && out in hits && out !in latest
    ensures out.date < shown.date || (out.date == shown.date && out.id <= shown.id)
    ensures |latest| == n && shown in hits
  {
    var sorted :|
      StableSort.InOrder(sorted, Newer) && StableSort.Reordered(sorted, hits) && latest == Cut(sorted, n);
    StableSort.SameElements(sorted, hits, out);
    StableSort.SameElements(sorted, hits, shown);
    var i :| 0 <= i < |latest| && latest[i] == shown;
    var j :| 0 <= j < |sorted| && sorted[j] == out;
    assert forall k :: 0 <= k < |latest| ==> sorted[k] == latest[k];
  }

  /** They are shown latest first, of one day the one with the higher id. */
  lemma LatestFirst(latest: seq<Txn>, hits: seq<Txn>, n: int, i: nat, j: nat)
    requires AreLatest(latest, hits, n) && i < j < |latest|
    ensures latest[j].date < latest[i].date || (latest[j].date == latest[i].date && latest[j].id <= latest[i].id)
  {
    var sorted :|
      StableSort.InOrder(sorted, Newer) && StableSort.Reordered(sorted, hits) && latest == Cut(sorted, n);
    assert latest[i] == sorted[i] && latest[j] == sorted[j];
    assert !Newer(sorted[j], sorted[i]);
  }

  datatype Counts = Counts(matches: nat, reach: nat)

  // ----- applying a rule -----

  predicate Fills(set_: bool, empty: bool, onlyFillEmpty: bool) {
    set_ && (!onlyFillEmpty || empty)
  }

  function TagSet(r: Rule): set<string> {
    set t | t in r.addTags
  }

  /** What a rule makes of a transaction. */
  function Applied(r: Rule, t: Txn, onlyFillEmpty: bool): Txn {
    t.(payee := if Fills(r.setPayee.Some?, t.payee.None?, onlyFillEmpty) then r.setPayee else t.payee,
       category := if Fills(r.setCategory.Some?, t.category.None?, onlyFillEmpty) then r.setCategory else t.category,
       mode := if Fills(r.setMode.Some?, t.mode == 0, onlyFillEmpty) then r.setMode.value else t.mode,
       info := if Fills(r.setInfo.Some?, t.info == "", onlyFillEmpty) then r.setInfo.value else t.info,
       tags := t.tags + TagSet(r))
  }

  predicate Touched(r: Rule, t: Txn, onlyFillEmpty: bool) {
    || Fills(r.setPayee.Some?, t.payee.None?, onlyFillEmpty)
    || Fills(r.setCategory.Some?, t.category.None?, onlyFillEmpty)
    || Fills(r.setMode.Some?, t.mode == 0, onlyFillEmpty)
    || Fills(r.setInfo.Some?, t.info == "", onlyFillEmpty)
    || TagSet(r) - t.tags != {}
  }

  /** Which transactions and which rule a call is for. */
  datatype Scope = Scope(account: Option<int>, rule: Option<int>, onlyFillEmpty: bool)

  /** The rule that is applied to a transaction. */
  function Chosen(rules: seq<Rule>, t: Txn, v: View, scope: Scope): Option<Rule> {
    if scope.account.Some? && t.account != scope.account.value then None
    else
      var usable := Usable(rules, v.l);
      var first := First(usable, SubjectOf(t, v), v.l);
      if first.None? then None
      else if scope.rule.Some? && usable[first.value].id != scope.rule.value then None
      else Some(usable[first.value])
  }

  function ApplyTo(rules: seq<Rule>, t: Txn, v: View, scope: Scope): Txn {
    match Chosen(rules, t, v, scope)
    case None => t
    case Some(r) => Applied(r, t, scope.onlyFillEmpty)
  }

  function ApplyAll(rules: seq<Rule>, ts: seq<Txn>, v: View, scope: Scope): seq<Txn> {
    seq(|ts|, i requires 0 <= i < |ts| => ApplyTo(rules, ts[i], v, scope))
  }

  function Touching(rules: seq<Rule>, v: View, scope: Scope): Txn -> bool {
    (t: Txn) => Chosen(rules, t, v, scope).Some? && Touched(Chosen(rules, t, v, scope).value, t, scope.onlyFillEmpty)
  }

  /** The counts after the first k transactions. */
  ghost predicate Counted(rules: seq<Rule>, v: View, ts: seq<Txn>, k: nat, i: nat, matches: nat, reach: nat)
    requires i < |rules| && k <= |ts|
  {
    matches == Count(ts[..k], Deciding(rules, i, v)) && reach == Count(ts[..k], Reaching(rules[i], v))
  }

  lemma CountedStep(rules: seq<Rule>, v: View, ts: seq<Txn>, k: nat, i: nat, matches: nat, reach: nat)
    requires i < |rules| && k < |ts| && Counted(rules, v, ts, k, i, matches, reach)
    ensures Counted(rules, v, ts, k + 1, i,
                    matches + (if Hits(rules[i], ts[k], v) && NoneHits(rules[..i], ts[k], v) then 1 else 0),
                    reach + if Hits(rules[i], ts[k], v) then 1 else 0)
  {
    hide Hits, NoneHits, Count;
    CountStep(ts, k, Deciding(rules, i, v));
    CountStep(ts, k, Reaching(rules[i], v));
  }

  lemma CountedNone(rules: seq<Rule>, v: View, ts: seq<Txn>, i: nat)
    requires i < |rules|
    ensures Counted(rules, v, ts, 0, i, 0, 0)
  {
  }

  lemma NoneHitsStep(rules: seq<Rule>, i: nat, t: Txn, v: View)
    requires i < |rules|
    ensures NoneHits(rules[..i + 1], t, v) <==> NoneHits(rules[..i], t, v) && !Hits(rules[i], t, v)
  {
    DecidedOrNot(rules, i, t, v);
  }

  /** One transaction counted on every rule. */
  method CountOne(rules: seq<Rule>, v: View, ts: seq<Txn>, k: nat, matches: array<nat>, reach: array<nat>)
    requires k < |ts| && matches != reach && matches.Length == |rules| && reach.Length == |rules|
    requires forall i :: 0 <= i < |rules| ==> Counted(rules, v, ts, k, i, matches[i], reach[i])
    modifies matches, reach
    ensures forall i :: 0 <= i < |rules| ==> Counted(rules, v, ts, k + 1, i, matches[i], reach[i])
  {
    hide Counted, NoneHits, Matches, Compiles, Deciding, SubjectOf;
    var subj := SubjectOf(ts[k], v);
    var first := true;
    assert rules[..0] == [];
    NothingDecided(v);
    for i := 0 to |rules|
      invariant first <==> NoneHits(rules[..i], ts[k], v)
      invariant forall j :: 0 <= j < i ==> Counted(rules, v, ts, k + 1, j, matches[j], reach[j])
      invariant forall j :: i <= j < |rules| ==> Counted(rules, v, ts, k, j, matches[j], reach[j])
    {
      CountedStep(rules, v, ts, k, i, matches[i], reach[i]);
      NoneHitsStep(rules, i, ts[k], v);
      if !Compiles(rules[i], v.l) || !Matches(rules[i], subj, v.l) {
        continue;
      }
      reach[i] := reach[i] + 1;
      if first {
        matches[i] := matches[i] + 1;
        first := false;
      }
    }
  }

  function Trimmed(tags: seq<string>, l: Language): (r: seq<string>)
    ensures |r| == |tags| && forall i :: 0 <= i < |tags| ==> r[i] == Trim(tags[i], l)
  {
    seq(|tags|, i requires 0 <= i < |tags| => Trim(tags[i], l))
  }

  /** The names trimmed, blanks and repeats left out, in order. */
  method CleanTags(tags: seq<string>, l: Language) returns (out: seq<string>)
    ensures forall t :: t in out <==> t != "" && exists i :: 0 <= i < |tags| && Trim(tags[i], l) == t
    ensures forall i, j :: 0 <= i < j < |out| ==> out[i] != out[j]
    ensures exists places :: FirstsOf(out, places, Trimmed(tags, l))
  {
    hide Trim, FirstsOf;
    out := [];
    ghost var all := Trimmed(tags, l);
    ghost var places: seq<nat> := [];
    NoFirsts(all);
    var seen: set<string> := {};
    for k := 0 to |tags|
      invariant forall t :: t in seen <==> t in out
      invariant forall t :: t in out <==> t != "" && exists i :: 0 <= i < k && Trim(tags[i], l) == t
      invariant forall i, j :: 0 <= i < j < |out| ==> out[i] != out[j]
      invariant FirstsOf(out, places, all) && forall i :: 0 <= i < |places| ==> places[i] < k
    {
      var t := Trim(tags[k], l);
      if t == "" || t in seen {
        continue;
      }
      FirstsMore(out, places, all, k);
      seen := seen + {t};
      out, places := out + [t], places + [k];
    }
  }

  lemma NoneUsable(l: Language)
    ensures Usable([], l) == []
  {
  }

  /** A row holds an input under its id, but for the tags, which were cleaned. */
  ghost predicate Saves(input: Rule, id: int, row: Rule, l: Language) {
    && row == input.(id := id, addTags := row.addTags)
    && (forall t :: t in row.addTags <==> t != "" && exists i :: 0 <= i < |input.addTags| && Trim(input.addTags[i], l) == t)
    && (exists places :: FirstsOf(row.addTags, places, Trimmed(input.addTags, l)))
  }

  lemma {:induction false} AboveOrAll(all: seq<Rule>, id: int)
    ensures (forall i :: 0 <= i < |all| ==> all[i].id != id) ==> Above(all, id) == all
    ensures |Above(all, id)| <= |all| && Above(all, id) == all[..|Above(all, id)|]
  {
    if all != [] {
      AboveOrAll(all[1..], id);
      assert all == [all[0]] + all[1..];
      assert (forall i :: 0 <= i < |all| ==> all[i].id != id) ==>
          forall i :: 0 <= i < |all| - 1 ==> all[1..][i].id != id;
    }
  }

  /** The first rule above that matches, and whether there is one. */
  lemma AboveHits(rules: seq<Rule>, above: seq<Rule>, id: int, t: Txn, v: View)
    requires above == Above(Usable(rules, v.l), id)
    ensures First(above, SubjectOf(t, v), v.l).None? <==> NoneHits(above, t, v)
  {
    hide Matches, Compiles, SubjectOf;
    var all := Usable(rules, v.l);
    AboveOrAll(all, id);
    UsableHits(rules, t, v);
    assert forall i :: 0 <= i < |above| ==> above[i] == all[i];
  }

  class Service {
    var rules: seq<Rule>          // in match order
    var next: int
    var txns: seq<Txn>            // by id
    var tags: set<string>         // the wallet's tag names
    const payees: map<int, string>
    const language: Language

    ghost predicate Valid()
      reads this
    {
      && (forall i :: 0 <= i < |rules| ==> rules[i].id < next)
      && (forall i, j :: 0 <= i < j < |rules| ==> rules[i].id != rules[j].id)
    }

    function Look(): View {
      View(payees, language)
    }

    /** Each rule with how many transactions it decides and how many it reaches. */
    method List() returns (counts: seq<Counts>)
      ensures |counts| == |rules|
      ensures forall i :: 0 <= i < |rules| ==>
                counts[i] == Counts(Count(txns, Deciding(rules, i, Look())), Count(txns, Reaching(rules[i], Look())))
    {
      var v := Look();
      var matches, reach := new nat[|rules|](_ => 0), new nat[|rules|](_ => 0);
      forall i | 0 <= i < |rules|
        ensures Counted(rules, v, txns, 0, i, 0, 0)
      {
        CountedNone(rules, v, txns, i);
      }
      for k := 0 to |txns|
        invariant forall i :: 0 <= i < |rules| ==> Counted(rules, v, txns, k, i, matches[i], reach[i])
      {
        CountOne(rules, v, txns, k, matches, reach);
      }
      assert txns[..|txns|] == txns;
      counts := seq(matches.Length, i requires 0 <= i < matches.Length && reach.Length == matches.Length reads matches, reach =>
        Counts(matches[i], reach[i]));
    }

    /** A usable rule with references of the wallet goes last. */
    method Create(input: Rule, refsOk: bool) returns (r: Result<int>)
      requires Valid()
      modifies this`rules, this`next, this`tags
      ensures Valid()
      ensures if !Compiles(input, language) then r == Err(Invalid)
              else if !refsOk then r == Err(BadReference)
              else r == Ok(old(next))
      ensures r.Err? ==> rules == old(rules) && next == old(next) && tags == old(tags)
      ensures r.Ok? ==> |rules| == |old(rules)| + 1 && rules == old(rules) + [rules[|old(rules)|]]
                        && Saves(input, r.value, rules[|old(rules)|], language)
                        && tags == old(tags) + TagSet(rules[|old(rules)|])
    {
      hide Compiles;
      if !Compiles(input, language) {
        return Err(Invalid);
      }
      if !refsOk {
        return Err(BadReference);
      }
      var names := CleanTags(input.addTags, language);
      var id := next;
      var row := input.(id := id, addTags := names);
      rules, next := rules + [row], id + 1;
      tags := tags + TagSet(row);
      r := Ok(id);
    }

    /** The rule keeps its id and its place. */
    method Update(id: int, input: Rule, refsOk: bool) returns (r: Result<()>)
      requires Valid()
      modifies this`rules, this`tags
      ensures Valid()
      ensures if !Compiles(input, language) then r == Err(Invalid)
              else if !refsOk then r == Err(BadReference)
              else if forall i :: 0 <= i < |old(rules)| ==> old(rules)[i].id != id then r == Err(NotFound)
              else r == Ok(())
      ensures r.Err? ==> rules == old(rules) && tags == old(tags)
      ensures r.Ok? ==>
                exists k :: 0 <= k < |old(rules)| && old(rules)[k].id == id
                            && |rules| == |old(rules)| && rules == old(rules)[k := rules[k]]
                            && Saves(input, id, rules[k], language) && tags == old(tags) + TagSet(rules[k])
    {
      hide Compiles;
      if !Compiles(input, language) {
        return Err(Invalid);
      }
      if !refsOk {
        return Err(BadReference);
      }
      var k := 0;
      while k < |rules| && rules[k].id != id
        invariant 0 <= k <= |rules| && forall i :: 0 <= i < k ==> rules[i].id != id
      {
        k := k + 1;
      }
      if k == |rules| {
        return Err(NotFound);
      }
      var names := CleanTags(input.addTags, language);
      var row := input.(id := id, addTags := names);
      rules := rules[k := row];
      tags := tags + TagSet(row);
      r := Ok(());
    }

    /** What a candidate would match, among the transactions, with the rules above it; nothing is changed. */
    method Test(exceptId: int, input: Rule, latest: int) returns (r: Result<TestResult>)
      ensures if !Compiles(input, language) then r == Err(Invalid)
              else
                var above := Above(Usable(rules, language), exceptId);
                && r.Ok?
                && r.value.count == Count(txns, Reaching(input, Look()))
                && r.value.taken == Count(txns, Taking(input, above, Look()))
                && r.value.withoutCategory == Count(txns, Uncategorised(input, above, Look()))
                && AreLatest(r.value.latest, Among(txns, Reaching(input, Look())), latest)
    {
      hide Compiles, Matches, SubjectOf, Usable, First, StableSort.InOrder, StableSort.Reordered, StableSort.Orders, Among;
      if !Compiles(input, language) {
        return Err(Invalid);
      }
      var v := Look();
      var all := UsableRules();
      var above := all;
      for i := 0 to |all|
        invariant above == all && forall j :: 0 <= j < i ==> all[j].id != exceptId
      {
        if all[i].id == exceptId {
          AboveIs(all, exceptId, i);
          above := all[..i];
          break;
        }
      }
      AboveOrAll(all, exceptId);
      var count, taken, without := 0, 0, 0;
      var hits: seq<Txn> := [];
      NoneAmong(Reaching(input, v));
      assert txns[..0] == [];
      for k := 0 to |txns|
        invariant count == Count(txns[..k], Reaching(input, v))
        invariant taken == Count(txns[..k], Taking(input, above, v))
        invariant without == Count(txns[..k], Uncategorised(input, above, v))
        invariant hits == Among(txns[..k], Reaching(input, v))
      {
        AmongStep(txns, k, Reaching(input, v));
        CountStep(txns, k, Reaching(input, v));
        CountStep(txns, k, Taking(input, above, v));
        CountStep(txns, k, Uncategorised(input, above, v));
        var t := txns[k];
        var subj := SubjectOf(t, v);
        AboveHits(rules, above, exceptId, t, v);
        if !Matches(input, subj, language) {
          continue;
        }
        count := count + 1;
        var first := FirstMatch(above, subj, language);
        if first.Some? {
          taken := taken + 1;
        } else if t.category.None? {
          without := without + 1;
        }
        hits := hits + [t];
      }
      assert txns[..|txns|] == txns;
      NewerOrders();
      var sorted := StableSort.Sort(hits, Newer);
      assert AreLatest(Cut(sorted, latest), hits, latest);
      if latest > 0 && |sorted| > latest {
        sorted := sorted[..latest];
      }
      r := Ok(TestResult(count, taken, without, sorted));
    }

    method UsableRules() returns (out: seq<Rule>)
      ensures out == Usable(rules, language)
    {
      hide Compiles, Usable;
      out := [];
      NoneUsable(language);
      for i := 0 to |rules|
        invariant out == Usable(rules[..i], language)
      {
        UsableStep(rules, i, language);
        if !Compiles(rules[i], language) {
          continue;
        }
        out := out + [rules[i]];
      }
      assert rules[..|rules|] == rules;
    }

    /** Applies to each transaction in scope the first usable rule that matches it. */
    method ApplyToExisting(scope: Scope) returns (changed: nat)
      modifies this`txns, this`tags
      ensures txns == ApplyAll(rules, old(txns), Look(), scope)
      ensures changed == Count(old(txns), Touching(rules, Look(), scope))
      ensures tags == old(tags) + Adding(rules, old(txns), Look(), scope)
    {
      hide Done, ApplyAll, Usable, Count, Adding, Touching, ApplyTo, AddedTo;
      var v := Look();
      changed := 0;
      var usable := UsableRules();
      var rows := txns;
      ghost var had := tags;
      NothingDone(rules, rows, v, scope, had);
      for k := 0 to |rows|
        invariant |txns| == |rows| && Done(rules, rows, k, v, scope, txns, changed, had, tags)
      {
        var touched, after, added := ApplyRow(rules, usable, rows[k], v, scope);
        OneDone(rules, rows, k, v, scope, txns, changed, had, tags);
        txns := txns[k := after];
        tags := tags + added;
        if touched {
          changed := changed + 1;
        }
      }
      AllDone(rules, rows, v, scope, txns, changed, had, tags);
    }
  }

  /** The first k rows have been applied to. */
  ghost predicate Done(rules: seq<Rule>, rows: seq<Txn>, k: nat, v: View, scope: Scope, now: seq<Txn>, changed: nat,
                       had: set<string>, tags: set<string>)
  {
    && |now| == |rows| && k <= |rows|
    && (forall i :: 0 <= i < k ==> now[i] == ApplyTo(rules, rows[i], v, scope))
    && (forall i :: k <= i < |rows| ==> now[i] == rows[i])
    && changed == Count(rows[..k], Touching(rules, v, scope))
    && tags == had + Adding(rules, rows[..k], v, scope)
  }

  lemma NothingDone(rules: seq<Rule>, rows: seq<Txn>, v: View, scope: Scope, had: set<string>)
    ensures Done(rules, rows, 0, v, scope, rows, 0, had, had)
  {
    assert rows[..0] == [];
  }

  lemma OneDone(rules: seq<Rule>, rows: seq<Txn>, k: nat, v: View, scope: Scope, now: seq<Txn>, changed: nat,
                had: set<string>, tags: set<string>)
    requires k < |rows| && Done(rules, rows, k, v, scope, now, changed, had, tags)
    ensures |now| == |rows|
    ensures Done(rules, rows, k + 1, v, scope, now[k := ApplyTo(rules, rows[k], v, scope)],
                 changed + (if Touching(rules, v, scope)(rows[k]) then 1 else 0), had,
                 tags + AddedTo(rules, rows[k], v, scope))
  {
    hide ApplyTo, Touching, Count, Adding, AddedTo;
    CountStep(rows, k, Touching(rules, v, scope));
    AddingStep(rules, rows, k, v, scope);
  }

  lemma AllDone(rules: seq<Rule>, rows: seq<Txn>, v: View, scope: Scope, now: seq<Txn>, changed: nat,
                had: set<string>, tags: set<string>)
    requires Done(rules, rows, |rows|, v, scope, now, changed, had, tags)
    ensures now == ApplyAll(rules, rows, v, scope) && changed == Count(rows, Touching(rules, v, scope))
    ensures tags == had + Adding(rules, rows, v, scope)
  {
    hide ApplyTo, Touching, Count, Adding;
    assert rows[..|rows|] == rows;
  }

  /** What a call makes of one transaction, whether it was touched, and the tags it gets. */
  method ApplyRow(ghost rules: seq<Rule>, usable: seq<Rule>, t: Txn, v: View, scope: Scope)
    returns (touched: bool, after: Txn, added: set<string>)
    requires usable == Usable(rules, v.l)
    ensures after == ApplyTo(rules, t, v, scope) && touched == Touching(rules, v, scope)(t)
    ensures added == AddedTo(rules, t, v, scope)
  {
    hide Usable, SubjectOf, First, Applied, Touched, TagSet, Matches;
    touched, after, added := false, t, {};
    if scope.account.Some? && t.account != scope.account.value {
      return;
    }
    var first := FirstMatch(usable, SubjectOf(t, v), v.l);
    if first.None? || (scope.rule.Some? && first.value.id != scope.rule.value) {
      return;
    }
    touched, after, added := ApplyRule(first.value, t, scope.onlyFillEmpty);
  }

  /** The rule's fields set one by one, then the tags that are missing. */
  method ApplyRule(r: Rule, t: Txn, onlyFillEmpty: bool) returns (touched: bool, after: Txn, added: set<string>)
    ensures after == Applied(r, t, onlyFillEmpty) && touched == Touched(r, t, onlyFillEmpty)
    ensures added == TagSet(r) - t.tags
  {
    hide TagSet;
    touched, after := false, t;
    if r.setPayee.Some? && (!onlyFillEmpty || t.payee.None?) {
      after, touched := after.(payee := r.setPayee), true;
    }
    if r.setCategory.Some? && (!onlyFillEmpty || t.category.None?) {
      after, touched := after.(category := r.setCategory), true;
    }
    if r.setMode.Some? && (!onlyFillEmpty || t.mode == 0) {
      after, touched := after.(mode := r.setMode.value), true;
    }
    if r.setInfo.Some? && (!onlyFillEmpty || t.info == "") {
      after, touched := after.(info := r.setInfo.value), true;
    }
    added := MissingTags(r, t.tags);
    after := after.(tags := after.tags + added);
    touched := touched || added != {};
  }

  method MissingTags(r: Rule, have: set<string>) returns (added: set<string>)
    ensures added == TagSet(r) - have && have + added == have + TagSet(r)
  {
    added := {};
    for i := 0 to |r.addTags|
      invariant forall name :: name in added <==> name in r.addTags[..i] && name !in have
    {
      if r.addTags[i] in have {
        continue;
      }
      added := added + {r.addTags[i]};
    }
    AddedAreTheMissing(r, have, added);
  }

  lemma AddedAreTheMissing(r: Rule, had: set<string>, added: set<string>)
    requires forall name :: name in added <==> name in r.addTags[..|r.addTags|] && name !in had
    ensures added == TagSet(r) - had && had + added == had + TagSet(r)
  {
    assert r.addTags[..|r.addTags|] == r.addTags;
  }

  /** The names a call adds to a transaction. */
  function AddedTo(rules: seq<Rule>, t: Txn, v: View, scope: Scope): set<string> {
    match Chosen(rules, t, v, scope)
    case None => {}
    case Some(r) => TagSet(r) - t.tags
  }

  /** The names a call adds to transactions, which the wallet gets as tags if it does not have them. */
  function Adding(rules: seq<Rule>, ts: seq<Txn>, v: View, scope: Scope): set<string> {
    if ts == [] then {} else Adding(rules, ts[..|ts| - 1], v, scope) + AddedTo(rules, ts[|ts| - 1], v, scope)
  }

  lemma AddingStep(rules: seq<Rule>, ts: seq<Txn>, k: nat, v: View, scope: Scope)
    requires k < |ts|
    ensures Adding(rules, ts[..k + 1], v, scope) == Adding(rules, ts[..k], v, scope) + AddedTo(rules, ts[k], v, scope)
  {
    hide AddedTo;
    assert ts[..k + 1][..k] == ts[..k];
  }

  // ----- the dry run agrees with the real thing -----

  lemma SavedMatchesTheSame(input: Rule, row: Rule, v: View)
    requires Saves(input, row.id, row, v.l)
    ensures forall t :: Hits(row, t, v) <==> Hits(input, t, v)
  {
    assert row == input.(id := row.id, addTags := row.addTags);
  }

  function Free(r: Rule, above: seq<Rule>, v: View): Txn -> bool {
    (t: Txn) => Hits(r, t, v) && NoneHits(above, t, v)
  }

  lemma FreeIsTheRest(r: Rule, above: seq<Rule>, ts: seq<Txn>, v: View)
    ensures Count(ts, Reaching(r, v)) == Count(ts, Taking(r, above, v)) + Count(ts, Free(r, above, v))
  {
    hide Hits, NoneHits, Count;
    CountSplit(ts, Reaching(r, v), Taking(r, above, v), Free(r, above, v));
  }

  /** For a new rule, which goes last: what the dry run counts is what the list shows once it is saved. */
  lemma DryRunOfANewRule(rules: seq<Rule>, input: Rule, row: Rule, exceptId: int, ts: seq<Txn>, v: View)
    requires Saves(input, row.id, row, v.l) && forall i :: 0 <= i < |rules| ==> rules[i].id != exceptId
    ensures var above, saved := Above(Usable(rules, v.l), exceptId), rules + [row];
            && Count(ts, Reaching(saved[|rules|], v)) == Count(ts, Reaching(input, v))
            && Count(ts, Deciding(saved, |rules|, v)) == Count(ts, Reaching(input, v)) - Count(ts, Taking(input, above, v))
  {
    hide Hits, NoneHits, Count, Usable, Saves;
    var above, saved := Above(Usable(rules, v.l), exceptId), rules + [row];
    SavedMatchesTheSame(input, row, v);
    CountSame(ts, Reaching(row, v), Reaching(input, v));
    FreeIsTheRest(input, above, ts, v);
    UsableIds(rules, v.l);
    AboveOrAll(Usable(rules, v.l), exceptId);
    assert saved[..|rules|] == rules;
    forall t
      ensures Free(input, above, v)(t) <==> Deciding(saved, |rules|, v)(t)
    {
      UsableHits(rules, t, v);
    }
    CountSame(ts, Free(input, above, v), Deciding(saved, |rules|, v));
  }

  lemma {:induction false} UsableIds(rules: seq<Rule>, l: Language)
    ensures forall i :: 0 <= i < |Usable(rules, l)| ==> Usable(rules, l)[i] in rules
  {
    hide Compiles;
    if rules != [] {
      UsableIds(rules[..|rules| - 1], l);
    }
  }

  lemma {:induction false} UsableConcat(a: seq<Rule>, b: seq<Rule>, l: Language)
    ensures Usable(a + b, l) == Usable(a, l) + Usable(b, l)
  {
    hide Compiles;
    if b == [] {
      assert a + b == a;
    } else {
      assert (a + b)[..|a + b| - 1] == a + b[..|b| - 1];
      UsableConcat(a, b[..|b| - 1], l);
    }
  }

  lemma AboveBetween(x: seq<Rule>, r: Rule, y: seq<Rule>)
    requires forall i :: 0 <= i < |x| ==> x[i].id != r.id
    ensures Above(x + ([r] + y), r.id) == x
  {
    var all := x + ([r] + y);
    assert all[|x|] == r && all[..|x|] == x;
    AboveIs(all, r.id, |x|);
  }

  lemma AboveWithout(x: seq<Rule>, y: seq<Rule>, id: int)
    requires forall i :: 0 <= i < |x| ==> x[i].id != id
    requires forall i :: 0 <= i < |y| ==> y[i].id != id
    ensures Above(x + ([] + y), id) == x + ([] + y)
  {
    hide Above;
    AboveOrAll(x + ([] + y), id);
  }

  lemma UsableElsewhere(part: seq<Rule>, id: int, l: Language)
    requires forall r :: r in part ==> r.id != id
    ensures forall i :: 0 <= i < |Usable(part, l)| ==> Usable(part, l)[i].id != id
  {
    hide Usable;
    UsableIds(part, l);
  }

  lemma Around(rules: seq<Rule>, k: nat)
    requires k < |rules| && forall i, j :: 0 <= i < j < |rules| ==> rules[i].id != rules[j].id
    ensures rules == rules[..k] + ([rules[k]] + rules[k + 1..])
    ensures forall r :: r in rules[..k] || r in rules[k + 1..] ==> r.id != rules[k].id
  {
  }

  /** Where an edited rule stands among the usable ones; nowhere when it was not usable. */
  lemma AboveAnEdit(rules: seq<Rule>, k: nat, l: Language)
    requires k < |rules| && forall i, j :: 0 <= i < j < |rules| ==> rules[i].id != rules[j].id
    ensures Above(Usable(rules, l), rules[k].id) == if Compiles(rules[k], l) then Usable(rules[..k], l) else Usable(rules, l)
  {
    hide *;
    var before, behind := rules[..k], rules[k + 1..];
    Around(rules, k);
    UsableConcat(before, [rules[k]] + behind, l);
    UsableConcat([rules[k]], behind, l);
    OneUsable(rules[k], l);
    UsableElsewhere(before, rules[k].id, l);
    UsableElsewhere(behind, rules[k].id, l);
    if Compiles(rules[k], l) {
      AboveBetween(Usable(before, l), rules[k], Usable(behind, l));
    } else {
      AboveWithout(Usable(before, l), Usable(behind, l), rules[k].id);
    }
  }

  lemma OneUsable(r: Rule, l: Language)
    ensures Usable([r], l) == if Compiles(r, l) then [r] else []
  {
    hide Compiles;
    assert [r][..0] == [];
  }

  /** A transaction a rule below takes, that the edited rule would decide. */
  function Slipping(rules: seq<Rule>, k: nat, input: Rule, v: View): Txn -> bool
    requires k < |rules|
  {
    (t: Txn) => Hits(input, t, v) && NoneHits(rules[..k], t, v) && !NoneHits(rules[k + 1..], t, v)
  }

  lemma NoneHitsAround(rules: seq<Rule>, k: nat, t: Txn, v: View)
    requires k < |rules| && !Compiles(rules[k], v.l)
    ensures NoneHits(rules, t, v) <==> NoneHits(rules[..k], t, v) && NoneHits(rules[k + 1..], t, v)
  {
    hide Compiles, Matches;
    var a, b := rules[..k], rules[k + 1..];
    assert forall i :: 0 <= i < k ==> a[i] == rules[i];
    assert forall i :: 0 <= i < |b| ==> b[i] == rules[i + k + 1];
    assert forall i :: k < i < |rules| ==> rules[i] == b[i - k - 1];
  }

  /**
   * For an edited rule, the dry run's count is always the reach shown once it is saved; and its count less what is taken
   * is what the rule then decides exactly when the stored rule was usable, or no transaction it would decide is matched by
   * a rule below it. (A stored rule that is not usable is not found among the rules, and all others count as above it.)
   */
  lemma DryRunOfAnEdit(rules: seq<Rule>, k: nat, input: Rule, row: Rule, ts: seq<Txn>, v: View)
    requires k < |rules| && forall i, j :: 0 <= i < j < |rules| ==> rules[i].id != rules[j].id
    requires Saves(input, row.id, row, v.l)
    ensures var above, saved := Above(Usable(rules, v.l), rules[k].id), rules[k := row];
            && Count(ts, Reaching(saved[k], v)) == Count(ts, Reaching(input, v))
            && (Count(ts, Deciding(saved, k, v)) == Count(ts, Reaching(input, v)) - Count(ts, Taking(input, above, v))
                <==> Compiles(rules[k], v.l) || forall t :: t in ts ==> !Slipping(rules, k, input, v)(t))
  {
    hide Hits, NoneHits, Count, Usable, Saves, Compiles, Above;
    var above, saved := Above(Usable(rules, v.l), rules[k].id), rules[k := row];
    SavedMatchesTheSame(input, row, v);
    CountSame(ts, Reaching(row, v), Reaching(input, v));
    FreeIsTheRest(input, above, ts, v);
    AboveAnEdit(rules, k, v.l);
    assert saved[..k] == rules[..k];
    if Compiles(rules[k], v.l) {
      forall t
        ensures Free(input, above, v)(t) <==> Deciding(saved, k, v)(t)
      {
        UsableHits(rules[..k], t, v);
      }
      CountSame(ts, Free(input, above, v), Deciding(saved, k, v));
    } else {
      forall t
        ensures Deciding(saved, k, v)(t) <==> Free(input, above, v)(t) || Slipping(rules, k, input, v)(t)
        ensures !(Free(input, above, v)(t) && Slipping(rules, k, input, v)(t))
      {
        UsableHits(rules, t, v);
        NoneHitsAround(rules, k, t, v);
      }
      CountSplit(ts, Deciding(saved, k, v), Free(input, above, v), Slipping(rules, k, input, v));
      CountNone(ts, Slipping(rules, k, input, v));
    }
  }

  // ----- filling only what is empty -----

  predicate Kept<T(==)>(before: Option<T>, after: Option<T>) {
    before.Some? ==> after == before
  }

  /** Nothing that was there is replaced or taken away. */
  lemma NothingIsOverwritten(rules: seq<Rule>, t: Txn, v: View, scope: Scope)
    requires scope.onlyFillEmpty
    ensures var after := ApplyTo(rules, t, v, scope);
            && Kept(t.payee, after.payee) && Kept(t.category, after.category)
            && (t.mode != 0 ==> after.mode == t.mode) && (t.info != "" ==> after.info == t.info)
            && t.tags <= after.tags
            && after == t.(payee := after.payee, category := after.category, mode := after.mode, info := after.info,
                           tags := after.tags)
  {
    hide Chosen;
  }

  /** Every tag some rule adds. */
  function AllTags(rules: seq<Rule>): set<string> {
    if rules == [] then {} else AllTags(rules[..|rules| - 1]) + TagSet(rules[|rules| - 1])
  }

  /** How much of a transaction the rules could still fill. */
  function Missing(rules: seq<Rule>, t: Txn): nat {
    (if t.payee.None? then 1 else 0) + (if t.category.None? then 1 else 0) + (if t.mode == 0 then 1 else 0)
    + (if t.info == "" then 1 else 0) + |AllTags(rules) - t.tags|
  }

  lemma {:induction false} TagsOfARule(rules: seq<Rule>, r: Rule)
    requires r in rules
    ensures TagSet(r) <= AllTags(rules)
  {
    var n := |rules| - 1;
    assert rules == rules[..n] + [rules[n]];
    if r != rules[n] {
      TagsOfARule(rules[..n], r);
    }
  }

  lemma ChosenIsARule(rules: seq<Rule>, t: Txn, v: View, scope: Scope)
    requires Chosen(rules, t, v, scope).Some?
    ensures Chosen(rules, t, v, scope).value in rules
  {
    hide Usable, Matches, SubjectOf;
    UsableIds(rules, v.l);
  }

  lemma FewerTagsMissing(all: set<string>, had: set<string>, added: set<string>)
    requires added <= all
    ensures |all - (had + added)| <= |all - had|
    ensures had + added != had ==> |all - (had + added)| < |all - had|
  {
    var less, more := all - (had + added), all - had;
    assert more == less + (added - had);
    assert |more| == |less| + |added - had|;
    if had + added != had {
      assert added - had != {};
    }
  }

  /** A call leaves a transaction as it is, or less of it is missing. */
  lemma LessIsMissing(rules: seq<Rule>, t: Txn, v: View, scope: Scope)
    requires scope.onlyFillEmpty
    ensures ApplyTo(rules, t, v, scope) == t || Missing(rules, ApplyTo(rules, t, v, scope)) < Missing(rules, t)
  {
    hide Chosen, AllTags, TagSet;
    if Chosen(rules, t, v, scope).Some? {
      var r := Chosen(rules, t, v, scope).value;
      ChosenIsARule(rules, t, v, scope);
      TagsOfARule(rules, r);
      FewerTagsMissing(AllTags(rules), t.tags, TagSet(r));
      AppliedFills(r, t, rules);
    }
  }

  lemma AppliedFills(r: Rule, t: Txn, rules: seq<Rule>)
    requires |AllTags(rules) - (t.tags + TagSet(r))| <= |AllTags(rules) - t.tags|
    requires t.tags + TagSet(r) != t.tags ==> |AllTags(rules) - (t.tags + TagSet(r))| < |AllTags(rules) - t.tags|
    ensures Applied(r, t, true) == t || Missing(rules, Applied(r, t, true)) < Missing(rules, t)
  {
    hide AllTags, TagSet;
    var after := Applied(r, t, true);
    if after.payee == t.payee && after.category == t.category && after.mode == t.mode && after.info == t.info && after.tags == t.tags {
      assert after == t;
    }
  }

  /** A number of calls, one after the other. */
  function Calls(rules: seq<Rule>, t: Txn, v: View, scope: Scope, n: nat): Txn {
    if n == 0 then t else ApplyTo(rules, Calls(rules, t, v, scope, n - 1), v, scope)
  }

  lemma {:induction false} MissingRunsOut(rules: seq<Rule>, t: Txn, v: View, scope: Scope, n: nat)
    requires scope.onlyFillEmpty
    ensures var u := Calls(rules, t, v, scope, n);
            ApplyTo(rules, u, v, scope) == u || Missing(rules, u) + n <= Missing(rules, t)
  {
    hide ApplyTo, Missing;
    if n > 0 {
      MissingRunsOut(rules, t, v, scope, n - 1);
      LessIsMissing(rules, Calls(rules, t, v, scope, n - 1), v, scope);
    }
  }

  function CallsOnAll(rules: seq<Rule>, ts: seq<Txn>, v: View, scope: Scope, n: nat): (r: seq<Txn>)
    ensures |r| == |ts|
  {
    if n == 0 then ts else ApplyAll(rules, CallsOnAll(rules, ts, v, scope, n - 1), v, scope)
  }

  lemma {:induction false} CallsOnEach(rules: seq<Rule>, ts: seq<Txn>, v: View, scope: Scope, n: nat, i: nat)
    requires i < |ts|
    ensures CallsOnAll(rules, ts, v, scope, n)[i] == Calls(rules, ts[i], v, scope, n)
  {
    hide ApplyTo;
    if n > 0 {
      CallsOnEach(rules, ts, v, scope, n - 1, i);
    }
  }

  /**
   * Filling only what is empty comes to rest: after four calls and one more for each tag the rules add, a further call
   * changes nothing, even though what a call fills may let another rule match in the next.
   */
  lemma FillingComesToRest(rules: seq<Rule>, ts: seq<Txn>, v: View, scope: Scope, n: nat)
    requires scope.onlyFillEmpty && n >= 4 + |AllTags(rules)|
    ensures var after := CallsOnAll(rules, ts, v, scope, n);
            ApplyAll(rules, after, v, scope) == after
  {
    hide ApplyTo, AllTags, Calls, CallsOnAll;
    var after := CallsOnAll(rules, ts, v, scope, n);
    forall i | 0 <= i < |ts|
      ensures ApplyTo(rules, after[i], v, scope) == after[i]
    {
      CallsOnEach(rules, ts, v, scope, n, i);
      MissingRunsOut(rules, ts[i], v, scope, n);
      AtMostMissing(rules, ts[i]);
      AtLeastMissing(rules, Calls(rules, ts[i], v, scope, n), v, scope);
    }
  }

  lemma AtMostMissing(rules: seq<Rule>, t: Txn)
    ensures Missing(rules, t) <= 4 + |AllTags(rules)|
  {
    hide AllTags;
    var all := AllTags(rules);
    assert all == (all - t.tags) + (all * t.tags);
  }

  /** With nothing missing there is nothing to do. */
  lemma AtLeastMissing(rules: seq<Rule>, t: Txn, v: View, scope: Scope)
    requires scope.onlyFillEmpty
    ensures Missing(rules, t) == 0 ==> ApplyTo(rules, t, v, scope) == t
  {
    hide ApplyTo, Missing;
    LessIsMissing(rules, t, v, scope);
  }

  // ----- what no rule decides -----

  datatype Tally = Tally(payee: int, name: string, total: nat, without: nat, categories: map<int, nat>)

  /** The transactions since a day that have a payee and are not split. */
  function Since(ts: seq<Txn>, day: int): (r: seq<Txn>)
    ensures forall t :: t in r ==> t.payee.Some?
  {
    if ts == [] then []
    else
      var t := ts[|ts| - 1];
      Since(ts[..|ts| - 1], day) + if t.date >= day && t.payee.Some? && !t.isSplit then [t] else []
  }

  function Left(rules: seq<Rule>, payee: int, v: View): Txn -> bool {
    (t: Txn) => NoneHits(rules, t, v) && t.payee == Some(payee)
  }

  function LeftWithout(rules: seq<Rule>, payee: int, v: View): Txn -> bool {
    (t: Txn) => NoneHits(rules, t, v) && t.payee == Some(payee) && t.category.None?
  }

  function LeftOn(rules: seq<Rule>, payee: int, category: int, v: View): Txn -> bool {
    (t: Txn) => NoneHits(rules, t, v) && t.payee == Some(payee) && t.category == Some(category)
  }

  /** The tally is of the payee's transactions no rule hits, and of no others. */
  ghost predicate IsTally(tally: Tally, rules: seq<Rule>, ts: seq<Txn>, v: View) {
    && tally.name == PayeeName(tally.payee, v)
    && tally.total == Count(ts, Left(rules, tally.payee, v))
    && tally.without == Count(ts, LeftWithout(rules, tally.payee, v))
    && (forall c :: c in tally.categories ==> tally.categories[c] == Count(ts, LeftOn(rules, tally.payee, c, v)))
    && (forall c :: c !in tally.categories ==> Count(ts, LeftOn(rules, tally.payee, c, v)) == 0)
  }

  /** One tally for each payee with such transactions. */
  ghost predicate Tallies(out: seq<Tally>, rules: seq<Rule>, ts: seq<Txn>, v: View) {
    && (forall i :: 0 <= i < |out| ==> IsTally(out[i], rules, ts, v) && out[i].total > 0)
    && (forall i, j :: 0 <= i < j < |out| ==> out[i].payee != out[j].payee)
    && (forall p :: Count(ts, Left(rules, p, v)) > 0 ==> exists i :: 0 <= i < |out| && out[i].payee == p)
  }

  /** The same, with each payee's place in the list. */
  ghost predicate AllTallied(out: seq<Tally>, at: map<int, int>, rules: seq<Rule>, ts: seq<Txn>, v: View) {
    && (forall i :: 0 <= i < |out| ==> IsTally(out[i], rules, ts, v) && out[i].total > 0)
    && (forall i :: 0 <= i < |out| ==> out[i].payee in at && at[out[i].payee] == i)
    && (forall p :: p in at ==> 0 <= at[p] < |out| && out[at[p]].payee == p)
    && (forall p :: p !in at ==> Count(ts, Left(rules, p, v)) == 0)
  }

  function Counted1(t: Tally, row: Txn): Tally {
    var one := t.(total := t.total + 1);
    if row.category.Some? then
      var c := row.category.value;
      one.(categories := one.categories[c := (if c in one.categories then one.categories[c] else 0) + 1])
    else one.(without := one.without + 1)
  }

  lemma TallyStep(t: Tally, rules: seq<Rule>, ts: seq<Txn>, k: nat, v: View)
    requires k < |ts| && IsTally(t, rules, ts[..k], v)
    ensures IsTally(if NoneHits(rules, ts[k], v) && ts[k].payee == Some(t.payee) then Counted1(t, ts[k]) else t,
                    rules, ts[..k + 1], v)
  {
    hide NoneHits, Count;
    CountStep(ts, k, Left(rules, t.payee, v));
    CountStep(ts, k, LeftWithout(rules, t.payee, v));
    forall c
      ensures Count(ts[..k + 1], LeftOn(rules, t.payee, c, v))
              == Count(ts[..k], LeftOn(rules, t.payee, c, v)) + if LeftOn(rules, t.payee, c, v)(ts[k]) then 1 else 0
    {
      CountStep(ts, k, LeftOn(rules, t.payee, c, v));
    }
  }

  /** Nothing of the payee is left, so its tally is empty. */
  lemma EmptyTally(payee: int, rules: seq<Rule>, ts: seq<Txn>, v: View)
    requires Count(ts, Left(rules, payee, v)) == 0
    ensures IsTally(Tally(payee, PayeeName(payee, v), 0, 0, map[]), rules, ts, v)
  {
    hide NoneHits, Count;
    CountNone(ts, Left(rules, payee, v));
    CountNone(ts, LeftWithout(rules, payee, v));
    forall c
      ensures Count(ts, LeftOn(rules, payee, c, v)) == 0
    {
      CountNone(ts, LeftOn(rules, payee, c, v));
    }
  }

  lemma OthersStep(out: seq<Tally>, at: map<int, int>, rules: seq<Rule>, ts: seq<Txn>, k: nat, v: View, payee: int)
    requires k < |ts| && AllTallied(out, at, rules, ts[..k], v) && ts[k].payee == Some(payee)
    ensures forall i :: 0 <= i < |out| && (NoneHits(rules, ts[k], v) ==> out[i].payee != payee) ==> IsTally(out[i], rules, ts[..k + 1], v)
    ensures forall p :: p !in at && (NoneHits(rules, ts[k], v) ==> p != payee) ==> Count(ts[..k + 1], Left(rules, p, v)) == 0
  {
    hide NoneHits, Count, IsTally;
    forall i | 0 <= i < |out| && (NoneHits(rules, ts[k], v) ==> out[i].payee != payee)
      ensures IsTally(out[i], rules, ts[..k + 1], v)
    {
      TallyStep(out[i], rules, ts, k, v);
    }
    forall p | p !in at && (NoneHits(rules, ts[k], v) ==> p != payee)
      ensures Count(ts[..k + 1], Left(rules, p, v)) == 0
    {
      CountStep(ts, k, Left(rules, p, v));
    }
  }

  /** The row's tally, new or not, counts it. */
  lemma RowTallied(out: seq<Tally>, at: map<int, int>, rules: seq<Rule>, ts: seq<Txn>, k: nat, v: View, payee: int,
                   out2: seq<Tally>, at2: map<int, int>)
    requires k < |ts| && AllTallied(out, at, rules, ts[..k], v)
    requires ts[k].payee == Some(payee) && NoneHits(rules, ts[k], v)
    requires if payee in at then at2 == at && out2 == out[at[payee] := Counted1(out[at[payee]], ts[k])]
             else at2 == at[payee := |out|] && out2 == out + [Counted1(Tally(payee, PayeeName(payee, v), 0, 0, map[]), ts[k])]
    ensures AllTallied(out2, at2, rules, ts[..k + 1], v)
  {
    hide NoneHits, Count, IsTally;
    OthersStep(out, at, rules, ts, k, v, payee);
    if payee in at {
      TallyStep(out[at[payee]], rules, ts, k, v);
    } else {
      EmptyTally(payee, rules, ts[..k], v);
      TallyStep(Tally(payee, PayeeName(payee, v), 0, 0, map[]), rules, ts, k, v);
    }
  }

  lemma SkippedTallied(out: seq<Tally>, at: map<int, int>, rules: seq<Rule>, ts: seq<Txn>, k: nat, v: View, payee: int)
    requires k < |ts| && AllTallied(out, at, rules, ts[..k], v)
    requires ts[k].payee == Some(payee) && !NoneHits(rules, ts[k], v)
    ensures AllTallied(out, at, rules, ts[..k + 1], v)
  {
    hide NoneHits, Count, IsTally;
    OthersStep(out, at, rules, ts, k, v, payee);
  }

  /** Payee by payee, the transactions since a day that no rule decides. */
  method Unruled(rules: seq<Rule>, ts: seq<Txn>, since: int, v: View) returns (out: seq<Tally>)
    ensures Tallies(out, rules, Since(ts, since), v)
    ensures SumTotals(out) == Count(Since(ts, since), Undecided(rules, v))
  {
    hide AllTallied, Tallies, NoneHits, Usable, First, SubjectOf;
    var usable := [];
    NoneUsable(v.l);
    for i := 0 to |rules|
      invariant usable == Usable(rules[..i], v.l)
    {
      UsableStep(rules, i, v.l);
      if Compiles(rules[i], v.l) {
        usable := usable + [rules[i]];
      }
    }
    assert rules[..|rules|] == rules;
    var rows := Since(ts, since);
    out := [];
    var index: map<int, int> := map[];
    NothingTallied(rules, v);
    assert rows[..0] == [];
    for k := 0 to |rows|
      invariant AllTallied(out, index, rules, rows[..k], v)
    {
      var r := rows[k];
      var payee := r.payee.value;
      UsableHits(rules, r, v);
      var first := FirstMatch(usable, SubjectOf(r, v), v.l);
      if first.Some? {
        SkippedTallied(out, index, rules, rows, k, v, payee);
        continue;
      }
      IndexInRange(out, index, rules, rows[..k], v);
      ghost var out1, index1 := out, index;
      if payee !in index {
        index := index[payee := |out|];
        out := out + [Tally(payee, PayeeName(payee, v), 0, 0, map[])];
      }
      var i := index[payee];
      out := out[i := Counted1(out[i], r)];
      RowTallied(out1, index1, rules, rows, k, v, payee, out, index);
    }
    assert rows[..|rows|] == rows;
    OneForEachPayee(out, index, rules, rows, v);
    TalliesAreTheUndecided(out, rules, rows, v);
  }

  lemma OneForEachPayee(out: seq<Tally>, at: map<int, int>, rules: seq<Rule>, ts: seq<Txn>, v: View)
    requires AllTallied(out, at, rules, ts, v)
    ensures Tallies(out, rules, ts, v)
  {
    hide IsTally, Count;
  }

  lemma NothingTallied(rules: seq<Rule>, v: View)
    ensures AllTallied([], map[], rules, [], v)
  {
  }

  lemma IndexInRange(out: seq<Tally>, at: map<int, int>, rules: seq<Rule>, ts: seq<Txn>, v: View)
    requires AllTallied(out, at, rules, ts, v)
    ensures forall p :: p in at ==> 0 <= at[p] < |out|
  {
  }

  function SumTotals(out: seq<Tally>): nat {
    if out == [] then 0 else SumTotals(out[..|out| - 1]) + out[|out| - 1].total
  }

  /** The transactions left to one of the first tallies' payees. */
  function LeftToSome(out: seq<Tally>, rules: seq<Rule>, v: View): Txn -> bool {
    (t: Txn) => NoneHits(rules, t, v) && exists i :: 0 <= i < |out| && t.payee == Some(out[i].payee)
  }

  lemma {:induction false} TotalsUpTo(out: seq<Tally>, rules: seq<Rule>, ts: seq<Txn>, v: View)
    requires forall i :: 0 <= i < |out| ==> IsTally(out[i], rules, ts, v)
    requires forall i, j :: 0 <= i < j < |out| ==> out[i].payee != out[j].payee
    ensures SumTotals(out) == Count(ts, LeftToSome(out, rules, v))
  {
    hide NoneHits, Count;
    if out == [] {
      CountNone(ts, LeftToSome(out, rules, v));
    } else {
      var n := |out| - 1;
      TotalsUpTo(out[..n], rules, ts, v);
      forall t
        ensures LeftToSome(out, rules, v)(t) <==> LeftToSome(out[..n], rules, v)(t) || Left(rules, out[n].payee, v)(t)
        ensures !(LeftToSome(out[..n], rules, v)(t) && Left(rules, out[n].payee, v)(t))
      {
        if i :| 0 <= i < n && t.payee == Some(out[i].payee) {
          assert out[..n][i].payee == out[i].payee;
        }
      }
      CountSplit(ts, LeftToSome(out, rules, v), LeftToSome(out[..n], rules, v), Left(rules, out[n].payee, v));
    }
  }

  /** The tallies count each undecided transaction once, on its payee, and no other. */
  lemma TalliesAreTheUndecided(out: seq<Tally>, rules: seq<Rule>, ts: seq<Txn>, v: View)
    requires Tallies(out, rules, ts, v) && forall t :: t in ts ==> t.payee.Some?
    ensures SumTotals(out) == Count(ts, Undecided(rules, v))
  {
    hide NoneHits, Count;
    TotalsUpTo(out, rules, ts, v);
    forall t | t in ts
      ensures LeftToSome(out, rules, v)(t) <==> Undecided(rules, v)(t)
    {
      if NoneHits(rules, t, v) {
        CountNone(ts, Left(rules, t.payee.value, v));
        assert Count(ts, Left(rules, t.payee.value, v)) > 0;
        var i :| 0 <= i < |out| && out[i].payee == t.payee.value;
      }
    }
    CountSame(ts, LeftToSome(out, rules, v), Undecided(rules, v));
  }
}
