/** What listing, testing and applying rules come to, said of the rows themselves (server/internal/assignment/service.go). */
module RuleEffects {
  import opened Options
  import opened RuleEngine
  import opened AssignmentService

  /** What a rule reads of a transaction. */
  function Read(t: Txn, v: View): Subject {
    Subject(t.memo, if t.payee.Some? && t.payee.value in v.payees then v.payees[t.payee.value] else "", t.tags, t.account)
  }

  /** The rule can be used and matches the transaction. */
  predicate Takes(r: Rule, t: Txn, v: View) {
    Compiles(r, v.l) && Matches(r, Read(t, v), v.l)
  }

  /** The first of the rules that can be used and matches. */
  predicate TakesFirst(rules: seq<Rule>, k: nat, t: Txn, v: View) {
    k < |rules| && Takes(rules[k], t, v) && forall j :: 0 <= j < k ==> !Takes(rules[j], t, v)
  }

  predicate NobodyTakes(rules: seq<Rule>, t: Txn, v: View) {
    forall j :: 0 <= j < |rules| ==> !Takes(rules[j], t, v)
  }

  predicate InScope(t: Txn, r: Rule, scope: Scope) {
    (scope.account == None || scope.account == Some(t.account)) && (scope.rule == None || scope.rule == Some(r.id))
  }

  lemma TakingIsHitting(t: Txn, v: View)
    ensures SubjectOf(t, v) == Read(t, v)
    ensures forall r :: Takes(r, t, v) <==> Hits(r, t, v)
  {
  }

  // ----- which rule is applied -----

  lemma {:induction false} FirstUsable(rules: seq<Rule>, k: nat, t: Txn, v: View)
    requires TakesFirst(rules, k, t, v)
    ensures var usable := Usable(rules, v.l);
            var first := First(usable, SubjectOf(t, v), v.l);
            first.Some? && usable[first.value] == rules[k]
  {
    hide Matches, Compiles, Usable;
    TakingIsHitting(t, v);
    var front, last := rules[..|rules| - 1], rules[|rules| - 1];
    UsableStep(rules, |rules| - 1, v.l);
    assert rules[..|rules|] == rules;
    var before, all := Usable(front, v.l), Usable(rules, v.l);
    UsableHits(front, t, v);
    if k == |rules| - 1 {
      assert NoneHits(front, t, v);
      assert all == before + [last];
      FirstOfMore(before, last, SubjectOf(t, v), v.l);
    } else {
      FirstUsable(front, k, t, v);
      if Compiles(last, v.l) {
        assert all == before + [last];
        FirstOfMore(before, last, SubjectOf(t, v), v.l);
      } else {
        assert all == before;
      }
    }
  }

  lemma FirstOfMore(rules: seq<Rule>, last: Rule, s: Subject, l: Language)
    ensures First(rules + [last], s, l) == if First(rules, s, l).Some? then First(rules, s, l)
                                           else if Matches(last, s, l) then Some(|rules|) else None
  {
    assert (rules + [last])[..|rules|] == rules;
  }

  lemma NoneUsableTakes(rules: seq<Rule>, t: Txn, v: View)
    requires NobodyTakes(rules, t, v)
    ensures First(Usable(rules, v.l), SubjectOf(t, v), v.l).None?
  {
    hide Matches, Compiles, Usable;
    TakingIsHitting(t, v);
    UsableHits(rules, t, v);
  }

  lemma ChosenIsFirst(rules: seq<Rule>, k: nat, t: Txn, v: View, scope: Scope)
    requires TakesFirst(rules, k, t, v)
    ensures Chosen(rules, t, v, scope) == if InScope(t, rules[k], scope) then Some(rules[k]) else None
  {
    hide Usable, Takes, First;
    FirstUsable(rules, k, t, v);
  }

  lemma NobodyIsChosen(rules: seq<Rule>, t: Txn, v: View, scope: Scope)
    requires NobodyTakes(rules, t, v)
    ensures Chosen(rules, t, v, scope) == None
  {
    hide Usable, Takes, First;
    NoneUsableTakes(rules, t, v);
  }

  // ----- applying -----

  /**
   * A row after a call, field by field: each field the rule sets is the rule's when it was empty or filling is not
   * limited to empty fields, else what it was; the rule's tags are there beside the old ones.
   */
  lemma AppliedFieldByField(rules: seq<Rule>, ts: seq<Txn>, i: nat, k: nat, v: View, scope: Scope)
    requires i < |ts| && TakesFirst(rules, k, ts[i], v) && InScope(ts[i], rules[k], scope)
    ensures |ApplyAll(rules, ts, v, scope)| == |ts|
    ensures var t, r, after, all := ts[i], rules[k], ApplyAll(rules, ts, v, scope)[i], !scope.onlyFillEmpty;
            && after.payee == (if r.setPayee != None && (all || t.payee == None) then r.setPayee else t.payee)
            && after.category == (if r.setCategory != None && (all || t.category == None) then r.setCategory else t.category)
            && (if r.setMode != None && (all || t.mode == 0) then Some(after.mode) == r.setMode else after.mode == t.mode)
            && (if r.setInfo != None && (all || t.info == "") then Some(after.info) == r.setInfo else after.info == t.info)
            && (forall name :: name in after.tags <==> name in t.tags || name in r.addTags)
            && after.id == t.id && after.account == t.account && after.date == t.date && after.memo == t.memo
            && after.isSplit == t.isSplit
  {
    hide TakesFirst, Takes;
    ChosenIsFirst(rules, k, ts[i], v, scope);
  }

  /** A row no rule takes, or one out of scope, stays as it is. */
  lemma OthersStay(rules: seq<Rule>, ts: seq<Txn>, i: nat, v: View, scope: Scope)
    requires i < |ts|
    requires NobodyTakes(rules, ts[i], v) || exists k :: 0 <= k < |rules| && TakesFirst(rules, k, ts[i], v) && !InScope(ts[i], rules[k], scope)
    ensures ApplyAll(rules, ts, v, scope)[i] == ts[i] && !Touching(rules, v, scope)(ts[i])
    ensures AddedTo(rules, ts[i], v, scope) == {}
  {
    hide TakesFirst, Takes, InScope, NobodyTakes;
    if NobodyTakes(rules, ts[i], v) {
      NobodyIsChosen(rules, ts[i], v, scope);
    } else {
      var k :| 0 <= k < |rules| && TakesFirst(rules, k, ts[i], v) && !InScope(ts[i], rules[k], scope);
      ChosenIsFirst(rules, k, ts[i], v, scope);
    }
  }

  /** It counts as changed when the rule sets a field it may set, or has a tag the row has not; that tag is the wallet's then. */
  lemma TouchedWhenSet(rules: seq<Rule>, t: Txn, k: nat, v: View, scope: Scope)
    requires TakesFirst(rules, k, t, v) && InScope(t, rules[k], scope)
    ensures var r, all := rules[k], !scope.onlyFillEmpty;
            Touching(rules, v, scope)(t) <==>
            || (r.setPayee != None && (all || t.payee == None)) || (r.setCategory != None && (all || t.category == None))
            || (r.setMode != None && (all || t.mode == 0)) || (r.setInfo != None && (all || t.info == ""))
            || exists name :: name in r.addTags && name !in t.tags
    ensures forall name :: name in AddedTo(rules, t, v, scope) <==> name in rules[k].addTags && name !in t.tags
  {
    hide Takes, InScope;
    ChosenIsFirst(rules, k, t, v, scope);
    var missing := TagSet(rules[k]) - t.tags;
    if name :| name in rules[k].addTags && name !in t.tags {
      assert name in missing;
    }
    if Touching(rules, v, scope)(t) && missing != {} {
      SomeName(missing);
    }
  }

  lemma SomeName(names: set<string>)
    requires names != {}
    ensures exists name :: name in names
  {
  }

  lemma {:induction false} AddingIsAll(rules: seq<Rule>, ts: seq<Txn>, v: View, scope: Scope, name: string)
    ensures name in Adding(rules, ts, v, scope) <==> exists i :: 0 <= i < |ts| && name in AddedTo(rules, ts[i], v, scope)
  {
    hide AddedTo;
    if ts != [] {
      var n := |ts| - 1;
      AddingIsAll(rules, ts[..n], v, scope, name);
      if i :| 0 <= i < |ts| && name in AddedTo(rules, ts[i], v, scope) {
        assert i < n ==> ts[..n][i] == ts[i];
      }
    }
  }

  // ----- counting -----

  function Places(ts: seq<Txn>, p: Txn -> bool): set<nat> {
    set k: nat | k < |ts| && p(ts[k])
  }

  lemma PlacesMore(ts: seq<Txn>, p: Txn -> bool)
    requires ts != []
    ensures var n := |ts| - 1;
            Places(ts, p) == Places(ts[..n], p) + (if p(ts[n]) then {n} else {}) && n !in Places(ts[..n], p)
  {
    var n := |ts| - 1;
    assert forall k: nat :: k < n ==> ts[..n][k] == ts[k];
    forall k: nat
      ensures k in Places(ts, p) <==> k in Places(ts[..n], p) + if p(ts[n]) then {n} else {}
    {
    }
  }

  lemma {:induction false} CountIsSize(ts: seq<Txn>, p: Txn -> bool)
    ensures Count(ts, p) == |Places(ts, p)|
  {
    if ts == [] {
      assert Places(ts, p) == {};
    } else {
      hide Places;
      CountIsSize(ts[..|ts| - 1], p);
      PlacesMore(ts, p);
    }
  }

  /** The list's numbers: the rows a rule is the first to take, and those it would take alone. */
  lemma ListedNumbers(rules: seq<Rule>, ts: seq<Txn>, i: nat, v: View)
    requires i < |rules|
    ensures Count(ts, Deciding(rules, i, v)) == |set k: nat | k < |ts| && TakesFirst(rules, i, ts[k], v)|
    ensures Count(ts, Reaching(rules[i], v)) == |set k: nat | k < |ts| && Takes(rules[i], ts[k], v)|
  {
    hide Hits, Takes;
    CountIsSize(ts, Deciding(rules, i, v));
    CountIsSize(ts, Reaching(rules[i], v));
    forall k: nat | k < |ts|
      ensures Deciding(rules, i, v)(ts[k]) <==> TakesFirst(rules, i, ts[k], v)
      ensures Reaching(rules[i], v)(ts[k]) <==> Takes(rules[i], ts[k], v)
    {
      TakingIsHitting(ts[k], v);
    }
    assert (set k: nat | k < |ts| && Deciding(rules, i, v)(ts[k])) == set k: nat | k < |ts| && TakesFirst(rules, i, ts[k], v);
    assert (set k: nat | k < |ts| && Reaching(rules[i], v)(ts[k])) == set k: nat | k < |ts| && Takes(rules[i], ts[k], v);
  }

  /** The dry run's numbers: the rows the candidate takes, those another rule takes first, and of the rest those without a category. */
  lemma TestedNumbers(input: Rule, above: seq<Rule>, ts: seq<Txn>, v: View)
    requires Compiles(input, v.l)
    ensures Count(ts, Reaching(input, v)) == |set k: nat | k < |ts| && Matches(input, Read(ts[k], v), v.l)|
    ensures Count(ts, Taking(input, above, v))
            == |set k: nat | k < |ts| && Matches(input, Read(ts[k], v), v.l) && !NobodyTakes(above, ts[k], v)|
    ensures Count(ts, Uncategorised(input, above, v))
            == |set k: nat | k < |ts| && Matches(input, Read(ts[k], v), v.l) && NobodyTakes(above, ts[k], v) && ts[k].category == None|
  {
    hide Matches, Compiles;
    CountIsSize(ts, Reaching(input, v));
    CountIsSize(ts, Taking(input, above, v));
    CountIsSize(ts, Uncategorised(input, above, v));
    forall k: nat | k < |ts|
      ensures Reaching(input, v)(ts[k]) <==> Matches(input, Read(ts[k], v), v.l)
      ensures Taking(input, above, v)(ts[k]) <==> Matches(input, Read(ts[k], v), v.l) && !NobodyTakes(above, ts[k], v)
      ensures Uncategorised(input, above, v)(ts[k])
              <==> Matches(input, Read(ts[k], v), v.l) && NobodyTakes(above, ts[k], v) && ts[k].category == None
    {
      TakingIsHitting(ts[k], v);
    }
    assert (set k: nat | k < |ts| && Reaching(input, v)(ts[k])) == set k: nat | k < |ts| && Matches(input, Read(ts[k], v), v.l);
    assert (set k: nat | k < |ts| && Taking(input, above, v)(ts[k]))
        == set k: nat | k < |ts| && Matches(input, Read(ts[k], v), v.l) && !NobodyTakes(above, ts[k], v);
    assert (set k: nat | k < |ts| && Uncategorised(input, above, v)(ts[k]))
        == set k: nat | k < |ts| && Matches(input, Read(ts[k], v), v.l) && NobodyTakes(above, ts[k], v) && ts[k].category == None;
  }

  // ----- what no rule decides -----

  predicate IsSince(t: Txn, day: int) {
    t.date >= day && t.payee != None && !t.isSplit
  }

  lemma {:induction false} CountOfSince(ts: seq<Txn>, day: int, p: Txn -> bool)
    ensures Count(Since(ts, day), p) == Count(ts, (t: Txn) => IsSince(t, day) && p(t))
  {
    if ts != [] {
      var n, t := |ts| - 1, ts[|ts| - 1];
      CountOfSince(ts[..n], day, p);
      var some := Since(ts[..n], day);
      assert (some + [t])[..|some|] == some && some + [] == some;
    }
  }

  lemma SizeOfSince(ts: seq<Txn>, day: int, p: Txn -> bool, q: Txn -> bool)
    requires forall t :: t in ts ==> (q(t) <==> IsSince(t, day) && p(t))
    ensures Count(Since(ts, day), p) == |Places(ts, q)|
  {
    hide Count, Since, IsSince;
    var both := (t: Txn) => IsSince(t, day) && p(t);
    CountOfSince(ts, day, p);
    CountIsSize(ts, both);
    assert Places(ts, both) == Places(ts, q);
  }

  /** A payee's unsplit row since the day that no rule takes. */
  function IsLeft(rules: seq<Rule>, day: int, payee: int, v: View): Txn -> bool {
    (t: Txn) => t.date >= day && t.payee == Some(payee) && !t.isSplit && NobodyTakes(rules, t, v)
  }

  function IsLeftOn(rules: seq<Rule>, day: int, payee: int, category: Option<int>, v: View): Txn -> bool {
    (t: Txn) => IsLeft(rules, day, payee, v)(t) && t.category == category
  }

  /** A tally's numbers: the payee's rows left over, all, without a category and on each. */
  lemma TalliedNumbers(tally: Tally, rules: seq<Rule>, ts: seq<Txn>, day: int, v: View, c: int)
    requires IsTally(tally, rules, Since(ts, day), v)
    ensures tally.total == |Places(ts, IsLeft(rules, day, tally.payee, v))|
    ensures tally.without == |Places(ts, IsLeftOn(rules, day, tally.payee, None, v))|
    ensures (if c in tally.categories then tally.categories[c] else 0) == |Places(ts, IsLeftOn(rules, day, tally.payee, Some(c), v))|
  {
    hide Count, Takes, Since, Places;
    forall t
      ensures NobodyTakes(rules, t, v) <==> NoneHits(rules, t, v)
    {
      TakingIsHitting(t, v);
    }
    SizeOfSince(ts, day, Left(rules, tally.payee, v), IsLeft(rules, day, tally.payee, v));
    SizeOfSince(ts, day, LeftWithout(rules, tally.payee, v), IsLeftOn(rules, day, tally.payee, None, v));
    SizeOfSince(ts, day, LeftOn(rules, tally.payee, c, v), IsLeftOn(rules, day, tally.payee, Some(c), v));
  }
}
