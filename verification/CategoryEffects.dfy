/** What the category service answers and leaves, said of the rows themselves (server/internal/category/service.go). */
module CategoryEffects {
  import opened Options
  import RuleEngine
  import opened Categories

  // ----- names -----

  /** Names are one when, spaces around aside, they fold alike letter by letter. */
  lemma OneName(a: string, b: string, l: RuleEngine.Language)
    ensures var x, y := RuleEngine.Trim(a, l), RuleEngine.Trim(b, l);
            Key(a, l) == Key(b, l) <==> |x| == |y| && forall i :: 0 <= i < |x| ==> l.fold(x[i]) == l.fold(y[i])
  {
    var x, y := RuleEngine.Trim(a, l), RuleEngine.Trim(b, l);
    if Key(a, l) == Key(b, l) {
      forall i | 0 <= i < |x|
        ensures l.fold(x[i]) == l.fold(y[i])
      {
        assert Key(a, l)[i] == Key(b, l)[i];
      }
    }
  }

  // ----- which error -----

  predicate IsThere(cs: map<int, Category>, id: int, wallet: int) {
    id in cs && cs[id].wallet == wallet
  }

  predicate HasChild(cs: map<int, Category>, id: int) {
    exists i | i in cs :: cs[i].parent == Some(id)
  }

  /** A parent there is for a category: of the wallet, and itself at the top. */
  lemma CreateRefusals(db: Tables, l: RuleEngine.Language, wallet: int, name: string, parent: Option<int>)
    ensures var cs, e := db.categories, CreateError(db, l, wallet, name, parent);
            && (e == Some(BadTarget) <==> parent != None && !IsThere(cs, parent.value, wallet))
            && (e == Some(TooDeep) <==> parent != None && IsThere(cs, parent.value, wallet) && cs[parent.value].parent != None)
            && (e == Some(Duplicate) <==>
                  (parent != None ==> IsThere(cs, parent.value, wallet) && cs[parent.value].parent == None)
                  && Taken(cs, l, wallet, 0, parent, name))
            && (e == None <==>
                  (parent != None ==> IsThere(cs, parent.value, wallet) && cs[parent.value].parent == None)
                  && !Taken(cs, l, wallet, 0, parent, name))
  {
    hide Taken;
  }

  lemma UpdateRefusals(db: Tables, l: RuleEngine.Language, id: int, name: string, move: Option<Option<int>>)
    ensures var cs, e := db.categories, UpdateError(db, l, id, name, move);
            && (e == Some(NotFound) <==> id !in cs)
            && (id in cs ==>
                  var parent := if move == None then cs[id].parent else move.value;
                  var there := parent == None || (parent != Some(id) && IsThere(cs, parent.value, cs[id].wallet));
                  var deep := parent != None && parent.value in cs && (cs[parent.value].parent != None || (cs[id].parent == None && HasChild(cs, id)));
                  && (e == Some(BadTarget) <==> !there)
                  && (e == Some(TooDeep) <==> there && deep)
                  && (e == Some(Duplicate) <==> there && !deep && Taken(cs, l, cs[id].wallet, id, parent, name))
                  && (e == None <==> there && !deep && !Taken(cs, l, cs[id].wallet, id, parent, name)))
  {
    hide Taken;
    assert HasSubs(db.categories, id) <==> HasChild(db.categories, id);
  }

  lemma MergeRefusals(db: Tables, wallet: int, source: int, target: int)
    ensures var cs, e := db.categories, MergeError(db, wallet, source, target);
            var there := source in cs && IsThere(cs, source, wallet) && IsThere(cs, target, wallet);
            var deep := source in cs && target in cs && HasChild(cs, source) && cs[target].parent != None;
            && (e == Some(SelfReference) <==> source == target)
            && (e == Some(NotFound) <==> source != target && source !in cs)
            && (e == Some(BadTarget) <==> source != target && source in cs && !there)
            && (e == Some(TooDeep) <==> source != target && there && deep)
            && (e == None ==> source != target && there && !deep)
  {
    hide Accepted;
    assert HasSubs(db.categories, source) <==> HasChild(db.categories, source);
  }

  lemma DeleteRefusals(db: Tables, wallet: int, id: int, to: Option<int>)
    ensures var cs, e := db.categories, DeleteError(db, wallet, id, to);
            var fits := to != None && IsThere(cs, to.value, wallet) && cs[to.value].parent == None;
            && (e == Some(NotFound) <==> !IsThere(cs, id, wallet))
            && (e == Some(HasChildren) <==> IsThere(cs, id, wallet) && HasChild(cs, id) && to == None)
            && (e == Some(BadTarget) <==> IsThere(cs, id, wallet) && HasChild(cs, id) && to != None && !fits)
            && (e == None ==> IsThere(cs, id, wallet) && (HasChild(cs, id) ==> fits))
  {
    hide Accepted;
    assert HasSubs(db.categories, id) <==> HasChild(db.categories, id);
  }

  /** A call with an error leaves everything as it was. */
  lemma RefusedLeavesAll(db: Tables, op: Op, l: RuleEngine.Language)
    requires ErrorOf(db, op, l) != None
    ensures Step(db, op, l) == db
  {
  }

  // ----- the row that is left -----

  /** A row as it was asked for: with the trimmed name and both marks; the type is the parent's, at the top the one asked for. */
  predicate AsAsked(row: Category, cs: map<int, Category>, wallet: int, name: string, parent: Option<int>, income: bool,
                    noBudget: bool, noReport: bool, l: RuleEngine.Language)
  {
    && row.wallet == wallet && row.parent == parent && row.name == RuleEngine.Trim(name, l)
    && row.noBudget == noBudget && row.noReport == noReport
    && (parent == None ==> row.income == income)
    && (parent != None ==> parent.value in cs && row.income == cs[parent.value].income)
  }

  lemma CreatedRow(db: Tables, l: RuleEngine.Language, wallet: int, name: string, parent: Option<int>, income: bool,
                   noBudget: bool, noReport: bool)
    requires Sound(db) && CreateError(db, l, wallet, RuleEngine.Trim(name, l), parent) == None
    ensures var after := Step(db, Create(wallet, name, parent, income, noBudget, noReport), l);
            && db.next !in db.categories && after.categories.Keys == db.categories.Keys + {db.next}
            && AsAsked(after.categories[db.next], db.categories, wallet, name, parent, income, noBudget, noReport, l)
            && (forall i :: i in db.categories ==> after.categories[i] == db.categories[i])
            && after == db.(categories := after.categories, next := db.next + 1)
  {
    hide Taken, TwoLevels, IndexHolds, AllClosed;
  }

  /** The children of an updated top-level category take the type asked for it; no other row changes. */
  lemma UpdatedRow(db: Tables, l: RuleEngine.Language, id: int, name: string, income: bool, noBudget: bool, noReport: bool,
                   move: Option<Option<int>>)
    requires Sound(db) && UpdateError(db, l, id, RuleEngine.Trim(name, l), move) == None
    ensures id in db.categories
    ensures var cs, after := db.categories, Step(db, Update(id, name, income, noBudget, noReport, move), l);
            var parent := if move == None then cs[id].parent else move.value;
            && after == db.(categories := after.categories) && after.categories.Keys == cs.Keys
            && AsAsked(after.categories[id], cs, cs[id].wallet, name, parent, income, noBudget, noReport, l)
            && forall i :: i in cs && i != id ==>
                 after.categories[i] == if parent == None && cs[i].parent == Some(id) then cs[i].(income := income) else cs[i]
  {
    hide Taken, TwoLevels, IndexHolds, AllClosed, HasSubs;
  }

  // ----- what a delete hands over -----

  ghost predicate HandsOver(before: References, after: References, id: int, to: Option<int>) {
    && after.Keys == before.Keys
    && forall k :: k in before ==>
         after[k] == Reference(before[k].wallet, if before[k].category == Some(id) then to else before[k].category)
  }

  lemma RedirectedThenDropped(db: Tables, refs: References, id: int, to: Option<int>)
    requires to != Some(id) && !HasSubs(db.categories, id)
    ensures HandsOver(refs, Emptied(Redirected(refs, id, to), db.categories, id), id, to)
    ensures HandsOver(refs, Emptied(refs, db.categories, id), id, None)
  {
    assert forall i :: !ChildOf(db.categories, i, id);
  }

  /**
   * A delete gives the payees, transactions and splits that named the category to the target, or to none, and its
   * children to the target; templates and rules that named it name none, its budgets go.
   */
  lemma DeletedHandsOver(db: Tables, wallet: int, id: int, to: Option<int>, l: RuleEngine.Language)
    requires Sound(db) && DeleteError(db, wallet, id, to) == None && to != Some(id)
    ensures var after := Step(db, Delete(wallet, id, to), l);
            && HandsOver(db.payees, after.payees, id, to) && HandsOver(db.transactions, after.transactions, id, to)
            && HandsOver(db.splits, after.splits, id, to)
            && HandsOver(db.templates, after.templates, id, None) && HandsOver(db.rules, after.rules, id, None)
            && after.budgets == (map k | k in db.budgets && db.budgets[k] != id :: db.budgets[k])
            && after.categories.Keys == db.categories.Keys - {id}
            && forall i :: i in after.categories ==>
                 after.categories[i] == if db.categories[i].parent == Some(id) then db.categories[i].(parent := to) else db.categories[i]
  {
    hide Accepted, Sound, Redirected, Emptied, HandsOver, HasSubs;
    var moved := Moved(db, id, to);
    NoChildLeft(db, id, to);
    TreeWithout(db, id, to);
    RedirectedThenDropped(moved, db.payees, id, to);
    RedirectedThenDropped(moved, db.transactions, id, to);
    RedirectedThenDropped(moved, db.splits, id, to);
    RedirectedThenDropped(moved, db.templates, id, to);
    RedirectedThenDropped(moved, db.rules, id, to);
    NoneDoomedBut(moved, id);
  }
}
