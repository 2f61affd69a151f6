/** The two-level category tree and what refers to it (server/internal/category/service.go). */
module Categories {
  import opened Options
  import opened RuleEngine

  datatype Category = Category(wallet: int, parent: Option<int>, name: string, income: bool, noBudget: bool, noReport: bool)

  /** A row's wallet, and the category it names if any. */
  datatype Reference = Reference(wallet: int, category: Option<int>)

  /** A table's rows by id. */
  type References = map<int, Reference>

  /** The rows the service changes. Templates' and rules' categories only change when the database drops one. */
  datatype Tables = Tables(
    categories: map<int, Category>, next: int,
    payees: References, transactions: References, splits: References, templates: References, rules: References,
    budgets: map<int, int>)

  datatype Error = NotFound | Duplicate | TooDeep | HasChildren | SelfReference | BadTarget | Refused

  datatype Result<+T> = Ok(value: T) | Err(error: Error)

  // ----- names -----

  /** Names with the same key are the same name: case and the spaces around do not count. */
  function Key(name: string, l: Language): string {
    Mapped(Trim(name, l), l.fold)
  }

  /** At the top level, or under the same parent. */
  predicate AtLevel(c: Category, wallet: int, parent: Option<int>) {
    c.wallet == wallet && c.parent == parent
  }

  /** Another category at the level has the name. */
  predicate Taken(cs: map<int, Category>, l: Language, wallet: int, except: int, parent: Option<int>, name: string) {
    exists i :: i in cs && i != except && AtLevel(cs[i], wallet, parent) && Key(cs[i].name, l) == Key(name, l)
  }

  /** The search before a name is given; it answers with the name that stands in the way. */
  method SameName(cs: map<int, Category>, l: Language, wallet: int, except: int, parent: Option<int>, name: string)
    returns (existing: Option<string>)
    requires Trim(name, l) == name
    ensures existing.Some? <==> Taken(cs, l, wallet, except, parent, name)
    ensures existing.Some? ==>
              exists i :: i in cs && i != except && AtLevel(cs[i], wallet, parent) && cs[i].name == existing.value
                          && Key(existing.value, l) == Key(name, l)
  {
    var rows := cs.Keys;
    while exists i :: i in rows
      invariant rows <= cs.Keys
      invariant forall i :: i in cs && i !in rows && i != except && AtLevel(cs[i], wallet, parent) ==>
                              Key(cs[i].name, l) != Key(name, l)
      decreases |rows|
    {
      var i :| i in rows;
      rows := rows - {i};
      var c := cs[i];
      if c.wallet == wallet && i != except && c.parent == parent && Mapped(Trim(c.name, l), l.fold) == Mapped(name, l.fold) {
        return Some(c.name);
      }
    }
    existing := None;
  }

  // ----- the tree -----

  predicate ChildOf(cs: map<int, Category>, i: int, p: int) {
    i in cs && cs[i].parent == Some(p)
  }

  predicate HasSubs(cs: map<int, Category>, p: int) {
    exists i | i in cs :: ChildOf(cs, i, p)
  }

  predicate UnderTopLevel(cs: map<int, Category>, c: Category) {
    c.parent.Some? ==>
      c.parent.value in cs && cs[c.parent.value].wallet == c.wallet && cs[c.parent.value].parent.None?
  }

  /** No category sits deeper than two levels, and parents are of the same wallet. */
  predicate TwoLevels(cs: map<int, Category>) {
    forall i :: i in cs ==> UnderTopLevel(cs, cs[i])
  }

  /** The database's index: a wallet's children of one parent have different names. It does not see the top level. */
  predicate Clash(c: Category, d: Category) {
    c.parent.Some? && c.parent == d.parent && c.wallet == d.wallet && c.name == d.name
  }

  predicate IndexHolds(cs: map<int, Category>) {
    forall i, j :: i in cs && j in cs && i != j ==> !Clash(cs[i], cs[j])
  }

  predicate Closed(refs: References, cs: map<int, Category>) {
    forall k :: k in refs && refs[k].category.Some? ==> refs[k].category.value in cs
  }

  predicate AllClosed(db: Tables) {
    && Closed(db.payees, db.categories) && Closed(db.transactions, db.categories) && Closed(db.splits, db.categories)
    && Closed(db.templates, db.categories) && Closed(db.rules, db.categories)
    && forall k :: k in db.budgets ==> db.budgets[k] in db.categories
  }

  predicate IdsBelow(cs: map<int, Category>, next: int) {
    0 < next && forall i :: i in cs ==> 0 < i < next
  }

  predicate Sound(db: Tables) {
    IdsBelow(db.categories, db.next) && TwoLevels(db.categories) && IndexHolds(db.categories) && AllClosed(db)
  }

  /** Each child's type is its parent's. */
  predicate Aligned(cs: map<int, Category>) {
    forall i, p :: i in cs && p in cs && cs[i].parent == Some(p) ==> cs[i].income == cs[p].income
  }

  predicate SameNameTwice(c: Category, d: Category, l: Language) {
    c.wallet == d.wallet && c.parent == d.parent && Key(c.name, l) == Key(d.name, l)
  }

  /** Siblings differ in more than case. */
  predicate Distinct(cs: map<int, Category>, l: Language) {
    forall i, j :: i in cs && j in cs && i != j ==> !SameNameTwice(cs[i], cs[j], l)
  }

  // ----- what each operation answers and leaves -----

  function ParentError(cs: map<int, Category>, wallet: int, parent: Option<int>): Option<Error> {
    if parent.None? then None
    else if parent.value !in cs || cs[parent.value].wallet != wallet then Some(BadTarget)
    else if cs[parent.value].parent.Some? then Some(TooDeep)
    else None
  }

  function CreateError(db: Tables, l: Language, wallet: int, name: string, parent: Option<int>): Option<Error> {
    var e := ParentError(db.categories, wallet, parent);
    if e.Some? then e
    else if Taken(db.categories, l, wallet, 0, parent, name) then Some(Duplicate)
    else None
  }

  /** A subcategory takes its parent's type. */
  function TypeUnder(cs: map<int, Category>, parent: Option<int>, income: bool): bool {
    if parent.Some? && parent.value in cs then cs[parent.value].income else income
  }

  function Created(db: Tables, c: Category): Tables {
    db.(categories := db.categories[db.next := c], next := db.next + 1)
  }

  function ParentAfter(c: Category, move: Option<Option<int>>): Option<int> {
    if move.Some? then move.value else c.parent
  }

  function UpdateError(db: Tables, l: Language, id: int, name: string, move: Option<Option<int>>): Option<Error> {
    var cs := db.categories;
    if id !in cs then Some(NotFound)
    else
      var parent := ParentAfter(cs[id], move);
      var e := ParentError(cs, cs[id].wallet, parent);
      if parent == Some(id) then Some(BadTarget)
      else if e.Some? then e
      else if parent.Some? && cs[id].parent.None? && HasSubs(cs, id) then Some(TooDeep)
      else if Taken(cs, l, cs[id].wallet, id, parent, name) then Some(Duplicate)
      else None
  }

  /** The changed row, and its type given on to its children. */
  function Updated(db: Tables, id: int, c: Category): Tables {
    var cs := db.categories;
    db.(categories := map i | i in cs :: if i == id then c
                                         else if c.parent.None? && cs[i].parent == Some(id) then cs[i].(income := c.income)
                                         else cs[i])
  }

  function Reparented(cs: map<int, Category>, source: int, target: Option<int>): map<int, Category> {
    map i | i in cs :: if cs[i].parent == Some(source) then cs[i].(parent := target) else cs[i]
  }

  function Redirected(refs: References, source: int, target: Option<int>): References {
    map k | k in refs :: if refs[k].category == Some(source) then refs[k].(category := target) else refs[k]
  }

  /** The database drops a category with its children, empties what named them and drops their budgets. */
  predicate Doomed(cs: map<int, Category>, id: int, i: int) {
    i == id || ChildOf(cs, i, id)
  }

  function Emptied(refs: References, cs: map<int, Category>, id: int): References {
    map k | k in refs :: if refs[k].category.Some? && Doomed(cs, id, refs[k].category.value) then refs[k].(category := None)
                         else refs[k]
  }

  function Dropped(db: Tables, id: int): Tables {
    var cs := db.categories;
    Tables(map i | i in cs && !Doomed(cs, id, i) :: cs[i], db.next,
           Emptied(db.payees, cs, id), Emptied(db.transactions, cs, id), Emptied(db.splits, cs, id),
           Emptied(db.templates, cs, id), Emptied(db.rules, cs, id),
           map k | k in db.budgets && !Doomed(cs, id, db.budgets[k]) :: db.budgets[k])
  }

  function Moved(db: Tables, source: int, target: Option<int>): Tables {
    db.(categories := Reparented(db.categories, source, target),
        payees := Redirected(db.payees, source, target),
        transactions := Redirected(db.transactions, source, target),
        splits := Redirected(db.splits, source, target))
  }

  /** The database lets the move pass: no index clash, no reference to a category that is not there. */
  predicate Accepted(db: Tables, source: int, target: Option<int>) {
    IndexHolds(Moved(db, source, target).categories) && AllClosed(Moved(db, source, target))
  }

  function MergeError(db: Tables, wallet: int, source: int, target: int): Option<Error> {
    var cs := db.categories;
    if source == target then Some(SelfReference)
    else if source !in cs then Some(NotFound)
    else if target !in cs || cs[source].wallet != wallet || cs[target].wallet != wallet then Some(BadTarget)
    else if HasSubs(cs, source) && cs[target].parent.Some? then Some(TooDeep)
    else if !Accepted(db, source, Some(target)) then Some(Refused)
    else None
  }

  function DeleteError(db: Tables, wallet: int, id: int, to: Option<int>): Option<Error> {
    var cs := db.categories;
    if id !in cs || cs[id].wallet != wallet then Some(NotFound)
    else if HasSubs(cs, id) && to.None? then Some(HasChildren)
    else if HasSubs(cs, id) && (to.value !in cs || cs[to.value].wallet != wallet || cs[to.value].parent.Some?) then
      Some(BadTarget)
    else if !Accepted(db, id, to) then Some(Refused)
    else None
  }

  /** One answered call. */
  datatype Op =
    | Create(wallet: int, name: string, parent: Option<int>, income: bool, noBudget: bool, noReport: bool)
    | Update(id: int, name: string, income: bool, noBudget: bool, noReport: bool, move: Option<Option<int>>)
    | Merge(wallet: int, source: int, target: int)
    | Delete(wallet: int, id: int, to: Option<int>)

  function ErrorOf(db: Tables, op: Op, l: Language): Option<Error> {
    match op
    case Create(wallet, name, parent, _, _, _) => CreateError(db, l, wallet, Trim(name, l), parent)
    case Update(id, name, _, _, _, move) => UpdateError(db, l, id, Trim(name, l), move)
    case Merge(wallet, source, target) => MergeError(db, wallet, source, target)
    case Delete(wallet, id, to) => DeleteError(db, wallet, id, to)
  }

  /** The state a call leaves; a refused call leaves all as it was. */
  function Step(db: Tables, op: Op, l: Language): Tables {
    if ErrorOf(db, op, l).Some? then db
    else match op
      case Create(wallet, name, parent, income, noBudget, noReport) =>
        Created(db, Category(wallet, parent, Trim(name, l), TypeUnder(db.categories, parent, income), noBudget, noReport))
      case Update(id, name, income, noBudget, noReport, move) =>
        var parent := ParentAfter(db.categories[id], move);
        Updated(db, id, Category(db.categories[id].wallet, parent, Trim(name, l),
                                 TypeUnder(db.categories, parent, income), noBudget, noReport))
      case Merge(_, source, target) => Dropped(Moved(db, source, Some(target)), source)
      case Delete(_, id, to) => Dropped(Moved(db, id, to), id)
  }

  function Run(db: Tables, ops: seq<Op>, l: Language): Tables
    decreases ops
  {
    if ops == [] then db else Run(Step(db, ops[0], l), ops[1..], l)
  }

  /** Writing the row, then its children's type, is the whole update: the row is not its own child. */
  lemma RowAndChildren(before: Tables, after: Tables, id: int, c: Category)
    requires id in before.categories && c.parent != Some(id)
    requires after == before.(categories := after.categories) && after.categories.Keys == before.categories.Keys
    requires var mid := before.categories[id := c];
             forall i :: i in before.categories ==>
               after.categories[i] == if c.parent.None? && mid[i].parent == Some(id)
                                      then mid[i].(income := c.income) else mid[i]
    ensures after == Updated(before, id, c)
  {
    assert after.categories == Updated(before, id, c).categories;
  }

  class Service {
    var db: Tables
    const language: Language

    method Create(wallet: int, name: string, parent: Option<int>, income: bool, noBudget: bool, noReport: bool)
      returns (r: Result<int>)
      requires Sound(db)
      modifies this
      ensures Sound(db)
      ensures db == Step(old(db), Op.Create(wallet, name, parent, income, noBudget, noReport), language)
      ensures r == match CreateError(old(db), language, wallet, Trim(name, language), parent)
                   case Some(e) => Err(e)
                   case None => Ok(old(db).next)
    {
      ghost var op := Op.Create(wallet, name, parent, income, noBudget, noReport);
      StepIsSound(db, op, language);
      var type_ := income;
      if parent.Some? {
        if parent.value !in db.categories {
          return Err(BadTarget);
        }
        var p := db.categories[parent.value];
        if p.wallet != wallet {
          return Err(BadTarget);
        }
        if p.parent.Some? {
          return Err(TooDeep);
        }
        type_ := p.income;
      }
      var trimmed := Trim(name, language);
      TrimTwice(name, language);
      var existing := SameName(db.categories, language, wallet, 0, parent, trimmed);
      if existing.Some? {
        return Err(Duplicate);
      }
      var id := db.next;
      db := db.(categories := db.categories[id := Category(wallet, parent, trimmed, type_, noBudget, noReport)], next := id + 1);
      r := Ok(id);
    }

    method Update(id: int, name: string, income: bool, noBudget: bool, noReport: bool, move: Option<Option<int>>)
      returns (r: Result<Category>)
      requires Sound(db)
      modifies this
      ensures Sound(db)
      ensures db == Step(old(db), Op.Update(id, name, income, noBudget, noReport, move), language)
      ensures r == match UpdateError(old(db), language, id, Trim(name, language), move)
                   case Some(e) => Err(e)
                   case None => if id in db.categories then Ok(db.categories[id]) else Err(NotFound)
    {
      hide Sound, Taken, HasSubs, Key, Trim;
      ghost var op := Op.Update(id, name, income, noBudget, noReport, move);
      StepIsSound(db, op, language);
      if id !in db.categories {
        return Err(NotFound);
      }
      var cur := db.categories[id];
      var parent := cur.parent;
      if move.Some? {
        parent := move.value;
      }
      var type_ := income;
      if parent.Some? {
        if parent.value == id || parent.value !in db.categories || db.categories[parent.value].wallet != cur.wallet {
          return Err(BadTarget);
        }
        var p := db.categories[parent.value];
        if p.parent.Some? {
          return Err(TooDeep);
        }
        if cur.parent.None? {
          var subs := HasSubs(db.categories, id);
          if subs {
            return Err(TooDeep);
          }
        }
        type_ := p.income;
      }
      var trimmed := Trim(name, language);
      TrimTwice(name, language);
      var existing := SameName(db.categories, language, cur.wallet, id, parent, trimmed);
      if existing.Some? {
        return Err(Duplicate);
      }
      ghost var before := db;
      db := db.(categories := db.categories[id := Category(cur.wallet, parent, trimmed, type_, noBudget, noReport)]);
      if parent.None? {
        SetChildrenIncome(type_, id);
      }
      RowAndChildren(before, db, id, Category(cur.wallet, parent, trimmed, type_, noBudget, noReport));
      r := Ok(db.categories[id]);
    }

    method SetChildrenIncome(income: bool, parent: int)
      modifies this
      ensures db == old(db).(categories := db.categories) && db.categories.Keys == old(db).categories.Keys
      ensures forall i :: i in db.categories ==>
                db.categories[i] == if old(db).categories[i].parent == Some(parent)
                                    then old(db).categories[i].(income := income) else old(db).categories[i]
    {
      var cs := db.categories;
      db := db.(categories := map i | i in cs :: if cs[i].parent == Some(parent) then cs[i].(income := income) else cs[i]);
    }

    method Merge(wallet: int, source: int, target: int) returns (r: Result<()>)
      requires Sound(db)
      modifies this
      ensures Sound(db)
      ensures db == Step(old(db), Op.Merge(wallet, source, target), language)
      ensures r == match MergeError(old(db), wallet, source, target) case Some(e) => Err(e) case None => Ok(())
    {
      StepIsSound(db, Op.Merge(wallet, source, target), language);
      if source == target {
        return Err(SelfReference);
      }
      if source !in db.categories {
        return Err(NotFound);
      }
      if target !in db.categories || db.categories[source].wallet != wallet || db.categories[target].wallet != wallet {
        return Err(BadTarget);
      }
      var subs := HasSubs(db.categories, source);
      if subs && db.categories[target].parent.Some? {
        return Err(TooDeep);
      }
      r := ReassignAndDelete(source, Some(target));
    }

    method Delete(wallet: int, id: int, to: Option<int>) returns (r: Result<()>)
      requires Sound(db)
      modifies this
      ensures Sound(db)
      ensures db == Step(old(db), Op.Delete(wallet, id, to), language)
      ensures r == match DeleteError(old(db), wallet, id, to) case Some(e) => Err(e) case None => Ok(())
    {
      StepIsSound(db, Op.Delete(wallet, id, to), language);
      if id !in db.categories {
        return Err(NotFound);
      }
      if db.categories[id].wallet != wallet {
        return Err(NotFound);
      }
      var subs := HasSubs(db.categories, id);
      if subs {
        if to.None? {
          return Err(HasChildren);
        }
        if to.value !in db.categories || db.categories[to.value].wallet != wallet || db.categories[to.value].parent.Some? {
          return Err(BadTarget);
        }
      }
      r := ReassignAndDelete(id, to);
    }

    /** One transaction: a refused statement leaves everything as it was. */
    method ReassignAndDelete(source: int, target: Option<int>) returns (r: Result<()>)
      modifies this
      ensures if Accepted(old(db), source, target)
              then r == Ok(()) && db == Dropped(Moved(old(db), source, target), source)
              else r == Err(Refused) && db == old(db)
    {
      var before := db;
      db := db.(categories := Reparented(db.categories, source, target));
      if !IndexHolds(db.categories) {
        db := before;
        return Err(Refused);
      }
      db := db.(payees := Redirected(db.payees, source, target));
      db := db.(transactions := Redirected(db.transactions, source, target));
      db := db.(splits := Redirected(db.splits, source, target));
      if !AllClosed(db) {
        db := before;
        return Err(Refused);
      }
      db := Dropped(db, source);
      r := Ok(());
    }
  }

  // ----- over any run the tree stays two levels deep -----

  lemma ParentIsTop(cs: map<int, Category>, wallet: int, parent: Option<int>)
    requires ParentError(cs, wallet, parent).None?
    ensures forall c: Category :: c.parent == parent && c.wallet == wallet ==> UnderTopLevel(cs, c)
  {
  }

  lemma UnusedNameFits(cs: map<int, Category>, l: Language, id: int, c: Category)
    requires !Taken(cs, l, c.wallet, id, c.parent, c.name)
    ensures forall i :: i in cs && i != id ==> !SameNameTwice(cs[i], c, l) && !Clash(cs[i], c) && !Clash(c, cs[i])
  {
    assert forall i :: i in cs && Clash(cs[i], c) ==> AtLevel(cs[i], c.wallet, c.parent);
  }

  lemma CreatedIsSound(db: Tables, l: Language, c: Category)
    requires Sound(db) && ParentError(db.categories, c.wallet, c.parent).None?
    requires !Taken(db.categories, l, c.wallet, 0, c.parent, c.name)
    ensures Sound(Created(db, c))
  {
    hide Taken;
    ParentIsTop(db.categories, c.wallet, c.parent);
    UnusedNameFits(db.categories, l, 0, c);
  }

  /** An update that is let through. */
  predicate MayBecome(db: Tables, l: Language, id: int, c: Category) {
    && id in db.categories && c.wallet == db.categories[id].wallet
    && ParentError(db.categories, c.wallet, c.parent).None? && c.parent != Some(id)
    && (c.parent.Some? && db.categories[id].parent.None? ==> !HasSubs(db.categories, id))
    && !Taken(db.categories, l, c.wallet, id, c.parent, c.name)
  }

  lemma UpdatedIsTwoLevels(db: Tables, l: Language, id: int, c: Category)
    requires Sound(db) && MayBecome(db, l, id, c)
    ensures TwoLevels(Updated(db, id, c).categories)
  {
    hide Taken, IndexHolds, AllClosed;
    var cs, after := db.categories, Updated(db, id, c).categories;
    ParentIsTop(cs, c.wallet, c.parent);
    forall i | i in after
      ensures UnderTopLevel(after, after[i])
    {
      assert UnderTopLevel(cs, cs[i]);
      assert ChildOf(cs, i, id) ==> cs[id].parent.None?;
    }
  }

  lemma UpdatedIsIndexed(db: Tables, l: Language, id: int, c: Category)
    requires Sound(db) && MayBecome(db, l, id, c)
    ensures IndexHolds(Updated(db, id, c).categories)
  {
    hide Taken, TwoLevels, AllClosed, HasSubs;
    var cs, after := db.categories, Updated(db, id, c).categories;
    UnusedNameFits(cs, l, id, c);
    forall i, j | i in after && j in after && i != j
      ensures !Clash(after[i], after[j])
    {
      assert !Clash(cs[i], cs[j]);
    }
  }

  lemma UpdatedIsSound(db: Tables, l: Language, id: int, c: Category)
    requires Sound(db) && MayBecome(db, l, id, c)
    ensures Sound(Updated(db, id, c))
  {
    hide Taken, TwoLevels, IndexHolds, HasSubs;
    UpdatedIsTwoLevels(db, l, id, c);
    UpdatedIsIndexed(db, l, id, c);
  }

  lemma MovedIsTwoLevels(db: Tables, source: int, target: Option<int>)
    requires Sound(db) && source in db.categories
    requires HasSubs(db.categories, source) ==>
               && target.Some? && target.value in db.categories && db.categories[target.value].parent.None?
               && db.categories[target.value].wallet == db.categories[source].wallet
    ensures TwoLevels(Moved(db, source, target).categories)
  {
    var cs := db.categories;
    forall i | i in cs
      ensures UnderTopLevel(Moved(db, source, target).categories, Moved(db, source, target).categories[i])
    {
      assert UnderTopLevel(cs, cs[i]);
      assert cs[i].parent == Some(source) ==> HasSubs(cs, source);
    }
  }

  lemma EmptiedIsClosed(refs: References, db: Tables, id: int)
    requires Closed(refs, db.categories)
    ensures Closed(Emptied(refs, db.categories, id), Dropped(db, id).categories)
  {
  }

  lemma DroppedIsSound(db: Tables, id: int)
    requires Sound(db) && id in db.categories
    ensures Sound(Dropped(db, id))
  {
    var cs, after := db.categories, Dropped(db, id).categories;
    assert IdsBelow(after, db.next);
    forall i | i in after
      ensures UnderTopLevel(after, after[i])
    {
      assert UnderTopLevel(cs, cs[i]);
    }
    assert forall i, j :: i in after && j in after && i != j ==> !Clash(cs[i], cs[j]);
    EmptiedIsClosed(db.payees, db, id);
    EmptiedIsClosed(db.transactions, db, id);
    EmptiedIsClosed(db.splits, db, id);
    EmptiedIsClosed(db.templates, db, id);
    EmptiedIsClosed(db.rules, db, id);
  }

  lemma ReassignedIsSound(db: Tables, source: int, target: Option<int>)
    requires Sound(db) && source in db.categories && Accepted(db, source, target)
    requires HasSubs(db.categories, source) ==>
               && target.Some? && target.value in db.categories && db.categories[target.value].parent.None?
               && db.categories[target.value].wallet == db.categories[source].wallet
    ensures Sound(Dropped(Moved(db, source, target), source))
  {
    hide IndexHolds, AllClosed, TwoLevels, HasSubs;
    MovedIsTwoLevels(db, source, target);
    DroppedIsSound(Moved(db, source, target), source);
  }

  lemma StepIsSound(db: Tables, op: Op, l: Language)
    requires Sound(db)
    ensures Sound(Step(db, op, l))
  {
    hide Sound, Created, Updated, Dropped, Moved, Taken, HasSubs, Accepted;
    if ErrorOf(db, op, l).None? {
      match op
      case Create(wallet, name, parent, income, noBudget, noReport) =>
        CreatedIsSound(db, l, Category(wallet, parent, Trim(name, l), TypeUnder(db.categories, parent, income), noBudget, noReport));
      case Update(id, name, income, noBudget, noReport, move) =>
        var parent := ParentAfter(db.categories[id], move);
        UpdatedIsSound(db, l, id, Category(db.categories[id].wallet, parent, Trim(name, l),
                                           TypeUnder(db.categories, parent, income), noBudget, noReport));
      case Merge(_, source, target) => ReassignedIsSound(db, source, Some(target));
      case Delete(_, id, to) => ReassignedIsSound(db, id, to);
    }
  }

  /** Whatever is called, no category ever sits deeper than two levels and parents and references stay in place. */
  lemma {:induction false} RunIsSound(db: Tables, ops: seq<Op>, l: Language)
    requires Sound(db)
    ensures Sound(Run(db, ops, l))
    decreases ops
  {
    hide Sound, Step;
    if ops != [] {
      StepIsSound(db, ops[0], l);
      RunIsSound(Step(db, ops[0], l), ops[1..], l);
    }
  }

  // ----- types and names -----

  predicate Edits(op: Op) {
    op.Create? || op.Update?
  }

  lemma CreatedIsTidy(db: Tables, l: Language, c: Category)
    requires Sound(db) && Aligned(db.categories) && Distinct(db.categories, l)
    requires ParentError(db.categories, c.wallet, c.parent).None?
    requires c.income == TypeUnder(db.categories, c.parent, c.income)
    requires !Taken(db.categories, l, c.wallet, 0, c.parent, c.name)
    ensures Aligned(Created(db, c).categories) && Distinct(Created(db, c).categories, l)
  {
    hide Taken, SameNameTwice, IndexHolds;
    UnusedNameFits(db.categories, l, 0, c);
    assert forall i :: i in db.categories ==> UnderTopLevel(db.categories, db.categories[i]);
    SameNameIsMutual(l);
  }

  lemma SameNameIsMutual(l: Language)
    ensures forall c, d :: SameNameTwice(c, d, l) <==> SameNameTwice(d, c, l)
  {
  }

  lemma UpdatedIsAligned(db: Tables, l: Language, id: int, c: Category)
    requires Sound(db) && Aligned(db.categories) && MayBecome(db, l, id, c)
    requires c.income == TypeUnder(db.categories, c.parent, c.income)
    ensures Aligned(Updated(db, id, c).categories)
  {
    hide Taken, IndexHolds, AllClosed;
    var cs, after := db.categories, Updated(db, id, c).categories;
    forall i, p | i in after && p in after && after[i].parent == Some(p)
      ensures after[i].income == after[p].income
    {
      assert UnderTopLevel(cs, cs[i]);
      assert i != id && p == id ==> ChildOf(cs, i, id);
    }
  }

  lemma UpdatedIsTidy(db: Tables, l: Language, id: int, c: Category)
    requires Sound(db) && Aligned(db.categories) && Distinct(db.categories, l) && MayBecome(db, l, id, c)
    requires c.income == TypeUnder(db.categories, c.parent, c.income)
    ensures Aligned(Updated(db, id, c).categories) && Distinct(Updated(db, id, c).categories, l)
  {
    hide Taken, HasSubs, Aligned, TwoLevels, IndexHolds, AllClosed;
    var cs, after := db.categories, Updated(db, id, c).categories;
    UpdatedIsAligned(db, l, id, c);
    UnusedNameFits(cs, l, id, c);
    SameNameIsMutual(l);
    forall i, j | i in after && j in after && i != j
      ensures !SameNameTwice(after[i], after[j], l)
    {
      assert !SameNameTwice(cs[i], cs[j], l);
      assert i != id ==> SameNameTwice(after[i], after[j], l) == SameNameTwice(cs[i], after[j], l);
    }
  }

  /** Creating and editing keep every child's type its parent's, and siblings apart in more than case. */
  lemma EditIsTidy(db: Tables, op: Op, l: Language)
    requires Sound(db) && Aligned(db.categories) && Distinct(db.categories, l) && Edits(op)
    ensures Aligned(Step(db, op, l).categories) && Distinct(Step(db, op, l).categories, l)
  {
    hide Sound, Created, Updated, Taken, HasSubs, Aligned, Distinct;
    if ErrorOf(db, op, l).None? {
      match op
      case Create(wallet, name, parent, income, noBudget, noReport) =>
        CreatedIsTidy(db, l, Category(wallet, parent, Trim(name, l), TypeUnder(db.categories, parent, income), noBudget, noReport));
      case Update(id, name, income, noBudget, noReport, move) =>
        var parent := ParentAfter(db.categories[id], move);
        UpdatedIsTidy(db, l, id, Category(db.categories[id].wallet, parent, Trim(name, l),
                                          TypeUnder(db.categories, parent, income), noBudget, noReport));
    }
  }

  lemma {:induction false} EditsStayTidy(db: Tables, ops: seq<Op>, l: Language)
    requires Sound(db) && Aligned(db.categories) && Distinct(db.categories, l) && forall op :: op in ops ==> Edits(op)
    ensures Aligned(Run(db, ops, l).categories) && Distinct(Run(db, ops, l).categories, l)
    decreases ops
  {
    hide Sound, Step, Aligned, Distinct, Edits;
    if ops != [] {
      assert ops[0] in ops;
      StepIsSound(db, ops[0], l);
      EditIsTidy(db, ops[0], l);
      EditsStayTidy(Step(db, ops[0], l), ops[1..], l);
    }
  }

  // ----- what a merge moves -----

  /** Rows that name the category. */
  function Naming(refs: References, id: int): set<int> {
    set k | k in refs && refs[k].category == Some(id)
  }

  function Children(cs: map<int, Category>, id: int): set<int> {
    set i | i in cs && cs[i].parent == Some(id)
  }

  predicate HandedOver(before: References, after: References, source: int, target: int) {
    && after.Keys == before.Keys
    && Naming(after, source) == {} && Naming(after, target) == Naming(before, target) + Naming(before, source)
    && forall k :: k in before ==>
         after[k] == if before[k].category == Some(source) then before[k].(category := Some(target)) else before[k]
  }

  lemma RedirectedHandsOver(db: Tables, refs: References, source: int, target: int)
    requires source != target && !HasSubs(db.categories, source)
    ensures HandedOver(refs, Emptied(Redirected(refs, source, Some(target)), db.categories, source), source, target)
  {
    var after := Emptied(Redirected(refs, source, Some(target)), db.categories, source);
    assert forall i :: !ChildOf(db.categories, i, source);
    assert forall k :: k in refs ==>
             after[k] == if refs[k].category == Some(source) then refs[k].(category := Some(target)) else refs[k];
    assert Naming(after, target) == Naming(refs, target) + Naming(refs, source);
  }

  lemma NoChildLeft(db: Tables, source: int, target: Option<int>)
    requires Sound(db) && source in db.categories && target != Some(source)
    ensures !HasSubs(Moved(db, source, target).categories, source)
  {
    var cs, moved := db.categories, Moved(db, source, target).categories;
    assert forall i :: i in moved ==> !ChildOf(moved, i, source);
  }

  /** The rows left, each under the parent it had, or under the target if that was the source. */
  lemma TreeWithout(db: Tables, source: int, target: Option<int>)
    requires Sound(db) && source in db.categories && target != Some(source)
    ensures var cs, after := db.categories, Dropped(Moved(db, source, target), source).categories;
            && after.Keys == cs.Keys - {source}
            && forall i :: i in after ==>
                 after[i] == if cs[i].parent == Some(source) then cs[i].(parent := target) else cs[i]
  {
    hide Emptied, Redirected, Sound;
    NoChildLeft(db, source, target);
    var moved := Moved(db, source, target).categories;
    assert forall i :: !ChildOf(moved, i, source);
  }

  /** A merge takes away the source alone, and its children, and no others, become the target's. */
  lemma MergeMovesChildren(db: Tables, wallet: int, source: int, target: int, l: Language)
    requires Sound(db) && MergeError(db, wallet, source, target).None?
    ensures var cs, after := db.categories, Step(db, Merge(wallet, source, target), l).categories;
            && after.Keys == cs.Keys - {source}
            && Children(after, source) == {}
            && Children(after, target) == Children(cs, target) + Children(cs, source) - {source}
            && forall i :: i in after ==>
                 after[i] == if cs[i].parent == Some(source) then cs[i].(parent := Some(target)) else cs[i]
  {
    hide Dropped, Moved, Accepted, Sound;
    TreeWithout(db, source, Some(target));
    var cs, after := db.categories, Step(db, Merge(wallet, source, target), l).categories;
    forall i | i in after
      ensures after[i].parent != Some(source)
      ensures after[i].parent == Some(target) <==> cs[i].parent == Some(target) || cs[i].parent == Some(source)
    {
    }
    assert forall i :: i !in Children(after, source);
    assert forall i :: i in Children(after, target) <==> i in Children(cs, target) + Children(cs, source) - {source};
  }

  /**
   * No payee, transaction or split is left on the source: the target has exactly both categories' rows, and every
   * other row keeps its category. Only the source's budgets go.
   */
  lemma MergeMovesReferences(db: Tables, wallet: int, source: int, target: int, l: Language)
    requires Sound(db) && MergeError(db, wallet, source, target).None?
    ensures var after := Step(db, Merge(wallet, source, target), l);
            && HandedOver(db.payees, after.payees, source, target)
            && HandedOver(db.transactions, after.transactions, source, target)
            && HandedOver(db.splits, after.splits, source, target)
            && after.budgets == map k | k in db.budgets && db.budgets[k] != source :: db.budgets[k]
  {
    hide Accepted, Sound, Redirected, Emptied, HandedOver, HasSubs;
    var moved := Moved(db, source, Some(target));
    NoChildLeft(db, source, Some(target));
    RedirectedHandsOver(moved, db.payees, source, target);
    RedirectedHandsOver(moved, db.transactions, source, target);
    RedirectedHandsOver(moved, db.splits, source, target);
    NoneDoomedBut(moved, source);
  }

  lemma NoneDoomedBut(db: Tables, id: int)
    requires !HasSubs(db.categories, id)
    ensures forall i :: Doomed(db.categories, id, i) <==> i == id
  {
    assert forall i :: !ChildOf(db.categories, i, id);
  }

  lemma LevelsOf(cs: map<int, Category>, i: int)
    requires TwoLevels(cs) && i in cs
    ensures UnderTopLevel(cs, cs[i])
  {
  }

  /** A merge keeps siblings apart exactly when no child of the source shares its name with a child of the target. */
  lemma MergeKeepsNamesApart(db: Tables, wallet: int, source: int, target: int, l: Language)
    requires Sound(db) && Distinct(db.categories, l) && MergeError(db, wallet, source, target).None?
    ensures var cs := db.categories;
            Distinct(Step(db, Merge(wallet, source, target), l).categories, l) <==>
            forall i, j :: ChildOf(cs, i, source) && ChildOf(cs, j, target) ==> Key(cs[i].name, l) != Key(cs[j].name, l)
  {
    var cs, after := db.categories, Step(db, Merge(wallet, source, target), l).categories;
    MergeMovesChildren(db, wallet, source, target, l);
    hide Key, Accepted, Step, MergeError, IndexHolds, AllClosed;
    forall i, j | ChildOf(cs, i, source) && ChildOf(cs, j, target)
      ensures i in after && j in after && i != j && SameNameTwice(after[i], after[j], l) == (Key(cs[i].name, l) == Key(cs[j].name, l))
    {
      LevelsOf(cs, i);
      LevelsOf(cs, j);
    }
    forall i, j | i in after && j in after && i != j && SameNameTwice(after[i], after[j], l)
      ensures (ChildOf(cs, i, source) && ChildOf(cs, j, target)) || (ChildOf(cs, j, source) && ChildOf(cs, i, target))
    {
      assert !SameNameTwice(cs[i], cs[j], l);
    }
  }

  /** A merge keeps every child's type its parent's exactly when the source has no children or the target's type. */
  lemma MergeKeepsTypes(db: Tables, wallet: int, source: int, target: int, l: Language)
    requires Sound(db) && Aligned(db.categories) && MergeError(db, wallet, source, target).None?
    ensures var cs := db.categories;
            Aligned(Step(db, Merge(wallet, source, target), l).categories) <==>
            (HasSubs(cs, source) ==> cs[source].income == cs[target].income)
  {
    var cs, after := db.categories, Step(db, Merge(wallet, source, target), l).categories;
    MergeMovesChildren(db, wallet, source, target, l);
    hide *;
    TypesAfterMerge(cs, after, source, target);
  }

  lemma TypesAfterMerge(cs: map<int, Category>, after: map<int, Category>, source: int, target: int)
    requires TwoLevels(cs) && Aligned(cs) && source in cs && target in cs && source != target
    requires after.Keys == cs.Keys - {source}
    requires forall i :: i in after ==> after[i] == if cs[i].parent == Some(source) then cs[i].(parent := Some(target)) else cs[i]
    requires HasSubs(cs, source) ==> cs[target].parent.None?
    ensures Aligned(after) <==> (HasSubs(cs, source) ==> cs[source].income == cs[target].income)
  {
    hide TwoLevels;
    if HasSubs(cs, source) {
      var i :| i in cs && ChildOf(cs, i, source);
      LevelsOf(cs, i);
      assert after[i].parent == Some(target) && after[i].income == cs[source].income;
    }
    forall i, p | i in after && p in after && after[i].parent == Some(p)
      ensures after[i].income == cs[i].income && after[p].income == cs[p].income
      ensures cs[i].parent == Some(p) || (ChildOf(cs, i, source) && p == target)
    {
    }
  }

  /** Only the category goes in a delete, unless it has children and was given as its own target: then they go too. */
  lemma DeleteTakesOnlyOne(db: Tables, wallet: int, id: int, to: Option<int>, l: Language)
    requires Sound(db) && DeleteError(db, wallet, id, to).None?
    ensures var cs, after := db.categories, Step(db, Delete(wallet, id, to), l).categories;
            && after.Keys == (if to == Some(id) then cs.Keys - {id} - Children(cs, id) else cs.Keys - {id})
            && (after.Keys == cs.Keys - {id} <==> !(HasSubs(cs, id) && to == Some(id)))
  {
    hide AllClosed, IndexHolds, Redirected, Emptied, TwoLevels;
    var cs := db.categories;
    if to == Some(id) {
      assert forall i :: i in cs ==> Reparented(cs, id, to)[i] == cs[i];
      assert Reparented(cs, id, to) == cs;
      LevelsOf(cs, id);
      if HasSubs(cs, id) {
        var i :| i in cs && ChildOf(cs, i, id);
        assert i in Children(cs, id) && i != id;
      }
    } else {
      TreeWithout(db, id, to);
    }
  }

  // ----- references stay in their wallet -----

  predicate OwnRefs(refs: References, cs: map<int, Category>) {
    forall k :: k in refs && refs[k].category.Some? && refs[k].category.value in cs ==>
                  cs[refs[k].category.value].wallet == refs[k].wallet
  }

  /** Every reference goes to a category of its row's wallet. */
  predicate AllOwn(db: Tables) {
    && OwnRefs(db.payees, db.categories) && OwnRefs(db.transactions, db.categories) && OwnRefs(db.splits, db.categories)
    && OwnRefs(db.templates, db.categories) && OwnRefs(db.rules, db.categories)
  }

  /** A category that is there keeps its wallet. */
  predicate WalletsStay(cs: map<int, Category>, after: map<int, Category>) {
    forall i :: i in cs && i in after ==> after[i].wallet == cs[i].wallet
  }

  lemma OwnStays(refs: References, cs: map<int, Category>, after: map<int, Category>)
    requires OwnRefs(refs, cs) && Closed(refs, cs) && WalletsStay(cs, after)
    ensures OwnRefs(refs, after)
  {
    forall k | k in refs && refs[k].category.Some? && refs[k].category.value in after
      ensures after[refs[k].category.value].wallet == refs[k].wallet
    {
      var c := refs[k].category.value;
      assert c in cs && cs[c].wallet == refs[k].wallet;
    }
  }

  lemma EmptiedIsOwn(refs: References, db: Tables, id: int)
    requires Closed(refs, db.categories)
    ensures OwnRefs(Emptied(refs, db.categories, id), Dropped(db, id).categories)
            <==> forall k :: k in refs && refs[k].category.Some? && !Doomed(db.categories, id, refs[k].category.value) ==>
                               db.categories[refs[k].category.value].wallet == refs[k].wallet
  {
    var after := Emptied(refs, db.categories, id);
    assert forall k :: k in refs ==>
             after[k] == if refs[k].category.Some? && Doomed(db.categories, id, refs[k].category.value)
                         then refs[k].(category := None) else refs[k];
  }

  predicate Named(refs: References, id: int) {
    exists k | k in refs :: refs[k].category == Some(id)
  }

  /** The rows that named the source now name a category of their wallet, or none. */
  predicate TargetIsOwn(cs: map<int, Category>, refs: References, source: int, target: Option<int>)
    requires source in cs
  {
    !Named(refs, source) || target.None? || target.value == source
    || (target.value in cs && cs[target.value].wallet == cs[source].wallet)
  }

  /** Given to itself, the category takes its rows' references along. */
  lemma SelfIsOwn(db: Tables, refs: References, id: int)
    requires OwnRefs(refs, db.categories) && Closed(refs, db.categories)
    ensures var moved := Moved(db, id, Some(id));
            OwnRefs(Emptied(Redirected(refs, id, Some(id)), moved.categories, id), Dropped(moved, id).categories)
  {
    var now := Redirected(refs, id, Some(id));
    assert forall k :: k in refs ==> now[k] == refs[k];
    EmptiedIsOwn(now, Moved(db, id, Some(id)), id);
  }

  lemma RedirectedIsOwn(db: Tables, refs: References, source: int, target: Option<int>)
    requires Sound(db) && source in db.categories && OwnRefs(refs, db.categories) && Closed(refs, db.categories)
    requires Closed(Redirected(refs, source, target), Moved(db, source, target).categories)
    ensures var moved := Moved(db, source, target);
            OwnRefs(Emptied(Redirected(refs, source, target), moved.categories, source), Dropped(moved, source).categories)
            <==> TargetIsOwn(db.categories, refs, source, target)
  {
    hide Sound;
    var cs, moved, now := db.categories, Moved(db, source, target), Redirected(refs, source, target);
    if target == Some(source) {
      SelfIsOwn(db, refs, source);
      return;
    }
    assert forall i :: !ChildOf(moved.categories, i, source);
    assert forall i :: Doomed(moved.categories, source, i) <==> i == source;
    EmptiedIsOwn(now, moved, source);
    forall k | k in refs && now[k].category.Some? && now[k].category.value != source
      ensures moved.categories[now[k].category.value].wallet == now[k].wallet
              <==> (refs[k].category == Some(source) ==> cs[target.value].wallet == cs[source].wallet)
    {
      assert refs[k].category.value in cs;
      assert cs[refs[k].category.value].wallet == refs[k].wallet;
    }
    if TargetIsOwn(cs, refs, source, target) {
      forall k | k in now && now[k].category.Some? && now[k].category.value != source
        ensures moved.categories[now[k].category.value].wallet == now[k].wallet
      {
        assert refs[k].category == Some(source) ==> Named(refs, source);
      }
    } else {
      var k :| k in refs && refs[k].category == Some(source);
      assert now[k].category == target;
    }
  }

  lemma KeptIsOwn(db: Tables, refs: References, source: int, target: Option<int>)
    requires OwnRefs(refs, db.categories) && Closed(refs, db.categories)
    ensures var moved := Moved(db, source, target);
            OwnRefs(Emptied(refs, moved.categories, source), Dropped(moved, source).categories)
  {
    EmptiedIsOwn(refs, Moved(db, source, target), source);
  }

  /** Payees, transactions and splits are the rows that are handed over. */
  predicate TargetsAreOwn(db: Tables, source: int, target: Option<int>)
    requires source in db.categories
  {
    && TargetIsOwn(db.categories, db.payees, source, target) && TargetIsOwn(db.categories, db.transactions, source, target)
    && TargetIsOwn(db.categories, db.splits, source, target)
  }

  lemma ReassignedIsOwn(db: Tables, source: int, target: Option<int>)
    requires Sound(db) && AllOwn(db) && source in db.categories && Accepted(db, source, target)
    ensures AllOwn(Dropped(Moved(db, source, target), source)) <==> TargetsAreOwn(db, source, target)
  {
    hide OwnRefs, Emptied, Redirected, TargetIsOwn, HasSubs, IndexHolds, TwoLevels, Closed;
    RedirectedIsOwn(db, db.payees, source, target);
    RedirectedIsOwn(db, db.transactions, source, target);
    RedirectedIsOwn(db, db.splits, source, target);
    KeptIsOwn(db, db.templates, source, target);
    KeptIsOwn(db, db.rules, source, target);
  }

  /**
   * A delete keeps every reference in its wallet exactly when the rows of the category are given to no category, or to
   * one of the wallet. Without subcategories the service does not look where they go.
   */
  lemma DeleteKeepsReferencesOwn(db: Tables, wallet: int, id: int, to: Option<int>, l: Language)
    requires Sound(db) && AllOwn(db) && DeleteError(db, wallet, id, to).None?
    ensures AllOwn(Step(db, Delete(wallet, id, to), l)) <==> TargetsAreOwn(db, id, to)
  {
    hide AllOwn, Accepted, Sound, HasSubs, TargetsAreOwn, Dropped, Moved;
    ReassignedIsOwn(db, id, to);
  }

  /** The other calls keep it always. */
  lemma OthersKeepReferencesOwn(db: Tables, op: Op, l: Language)
    requires Sound(db) && AllOwn(db) && !op.Delete?
    ensures AllOwn(Step(db, op, l))
  {
    hide Sound, Accepted, Taken, HasSubs, OwnRefs;
    if ErrorOf(db, op, l).None? {
      if op.Merge? {
        assert TargetsAreOwn(db, op.source, Some(op.target));
        ReassignedIsOwn(db, op.source, Some(op.target));
      } else {
        EditKeepsOwn(db, op, l);
      }
    }
  }

  lemma EditKeepsOwn(db: Tables, op: Op, l: Language)
    requires Sound(db) && AllOwn(db) && Edits(op) && ErrorOf(db, op, l).None?
    ensures AllOwn(Step(db, op, l))
  {
    hide OwnRefs, Closed, Taken, HasSubs, IndexHolds, TwoLevels;
    var cs, after := db.categories, Step(db, op, l).categories;
    assert WalletsStay(cs, after);
    OwnStays(db.payees, cs, after);
    OwnStays(db.transactions, cs, after);
    OwnStays(db.splits, cs, after);
    OwnStays(db.templates, cs, after);
    OwnStays(db.rules, cs, after);
  }

  /** Each delete that is made gives the category's rows to none, or to a category of the wallet. */
  predicate DeletesStayHome(db: Tables, ops: seq<Op>, l: Language)
    decreases ops
  {
    ops == [] ||
    ((ops[0].Delete? && DeleteError(db, ops[0].wallet, ops[0].id, ops[0].to).None? ==>
        TargetsAreOwn(db, ops[0].id, ops[0].to))
     && DeletesStayHome(Step(db, ops[0], l), ops[1..], l))
  }

  /** Over any run of such calls every reference stays in its wallet. */
  lemma {:induction false} RunKeepsReferencesOwn(db: Tables, ops: seq<Op>, l: Language)
    requires Sound(db) && AllOwn(db) && DeletesStayHome(db, ops, l)
    ensures AllOwn(Run(db, ops, l))
    decreases ops
  {
    hide Sound, AllOwn, DeleteError, TargetsAreOwn;
    if ops != [] {
      StepIsSound(db, ops[0], l);
      if !ops[0].Delete? {
        OthersKeepReferencesOwn(db, ops[0], l);
      } else if ErrorOf(db, ops[0], l).None? {
        DeletedIsThere(db, ops[0].wallet, ops[0].id, ops[0].to);
        DeleteKeepsReferencesOwn(db, ops[0].wallet, ops[0].id, ops[0].to, l);
      }
      RunKeepsReferencesOwn(Step(db, ops[0], l), ops[1..], l);
    }
  }

  lemma DeletedIsThere(db: Tables, wallet: int, id: int, to: Option<int>)
    requires DeleteError(db, wallet, id, to).None?
    ensures id in db.categories
  {
  }
}
