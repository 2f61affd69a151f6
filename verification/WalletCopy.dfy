/** Restoring a wallet's backup gives the same wallet under fresh ids, and leaves every other wallet alone
    (server/internal/backup/backup.go). */
module WalletCopy {
  import opened Options
  import opened Tables
  import opened WalletBackup

  // ----- well-formed wallets -----

  /** A reference of the wallet's goes to a row of the wallet's. */
  predicate Within<D>(t: Table<D>, w: int, p: Option<int>) {
    p.Some? ==> Owns(t, w, p.value)
  }

  predicate SplitsWithin(db: Database, w: int, splits: seq<Split>) {
    forall k :: 0 <= k < |splits| ==> Within(db.categories, w, splits[k].category)
  }

  predicate TagsWithin(db: Database, w: int, tags: seq<int>) {
    NoRepeats(tags) && forall k :: 0 <= k < |tags| ==> Owns(db.tags, w, tags[k])
  }

  predicate OneRateADate(rates: seq<Rate>) {
    forall j, k :: 0 <= j < k < |rates| ==> rates[j].date != rates[k].date
  }

  ghost predicate CurrenciesOk(db: Database, w: int) {
    && Unique(db.currencies, w, SameIso)
    && forall i :: Owns(db.currencies, w, i) ==> OneRateADate(db.currencies.rows[i].data.rates)
  }

  ghost predicate AccountsOk(db: Database, w: int) {
    && Unique(db.accounts, w, SameAccount)
    && forall i :: Owns(db.accounts, w, i) ==> Owns(db.currencies, w, db.accounts.rows[i].data.currency)
  }

  /** At most two levels. */
  ghost predicate CategoriesOk(db: Database, w: int) {
    && Unique(db.categories, w, SameCategory)
    && forall i :: Owns(db.categories, w, i) ==> ParentOk(db, w, db.categories.rows[i].data.parent)
  }

  predicate ParentOk(db: Database, w: int, parent: Option<int>) {
    parent.Some? ==> Owns(db.categories, w, parent.value) && db.categories.rows[parent.value].data.parent.None?
  }

  ghost predicate PayeesOk(db: Database, w: int) {
    && Unique(db.payees, w, SamePayee)
    && forall i :: Owns(db.payees, w, i) ==> Within(db.categories, w, db.payees.rows[i].data.category)
  }

  ghost predicate TxnsOk(db: Database, w: int) {
    forall i :: Owns(db.txns, w, i) ==> TxnOk(db, w, db.txns.rows[i].data)
  }

  predicate TxnOk(db: Database, w: int, t: Txn) {
    && Owns(db.accounts, w, t.account) && Within(db.payees, w, t.payee) && Within(db.categories, w, t.category)
    && Within(db.vehicles, w, t.vehicle) && Within(db.templates, w, t.template)
    && TagsWithin(db, w, t.tags) && SplitsWithin(db, w, t.splits)
  }

  ghost predicate TransfersOk(db: Database, w: int) {
    && Unique(db.transfers, w, SameTransfer)
    && forall i :: Owns(db.transfers, w, i) ==>
                     Owns(db.txns, w, db.transfers.rows[i].data.from) && Owns(db.txns, w, db.transfers.rows[i].data.to)
  }

  predicate TemplateOk(db: Database, w: int, t: Template) {
    && Within(db.accounts, w, t.account) && Within(db.payees, w, t.payee) && Within(db.categories, w, t.category)
    && Within(db.accounts, w, t.toAccount) && SplitsWithin(db, w, t.splits)
  }

  ghost predicate PlansOk(db: Database, w: int) {
    && (forall i :: Owns(db.templates, w, i) ==> TemplateOk(db, w, db.templates.rows[i].data))
    && (forall i :: Owns(db.schedules, w, i) ==> Owns(db.templates, w, db.schedules.rows[i].data.template))
    && (forall i :: Owns(db.assignments, w, i) ==> AssignmentOk(db, w, db.assignments.rows[i].data))
    && Unique(db.budgets, w, SameBudget)
    && (forall i :: Owns(db.budgets, w, i) ==> Owns(db.categories, w, db.budgets.rows[i].data.category))
    && (forall i :: Owns(db.goals, w, i) ==> GoalOk(db, w, db.goals.rows[i].data))
  }

  predicate AssignmentOk(db: Database, w: int, a: Assignment) {
    && Within(db.payees, w, a.payee) && Within(db.categories, w, a.category) && Within(db.accounts, w, a.account)
    && TagsWithin(db, w, a.tags)
  }

  /** A date that is there is some text. */
  predicate GoalOk(db: Database, w: int, g: Goal) {
    Within(db.accounts, w, g.account) && g.targetDate != Some("") && g.closedOn != Some("")
  }

  /** The wallet's base currency is the one that is marked. */
  ghost predicate BaseOk(db: Database, w: int) {
    && w in db.wallets
    && (db.wallets[w].base.Some? ==> Owns(db.currencies, w, db.wallets[w].base.value))
    && forall i :: Owns(db.currencies, w, i) ==> (db.currencies.rows[i].data.isBase <==> db.wallets[w].base == Some(i))
  }

  ghost predicate WellFormed(db: Database, w: int) {
    && BaseOk(db, w) && CurrenciesOk(db, w) && AccountsOk(db, w) && CategoriesOk(db, w) && PayeesOk(db, w)
    && Unique(db.tags, w, SameTag) && Unique(db.vehicles, w, SameVehicle)
    && TxnsOk(db, w) && TransfersOk(db, w) && PlansOk(db, w)
  }

  // ----- renaming -----

  function Ref(f: map<int, int>, i: int): int {
    if i in f then f[i] else 0
  }

  /** A reference is carried over: none stays none, and what it goes to is what the copy's goes to. */
  function Carry(f: map<int, int>, p: Option<int>): Option<int> {
    if p.Some? then Some(Ref(f, p.value)) else None
  }

  function CarryAll(f: map<int, int>, ids: seq<int>): (r: seq<int>)
    ensures |r| == |ids| && forall k :: 0 <= k < |ids| ==> r[k] == Ref(f, ids[k])
  {
    seq(|ids|, k requires 0 <= k < |ids| => Ref(f, ids[k]))
  }

  function CarrySplits(f: map<int, int>, splits: seq<Split>): (r: seq<Split>)
    ensures |r| == |splits|
    ensures forall k :: 0 <= k < |splits| ==> r[k] == splits[k].(category := Carry(f, splits[k].category))
  {
    seq(|splits|, k requires 0 <= k < |splits| => splits[k].(category := Carry(f, splits[k].category)))
  }

  /** The one-to-one maps from a wallet's ids to its copy's. */
  datatype Names = Names(currencies: map<int, int>, accounts: map<int, int>, categories: map<int, int>,
                         payees: map<int, int>, tags: map<int, int>, vehicles: map<int, int>, txns: map<int, int>,
                         templates: map<int, int>, assignments: map<int, int>)

  /** The default payment mode is lost. */
  function RenameAccount(n: Names): Account -> Account {
    (a: Account) => a.(currency := Ref(n.currencies, a.currency), defaultMode := None)
  }

  function RenameCategory(n: Names): Category -> Category {
    (c: Category) => c.(parent := Carry(n.categories, c.parent))
  }

  function RenamePayee(n: Names): Payee -> Payee {
    (p: Payee) => p.(category := Carry(n.categories, p.category))
  }

  /** The origin is stamped anew. */
  function RenameTxn(n: Names, user: int): Txn -> Txn {
    (t: Txn) =>
      Txn(Ref(n.accounts, t.account), Carry(n.payees, t.payee), Carry(n.categories, t.category),
          Carry(n.vehicles, t.vehicle), Carry(n.templates, t.template), CarryAll(n.tags, t.tags),
          CarrySplits(n.categories, t.splits), t.fields, Origin("import", Some(user)))
  }

  function RenameTransfer(n: Names): Transfer -> Transfer {
    (t: Transfer) => Transfer(Ref(n.txns, t.from), Ref(n.txns, t.to))
  }

  function RenameTemplate(n: Names): Template -> Template {
    (t: Template) =>
      Template(Carry(n.accounts, t.account), Carry(n.payees, t.payee), Carry(n.categories, t.category),
               Carry(n.accounts, t.toAccount), CarrySplits(n.categories, t.splits), t.fields)
  }

  /** When it last posted is lost. */
  function RenameSchedule(n: Names): Schedule -> Schedule {
    (s: Schedule) => Schedule(Ref(n.templates, s.template), s.fields, None)
  }

  function RenameAssignment(n: Names): Assignment -> Assignment {
    (a: Assignment) =>
      Assignment(Carry(n.payees, a.payee), Carry(n.categories, a.category), Carry(n.accounts, a.account),
                 CarryAll(n.tags, a.tags), a.fields)
  }

  function RenameBudget(n: Names): Budget -> Budget {
    (b: Budget) => b.(category := Ref(n.categories, b.category))
  }

  function RenameGoal(n: Names): Goal -> Goal {
    (g: Goal) => g.(account := Carry(n.accounts, g.account))
  }

  ghost predicate HasCopy<D(!new)>(before: Table<D>, after: Table<D>, wallet: int, copy: int, rename: D -> D) {
    exists f :: IsCopy(before, after, wallet, copy, f, rename)
  }

  /**
   * The copy is the wallet, renamed: table by table its rows are the wallet's one to one, with every reference carried over,
   * and no other row is new or changed.
   */
  ghost predicate Isomorphic(db: Database, after: Database, w: int, copy: int, n: Names, user: int) {
    && IsCopy(db.currencies, after.currencies, w, copy, n.currencies, Same)
    && IsCopy(db.accounts, after.accounts, w, copy, n.accounts, RenameAccount(n))
    && IsCopy(db.categories, after.categories, w, copy, n.categories, RenameCategory(n))
    && IsCopy(db.payees, after.payees, w, copy, n.payees, RenamePayee(n))
    && IsCopy(db.tags, after.tags, w, copy, n.tags, Same)
    && IsCopy(db.vehicles, after.vehicles, w, copy, n.vehicles, Same)
    && IsCopy(db.txns, after.txns, w, copy, n.txns, RenameTxn(n, user))
    && IsCopy(db.templates, after.templates, w, copy, n.templates, RenameTemplate(n))
    && IsCopy(db.assignments, after.assignments, w, copy, n.assignments, RenameAssignment(n))
    && HasCopy(db.transfers, after.transfers, w, copy, RenameTransfer(n))
    && HasCopy(db.schedules, after.schedules, w, copy, RenameSchedule(n))
    && HasCopy(db.budgets, after.budgets, w, copy, RenameBudget(n))
    && HasCopy(db.goals, after.goals, w, copy, RenameGoal(n))
  }

  function NewNames(db: Database, doc: Document): Names {
    Names(IdMap(Ids(doc.currencies), db.currencies.next), IdMap(Ids(doc.accounts), db.accounts.next),
          IdMap(Ids(InOrder(doc.categories)), db.categories.next), IdMap(Ids(doc.payees), db.payees.next),
          IdMap(Ids(doc.tags), db.tags.next), IdMap(Ids(doc.vehicles), db.vehicles.next),
          IdMap(Ids(doc.transactions), db.txns.next), IdMap(Ids(doc.templates), db.templates.next),
          IdMap(Ids(doc.assignments), db.assignments.next))
  }

  // ----- looking up is carrying over -----

  lemma ListedNames<D(!new), E>(es: seq<Entry<E>>, t: Table<D>, w: int, p: Row<D> -> bool, conv: D -> E)
    requires Listed(es, t, p, conv) && PicksWallet(t, w, p)
    ensures NamesRows(IdMap(Ids(es), t.next), t, w)
  {
    hide Listed, PicksWallet, NoRepeats, IdMap, Injective;
    EntriesOwned(es, t, w, p, conv);
    IdMapKeys(Ids(es), t.next);
    IdMapIsInjective(Ids(es), t.next);
  }

  lemma OwnRows<D(!new)>(t: Table<D>, w: int)
    ensures PicksWallet(t, w, OfWallet(w))
  {
  }

  lemma LookIsCarry<D(!new)>(f: map<int, int>, t: Table<D>, w: int, p: Option<int>)
    requires NamesRows(f, t, w) && Within(t, w, p)
    ensures Look(f, p) == Carry(f, p)
  {
  }

  lemma SplitsAreCarried(db: Database, w: int, f: map<int, int>, splits: seq<Split>)
    requires NamesRows(f, db.categories, w) && SplitsWithin(db, w, splits)
    ensures SplitsOf(f, splits) == CarrySplits(f, splits)
  {
    hide NamesRows, Look, Carry;
    forall k | 0 <= k < |splits|
      ensures Look(f, splits[k].category) == Carry(f, splits[k].category)
    {
      LookIsCarry(f, db.categories, w, splits[k].category);
    }
  }

  // ----- tags, which go by name -----

  lemma {:induction false} TagMapAt(es: seq<Entry<Tag>>, base: int, k: nat)
    requires k < |es| && forall i, j :: 0 <= i < j < |es| ==> es[i].data.name != es[j].data.name
    ensures es[k].data.name in TagMap(es, base) && TagMap(es, base)[es[k].data.name] == base + k
  {
    if k < |es| - 1 {
      TagMapAt(es[..|es| - 1], base, k);
    }
  }

  lemma TagByName(db: Database, w: int, es: seq<Entry<Tag>>, i: int)
    requires Listed(es, db.tags, OfWallet(w), Same) && Unique(db.tags, w, SameTag) && Owns(db.tags, w, i)
    ensures var name, f := NameOf(db.tags, i), IdMap(Ids(es), db.tags.next);
            && name in TagMap(es, db.tags.next) && TagMap(es, db.tags.next)[name] == Ref(f, i)
  {
    hide TagMap, IdMap, Listed;
    OwnRows(db.tags, w);
    EntriesOwned(es, db.tags, w, OfWallet(w), Same);
    forall j, k | 0 <= j < k < |es|
      ensures es[j].data.name != es[k].data.name
    {
      EntryIsOwned(es, db.tags, w, OfWallet(w), Same, j);
      EntryIsOwned(es, db.tags, w, OfWallet(w), Same, k);
      assert Ids(es)[j] != Ids(es)[k];
    }
    var k :| 0 <= k < |es| && Ids(es)[k] == i;
    EntryIsOwned(es, db.tags, w, OfWallet(w), Same, k);
    TagMapAt(es, db.tags.next, k);
    IdMapAt(Ids(es), db.tags.next, k);
  }

  lemma {:induction false} TagsAreCarried(db: Database, w: int, es: seq<Entry<Tag>>, ids: seq<int>)
    requires Listed(es, db.tags, OfWallet(w), Same) && Unique(db.tags, w, SameTag) && TagsWithin(db, w, ids)
    ensures TagIds(TagMap(es, db.tags.next), WalletBackup.NamesOf(db.tags, ids)) == CarryAll(IdMap(Ids(es), db.tags.next), ids)
    decreases |ids|
  {
    hide Listed, TagMap, IdMap, Unique, Ref;
    var f := IdMap(Ids(es), db.tags.next);
    if ids == [] {
      assert WalletBackup.NamesOf(db.tags, ids) == [];
    } else {
      var n := |ids| - 1;
      TagsAreCarried(db, w, es, ids[..n]);
      TagByName(db, w, es, ids[n]);
      assert WalletBackup.NamesOf(db.tags, ids)[..n] == WalletBackup.NamesOf(db.tags, ids[..n]);
      NewTagIsNew(db, w, es, ids);
      assert CarryAll(f, ids) == CarryAll(f, ids[..n]) + [Ref(f, ids[n])];
    }
  }

  lemma NewTagIsNew(db: Database, w: int, es: seq<Entry<Tag>>, ids: seq<int>)
    requires Listed(es, db.tags, OfWallet(w), Same) && TagsWithin(db, w, ids) && ids != []
    ensures var f, n := IdMap(Ids(es), db.tags.next), |ids| - 1;
            Ref(f, ids[n]) !in CarryAll(f, ids[..n])
  {
    hide IdMap, Listed;
    OwnRows(db.tags, w);
    ListedNames(es, db.tags, w, OfWallet(w), Same);
    var f, n := IdMap(Ids(es), db.tags.next), |ids| - 1;
    forall k | 0 <= k < n
      ensures CarryAll(f, ids[..n])[k] != Ref(f, ids[n])
    {
      assert ids[..n][k] == ids[k];
    }
  }

  // ----- rates, one a date -----

  lemma {:induction false} UpsertNew(rates: seq<Rate>, r: Rate)
    requires forall k :: 0 <= k < |rates| ==> rates[k].date != r.date
    ensures Upsert(rates, r) == rates + [r]
  {
    if rates != [] {
      UpsertNew(rates[1..], r);
      assert rates == [rates[0]] + rates[1..];
    }
  }

  lemma {:induction false} RatesStay(rates: seq<Rate>)
    requires OneRateADate(rates)
    ensures Upserted(rates) == rates
    decreases |rates|
  {
    hide Upsert;
    if rates != [] {
      var n := |rates| - 1;
      RatesStay(rates[..n]);
      UpsertNew(rates[..n], rates[n]);
      assert rates == rates[..n] + [rates[n]];
    }
  }

  // ----- categories, in two passes -----

  lemma {:induction false} TopsAndSubs(es: seq<Entry<Category>>)
    ensures forall e :: e in Tops(es) <==> e in es && e.data.parent.None?
    ensures forall e :: e in Subs(es) <==> e in es && e.data.parent.Some?
  {
    if es != [] {
      var n := |es| - 1;
      TopsAndSubs(es[..n]);
      assert es == es[..n] + [es[n]];
      assert forall e :: e in es <==> e in es[..n] || e == es[n];
    }
  }

  lemma InOrderIsAll(es: seq<Entry<Category>>)
    ensures forall e :: e in InOrder(es) <==> e in es
  {
    hide Tops, Subs;
    TopsAndSubs(es);
  }

  ghost predicate DistinctEntries(es: seq<Entry<Category>>) {
    forall j, k :: 0 <= j < k < |es| ==> es[j].id != es[k].id
  }

  lemma {:induction false} PartsAreDistinct(es: seq<Entry<Category>>)
    requires DistinctEntries(es)
    ensures DistinctEntries(Tops(es)) && DistinctEntries(Subs(es))
  {
    hide Tops, Subs;
    InOrderIs(es);
    if es == [] {
      assert es[..0] == es;
    } else {
      var n := |es| - 1;
      PartsAreDistinct(es[..n]);
      TopsAndSubs(es[..n]);
      TopsStep(es, n);
      assert es[..n + 1] == es;
      OneMoreIsDistinct(es, Tops(es[..n]));
      OneMoreIsDistinct(es, Subs(es[..n]));
    }
  }

  lemma OneMoreIsDistinct(es: seq<Entry<Category>>, part: seq<Entry<Category>>)
    requires es != [] && DistinctEntries(es) && DistinctEntries(part) && forall e :: e in part ==> e in es[..|es| - 1]
    ensures DistinctEntries(part + [es[|es| - 1]])
  {
    var n := |es| - 1;
    forall k | 0 <= k < |part|
      ensures part[k].id != es[n].id
    {
      assert part[k] in part;
    }
  }

  lemma SameIdSameEntry(es: seq<Entry<Category>>, a: Entry<Category>, b: Entry<Category>)
    requires DistinctEntries(es) && a in es && b in es && a.id == b.id
    ensures a == b
  {
  }

  lemma InOrderIsDistinct(es: seq<Entry<Category>>)
    requires DistinctEntries(es)
    ensures DistinctEntries(InOrder(es))
  {
    hide Tops, Subs;
    PartsAreDistinct(es);
    TopsAndSubs(es);
    var all, t := InOrder(es), |Tops(es)|;
    forall j, k | 0 <= j < k < |all|
      ensures all[j].id != all[k].id
    {
      if j < t <= k {
        assert all[j] in Tops(es) && all[k] in Subs(es);
        if all[j].id == all[k].id {
          SameIdSameEntry(es, all[j], all[k]);
        }
      } else if t <= j {
        assert all[j] == Subs(es)[j - t] && all[k] == Subs(es)[k - t];
      }
    }
  }

  /** The ids inserted are the ids listed. */
  lemma InOrderIds(es: seq<Entry<Category>>, i: int)
    ensures i in Ids(InOrder(es)) <==> i in Ids(es)
  {
    hide InOrder;
    InOrderIsAll(es);
    var all := InOrder(es);
    if i in Ids(es) {
      var k :| 0 <= k < |es| && Ids(es)[k] == i;
      assert es[k] in all;
      var j :| 0 <= j < |all| && all[j] == es[k];
      assert Ids(all)[j] == i;
    }
    if i in Ids(all) {
      var k :| 0 <= k < |all| && Ids(all)[k] == i;
      assert all[k] in es;
      var j :| 0 <= j < |es| && es[j] == all[k];
      assert Ids(es)[j] == i;
    }
  }

  /** A category keeps its parent exactly when it has none, or its parent was inserted before it. */
  lemma ParentIsKeptIfInsertedBefore(order: seq<Entry<Category>>, base: int, k: nat)
    requires k < |order| && NoRepeats(Ids(order))
    requires order[k].data.parent.Some? ==> order[k].data.parent.value in Ids(order)
    ensures CategoryRow(order, base, k).parent == Carry(IdMap(Ids(order), base), order[k].data.parent)
            <==> (order[k].data.parent.Some? ==> order[k].data.parent.value in Ids(order)[..k])
  {
    hide IdMap;
    var f, g, parent := IdMap(Ids(order), base), IdMap(Ids(order[..k]), base), order[k].data.parent;
    assert Ids(order[..k]) == Ids(order)[..k];
    IdMapKeys(Ids(order[..k]), base);
    if parent.Some? && parent.value in Ids(order)[..k] {
      var j :| 0 <= j < k && Ids(order)[j] == parent.value;
      IdMapAt(Ids(order), base, j);
      IdMapAt(Ids(order[..k]), base, j);
    }
  }

  // ----- table by table -----

  ghost predicate Setting(db: Database, w: int, doc: Document) {
    Ready(db) && WellFormed(db, w) && IsExport(db, w, doc)
  }

  lemma AccountsListed(db: Database, w: int, doc: Document)
    requires Setting(db, w, doc)
    ensures PicksWallet(db.txns, w, OnAccounts(Ids(doc.accounts)))
  {
    hide Sits, WellFormed, Listed, Ids;
    OwnRows(db.accounts, w);
    EntriesOwned(doc.accounts, db.accounts, w, OfWallet(w), AccountToDoc);
    forall i | i in db.txns.rows
      ensures db.txns.rows[i].data.account in Ids(doc.accounts) <==> db.txns.rows[i].wallet == w
    {
      assert Owns(db.accounts, db.txns.rows[i].wallet, db.txns.rows[i].data.account);
    }
  }

  lemma CategoryIds(db: Database, w: int, doc: Document)
    requires Listed(doc.categories, db.categories, OfWallet(w), Same)
    ensures NoRepeats(Ids(InOrder(doc.categories))) && DistinctEntries(InOrder(doc.categories))
    ensures forall i :: i in Ids(InOrder(doc.categories)) <==> Owns(db.categories, w, i)
    ensures NamesRows(NewNames(db, doc).categories, db.categories, w)
  {
    hide InOrder, Listed, IdMap, Injective;
    OwnRows(db.categories, w);
    EntriesOwned(doc.categories, db.categories, w, OfWallet(w), Same);
    assert DistinctEntries(doc.categories) by {
      forall j, k | 0 <= j < k < |doc.categories|
        ensures doc.categories[j].id != doc.categories[k].id
      {
        assert Ids(doc.categories)[j] != Ids(doc.categories)[k];
      }
    }
    InOrderIsDistinct(doc.categories);
    forall i
      ensures i in Ids(InOrder(doc.categories)) <==> Owns(db.categories, w, i)
    {
      InOrderIds(doc.categories, i);
    }
    IdMapKeys(Ids(InOrder(doc.categories)), db.categories.next);
    IdMapIsInjective(Ids(InOrder(doc.categories)), db.categories.next);
  }

  ghost predicate AllNamed(db: Database, w: int, n: Names) {
    && NamesRows(n.currencies, db.currencies, w) && NamesRows(n.accounts, db.accounts, w)
    && NamesRows(n.categories, db.categories, w) && NamesRows(n.payees, db.payees, w)
    && NamesRows(n.tags, db.tags, w) && NamesRows(n.vehicles, db.vehicles, w)
    && NamesRows(n.txns, db.txns, w) && NamesRows(n.templates, db.templates, w)
    && NamesRows(n.assignments, db.assignments, w)
  }

  lemma RowsAreNamed(db: Database, w: int, doc: Document)
    requires Setting(db, w, doc)
    ensures AllNamed(db, w, NewNames(db, doc))
  {
    hide Ready, WellFormed, Listed, NamesRows, PicksWallet, IdMap, Ids, InOrder;
    AccountsListed(db, w, doc);
    OwnRows(db.currencies, w);
    OwnRows(db.accounts, w);
    OwnRows(db.payees, w);
    OwnRows(db.tags, w);
    OwnRows(db.vehicles, w);
    OwnRows(db.templates, w);
    ListedNames(doc.currencies, db.currencies, w, OfWallet(w), Same);
    ListedNames(doc.accounts, db.accounts, w, OfWallet(w), AccountToDoc);
    ListedNames(doc.payees, db.payees, w, OfWallet(w), Same);
    ListedNames(doc.tags, db.tags, w, OfWallet(w), Same);
    ListedNames(doc.vehicles, db.vehicles, w, OfWallet(w), Same);
    ListedNames(doc.transactions, db.txns, w, OnAccounts(Ids(doc.accounts)), TxnToDocs(db.tags));
    ListedNames(doc.templates, db.templates, w, OfWallet(w), Same);
    OwnRows(db.assignments, w);
    ListedNames(doc.assignments, db.assignments, w, OfWallet(w), AssignmentToDocs(db.tags));
    CategoryIds(db, w, doc);
  }

  lemma CurrenciesCopied(db: Database, w: int, copy: int, doc: Document)
    requires Setting(db, w, doc) && Unused(db.currencies, copy)
    ensures AllFit(doc.currencies, MakeCurrency, SameIso)
    ensures IsCopy(db.currencies, Appended(db.currencies, copy, Made(doc.currencies, MakeCurrency)), w, copy,
                   NewNames(db, doc).currencies, Same)
  {
    hide IsCopy, Appended, Listed, AllFit, Made, IdMap, Fits, Unused, Upserted, PicksWallet;
    OwnRows(db.currencies, w);
    forall i | Owns(db.currencies, w, i)
      ensures MakeCurrency(Same(db.currencies.rows[i].data)) == Some(db.currencies.rows[i].data)
    {
      RatesStay(db.currencies.rows[i].data.rates);
    }
    CopyFromEntries(db.currencies, w, copy, doc.currencies, OfWallet(w), Same, MakeCurrency, SameIso, Same);
  }

  lemma AccountsCopied(db: Database, w: int, copy: int, doc: Document)
    requires Setting(db, w, doc) && Unused(db.accounts, copy)
    ensures var n := NewNames(db, doc);
            && AllFit(doc.accounts, MakeAccount(n.currencies), SameAccount)
            && IsCopy(db.accounts, Appended(db.accounts, copy, Made(doc.accounts, MakeAccount(n.currencies))), w, copy,
                      n.accounts, RenameAccount(n))
  {
    hide IsCopy, Appended, Listed, AllFit, Made, IdMap, Fits, Unused, PicksWallet, Ids, InOrder;
    OwnRows(db.accounts, w);
    RowsAreNamed(db, w, doc);
    var n := NewNames(db, doc);
    CopyFromEntries(db.accounts, w, copy, doc.accounts, OfWallet(w), AccountToDoc, MakeAccount(n.currencies), SameAccount,
                    RenameAccount(n));
  }

  lemma PayeesCopied(db: Database, w: int, copy: int, doc: Document)
    requires Setting(db, w, doc) && Unused(db.payees, copy)
    ensures var n := NewNames(db, doc);
            && AllFit(doc.payees, MakePayee(n.categories), SamePayee)
            && IsCopy(db.payees, Appended(db.payees, copy, Made(doc.payees, MakePayee(n.categories))), w, copy, n.payees,
                      RenamePayee(n))
  {
    hide IsCopy, Appended, Listed, AllFit, Made, IdMap, Fits, Unused, PicksWallet, Ids, InOrder, NamesRows, Look, Carry;
    OwnRows(db.payees, w);
    RowsAreNamed(db, w, doc);
    var n := NewNames(db, doc);
    forall i | Owns(db.payees, w, i)
      ensures MakePayee(n.categories)(Same(db.payees.rows[i].data)) == Some(RenamePayee(n)(db.payees.rows[i].data))
    {
      LookIsCarry(n.categories, db.categories, w, db.payees.rows[i].data.category);
    }
    CopyFromEntries(db.payees, w, copy, doc.payees, OfWallet(w), Same, MakePayee(n.categories), SamePayee, RenamePayee(n));
  }

  lemma TagsCopied(db: Database, w: int, copy: int, doc: Document)
    requires Setting(db, w, doc) && Unused(db.tags, copy)
    ensures AllFit(doc.tags, MakeTag, SameTag)
    ensures IsCopy(db.tags, Appended(db.tags, copy, Made(doc.tags, MakeTag)), w, copy, NewNames(db, doc).tags, Same)
  {
    hide IsCopy, Appended, Listed, AllFit, Made, IdMap, Fits, Unused, PicksWallet;
    OwnRows(db.tags, w);
    CopyFromEntries(db.tags, w, copy, doc.tags, OfWallet(w), Same, MakeTag, SameTag, Same);
  }

  lemma VehiclesCopied(db: Database, w: int, copy: int, doc: Document)
    requires Setting(db, w, doc) && Unused(db.vehicles, copy)
    ensures AllFit(doc.vehicles, MakeVehicle, SameVehicle)
    ensures IsCopy(db.vehicles, Appended(db.vehicles, copy, Made(doc.vehicles, MakeVehicle)), w, copy,
                   NewNames(db, doc).vehicles, Same)
  {
    hide IsCopy, Appended, Listed, AllFit, Made, IdMap, Fits, Unused, PicksWallet;
    OwnRows(db.vehicles, w);
    CopyFromEntries(db.vehicles, w, copy, doc.vehicles, OfWallet(w), Same, MakeVehicle, SameVehicle, Same);
  }

  // ----- categories -----

  lemma PlaceInOrder(es: seq<Entry<Category>>, k: nat)
    requires k < |InOrder(es)|
    ensures InOrder(es)[k].data.parent.None? <==> k < |Tops(es)|
  {
    hide Tops, Subs;
    TopsAndSubs(es);
    var e := InOrder(es)[k];
    if k < |Tops(es)| {
      assert e in Tops(es);
    } else {
      assert e in Subs(es);
    }
  }

  /** A parent is at the top level, so it was inserted in the first pass, before the category. */
  lemma ParentWasInserted(es: seq<Entry<Category>>, k: nat)
    requires k < |InOrder(es)| && DistinctEntries(InOrder(es)) && InOrder(es)[k].data.parent.Some?
    requires forall e :: e in es && e.id == InOrder(es)[k].data.parent.value ==> e.data.parent.None?
    requires InOrder(es)[k].data.parent.value in Ids(InOrder(es))
    ensures InOrder(es)[k].data.parent.value in Ids(InOrder(es))[..k]
  {
    hide Tops, Subs;
    TopsAndSubs(es);
    var order, t := InOrder(es), |Tops(es)|;
    var p := order[k].data.parent.value;
    var j :| 0 <= j < |order| && Ids(order)[j] == p;
    assert order[j] in es && order[j].id == p;
    PlaceInOrder(es, j);
    PlaceInOrder(es, k);
    assert Ids(order)[..k][j] == p;
  }

  lemma CategoryIsRenamed(db: Database, w: int, doc: Document, k: nat)
    requires Setting(db, w, doc) && k < |InOrder(doc.categories)|
    ensures var order, n := InOrder(doc.categories), NewNames(db, doc);
            && Owns(db.categories, w, order[k].id)
            && CategoryRow(order, db.categories.next, k) == RenameCategory(n)(db.categories.rows[order[k].id].data)
  {
    hide Ready, IdMap, InOrder, Look, Carry, CurrenciesOk, AccountsOk, PayeesOk, TxnsOk, TransfersOk, PlansOk, BaseOk;
    var order, n := InOrder(doc.categories), NewNames(db, doc);
    CategoryIds(db, w, doc);
    InOrderIsAll(doc.categories);
    OwnRows(db.categories, w);
    assert order[k] in doc.categories;
    var j :| 0 <= j < |doc.categories| && doc.categories[j] == order[k];
    EntryIsOwned(doc.categories, db.categories, w, OfWallet(w), Same, j);
    var parent := order[k].data.parent;
    if parent.Some? {
      forall e | e in doc.categories && e.id == parent.value
        ensures e.data.parent.None?
      {
        var i :| 0 <= i < |doc.categories| && doc.categories[i] == e;
        EntryIsOwned(doc.categories, db.categories, w, OfWallet(w), Same, i);
      }
      ParentWasInserted(doc.categories, k);
    }
    ParentIsKeptIfInsertedBefore(order, db.categories.next, k);
  }

  lemma SameRenamedCategory(n: Names, db: Database, w: int, a: Category, b: Category)
    requires NamesRows(n.categories, db.categories, w)
    requires Within(db.categories, w, a.parent) && Within(db.categories, w, b.parent)
    ensures SameCategory(RenameCategory(n)(a), RenameCategory(n)(b)) ==> SameCategory(a, b)
  {
  }

  lemma CategoriesCopied(db: Database, w: int, copy: int, doc: Document)
    requires Setting(db, w, doc) && Unused(db.categories, copy)
    ensures var n, rows := NewNames(db, doc), CategoryRows(InOrder(doc.categories), db.categories.next);
            && Apart(rows, SameCategory)
            && IsCopy(db.categories, Appended(db.categories, copy, rows), w, copy, n.categories, RenameCategory(n))
  {
    hide IsCopy, Appended, IdMap, Fits, Unused, InOrder, CategoryRow, NamesRows, SameCategory, RenameCategory, Listed,
      CurrenciesOk, AccountsOk, PayeesOk, TxnsOk, TransfersOk, PlansOk, BaseOk;
    var order, n := InOrder(doc.categories), NewNames(db, doc);
    var rows := CategoryRows(order, db.categories.next);
    CategoryIds(db, w, doc);
    forall k | 0 <= k < |order|
      ensures Owns(db.categories, w, order[k].id) && rows[k] == RenameCategory(n)(db.categories.rows[order[k].id].data)
    {
      CategoryIsRenamed(db, w, doc, k);
    }
    forall j, k | 0 <= j < k < |order|
      ensures !SameCategory(rows[j], rows[k])
    {
      assert order[j].id != order[k].id;
      SameRenamedCategory(n, db, w, db.categories.rows[order[j].id].data, db.categories.rows[order[k].id].data);
    }
    AppendedIsCopy(db.categories, w, copy, Ids(order), rows, RenameCategory(n));
  }
}
