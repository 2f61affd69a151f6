/** A wallet's backup document, and the new wallet made of one (server/internal/backup/backup.go). */
module WalletBackup {
  import opened Options
  import opened Tables

  // ----- the rows -----

  datatype CurrencyFields = CurrencyFields(isoCode: string, name: string, symbol: string, symbolPrefix: bool,
                                           decimalChar: string, groupChar: string, fracDigits: int, rate: real)

  datatype Rate = Rate(date: string, rate: real, source: string)

  datatype Currency = Currency(fields: CurrencyFields, isBase: bool, rates: seq<Rate>)

  datatype AccountFields = AccountFields(name: string, kind: string, institution: string, number: string,
                                         initialBalance: int, minimumBalance: int, closed: bool, noSummary: bool,
                                         noBudget: bool, noReport: bool, position: int, group: string, notes: string,
                                         website: string)

  datatype Valuation = Valuation(date: string, value: int, note: string)

  /** The default payment mode is not part of a backup. */
  datatype Account = Account(fields: AccountFields, currency: int, valuations: seq<Valuation>, defaultMode: Option<int>)

  datatype Category = Category(parent: Option<int>, name: string, isIncome: bool, noBudget: bool, noReport: bool)

  datatype Payee = Payee(name: string, category: Option<int>, mode: Option<int>)

  datatype Tag = Tag(name: string)

  datatype Vehicle = Vehicle(name: string, plate: string, notes: string)

  datatype Split = Split(category: Option<int>, amount: int, memo: string, position: int)

  datatype TxnFields = TxnFields(date: string, amount: int, mode: int, status: int, info: string, memo: string,
                                 isSplit: bool, importRef: string)

  /** Where a transaction came from, and the user who made it. */
  datatype Origin = Origin(kind: string, user: Option<int>)

  datatype Txn = Txn(account: int, payee: Option<int>, category: Option<int>, vehicle: Option<int>, template: Option<int>,
                     tags: seq<int>, splits: seq<Split>, fields: TxnFields, origin: Origin)

  datatype Transfer = Transfer(from: int, to: int)

  datatype TemplateFields = TemplateFields(name: string, amount: int, mode: int, status: int, info: string, memo: string,
                                           tags: string, isSplit: bool, isTransfer: bool)

  datatype Template = Template(account: Option<int>, payee: Option<int>, category: Option<int>, toAccount: Option<int>,
                               splits: seq<Split>, fields: TemplateFields)

  datatype ScheduleFields = ScheduleFields(unit: string, everyN: int, nextDue: string, weekendMode: int,
                                           remaining: Option<int>, postAdvance: int, autoPost: int)

  datatype Schedule = Schedule(template: int, fields: ScheduleFields, lastPosted: Option<string>)

  datatype AssignmentFields = AssignmentFields(position: int, matchField: string, matchType: string, pattern: string,
                                               caseSensitive: bool, setMode: Option<int>, setInfo: Option<string>,
                                               onManual: bool, onImport: bool)

  datatype Assignment = Assignment(payee: Option<int>, category: Option<int>, account: Option<int>, tags: seq<int>,
                                   fields: AssignmentFields)

  datatype Budget = Budget(category: int, year: int, month: int, amount: int)

  datatype GoalFields = GoalFields(name: string, targetAmount: int, note: string, position: int)

  datatype Contribution = Contribution(date: string, amount: int, note: string)

  datatype Goal = Goal(account: Option<int>, fields: GoalFields, targetDate: Option<string>, closedOn: Option<string>,
                       contributions: seq<Contribution>)

  datatype Wallet = Wallet(title: string, owner: string, base: Option<int>, members: set<int>)

  /** A transfer's wallet is that of the transaction it comes from. */
  datatype Database = Database(
    wallets: map<int, Wallet>, nextWallet: int,
    currencies: Table<Currency>, accounts: Table<Account>, categories: Table<Category>, payees: Table<Payee>,
    tags: Table<Tag>, vehicles: Table<Vehicle>, txns: Table<Txn>, transfers: Table<Transfer>,
    templates: Table<Template>, schedules: Table<Schedule>, assignments: Table<Assignment>, budgets: Table<Budget>,
    goals: Table<Goal>)

  // ----- the document -----

  datatype AccountDoc = AccountDoc(fields: AccountFields, currency: int, valuations: seq<Valuation>)

  datatype TxnDoc = TxnDoc(account: int, payee: Option<int>, category: Option<int>, vehicle: Option<int>,
                           template: Option<int>, tags: seq<string>, splits: seq<Split>, fields: TxnFields)

  datatype ScheduleDoc = ScheduleDoc(template: int, fields: ScheduleFields, lastPosted: string)

  datatype AssignmentDoc = AssignmentDoc(payee: Option<int>, category: Option<int>, account: Option<int>,
                                         tags: seq<string>, fields: AssignmentFields)

  datatype GoalDoc = GoalDoc(account: Option<int>, fields: GoalFields, targetDate: string, closedOn: string,
                             contributions: seq<Contribution>)

  datatype Document = Document(
    version: int, title: string, owner: string,
    currencies: seq<Entry<Currency>>, accounts: seq<Entry<AccountDoc>>, payees: seq<Entry<Payee>>,
    categories: seq<Entry<Category>>, tags: seq<Entry<Tag>>, vehicles: seq<Entry<Vehicle>>,
    transactions: seq<Entry<TxnDoc>>, transfers: seq<Entry<Transfer>>, templates: seq<Entry<Template>>,
    schedules: seq<Entry<ScheduleDoc>>, assignments: seq<Entry<AssignmentDoc>>, budgets: seq<Entry<Budget>>,
    goals: seq<Entry<GoalDoc>>)

  const VERSION := 1

  // ----- what a row becomes in a document -----

  function AccountToDoc(a: Account): AccountDoc {
    AccountDoc(a.fields, a.currency, a.valuations)
  }

  function NameOf(tags: Table<Tag>, id: int): string {
    if id in tags.rows then tags.rows[id].data.name else ""
  }

  function NamesOf(tags: Table<Tag>, ids: seq<int>): (r: seq<string>)
    ensures |r| == |ids| && forall k :: 0 <= k < |ids| ==> r[k] == NameOf(tags, ids[k])
  {
    seq(|ids|, k requires 0 <= k < |ids| => NameOf(tags, ids[k]))
  }

  function TxnToDoc(tags: Table<Tag>, t: Txn): TxnDoc {
    TxnDoc(t.account, t.payee, t.category, t.vehicle, t.template, NamesOf(tags, t.tags), t.splits, t.fields)
  }

  /** No date is written as no text. */
  function Text(o: Option<string>): string {
    if o.Some? then o.value else ""
  }

  function ScheduleToDoc(s: Schedule): ScheduleDoc {
    ScheduleDoc(s.template, s.fields, Text(s.lastPosted))
  }

  function AssignmentToDoc(tags: Table<Tag>, a: Assignment): AssignmentDoc {
    AssignmentDoc(a.payee, a.category, a.account, NamesOf(tags, a.tags), a.fields)
  }

  function GoalToDoc(g: Goal): GoalDoc {
    GoalDoc(g.account, g.fields, Text(g.targetDate), Text(g.closedOn), g.contributions)
  }

  function Same<T>(x: T): T {
    x
  }

  // ----- what an entry becomes in the new wallet -----

  /** The new id of a reference; none when there is none, or nothing by that id. */
  function Look(ids: map<int, int>, p: Option<int>): Option<int> {
    if p.Some? && p.value in ids then Some(ids[p.value]) else None
  }

  function Date(s: string): Option<string> {
    if s == "" then None else Some(s)
  }

  /** One rate a date: a later one takes the earlier one's place. */
  function Upsert(rates: seq<Rate>, r: Rate): seq<Rate> {
    if rates == [] then [r]
    else if rates[0].date == r.date then [r] + rates[1..]
    else [rates[0]] + Upsert(rates[1..], r)
  }

  function Upserted(rates: seq<Rate>): seq<Rate> {
    if rates == [] then [] else Upsert(Upserted(rates[..|rates| - 1]), rates[|rates| - 1])
  }

  /** The tags by these names, each once; names the wallet does not have are left out. */
  function TagIds(byName: map<string, int>, names: seq<string>): seq<int> {
    if names == [] then []
    else
      var before, name := TagIds(byName, names[..|names| - 1]), names[|names| - 1];
      if name in byName && byName[name] !in before then before + [byName[name]] else before
  }

  function SplitsOf(categories: map<int, int>, splits: seq<Split>): (r: seq<Split>)
    ensures |r| == |splits|
    ensures forall k :: 0 <= k < |splits| ==> r[k] == splits[k].(category := Look(categories, splits[k].category))
  {
    seq(|splits|, k requires 0 <= k < |splits| => splits[k].(category := Look(categories, splits[k].category)))
  }

  datatype Maps = Maps(currencies: map<int, int>, accounts: map<int, int>, categories: map<int, int>,
                       payees: map<int, int>, tags: map<string, int>, vehicles: map<int, int>, txns: map<int, int>,
                       templates: map<int, int>)

  function MakeCurrency(d: Currency): Option<Currency> {
    Some(d.(rates := Upserted(d.rates)))
  }

  /** An account in a currency the document does not have is refused. */
  function MakeAccount(currencies: map<int, int>): AccountDoc -> Option<Account> {
    (d: AccountDoc) =>
      if d.currency in currencies then Some(Account(d.fields, currencies[d.currency], d.valuations, None)) else None
  }

  function MakePayee(categories: map<int, int>): Payee -> Option<Payee> {
    (d: Payee) => Some(d.(category := Look(categories, d.category)))
  }

  function MakeTag(d: Tag): Option<Tag> {
    Some(d)
  }

  function MakeVehicle(d: Vehicle): Option<Vehicle> {
    Some(d)
  }

  /** Its template comes later, its origin is the import. */
  function MakeTxn(m: Maps, user: int): TxnDoc -> Option<Txn> {
    (d: TxnDoc) =>
      if d.account in m.accounts then
        Some(Txn(m.accounts[d.account], Look(m.payees, d.payee), Look(m.categories, d.category), Look(m.vehicles, d.vehicle),
                 None, TagIds(m.tags, d.tags), SplitsOf(m.categories, d.splits), d.fields, Origin("import", Some(user))))
      else None
  }

  function MakeTransfer(txns: map<int, int>): Transfer -> Option<Transfer> {
    (d: Transfer) => if d.from in txns && d.to in txns then Some(Transfer(txns[d.from], txns[d.to])) else None
  }

  function MakeAssignment(m: Maps): AssignmentDoc -> Option<Assignment> {
    (d: AssignmentDoc) =>
      Some(Assignment(Look(m.payees, d.payee), Look(m.categories, d.category), Look(m.accounts, d.account),
                      TagIds(m.tags, d.tags), d.fields))
  }

  function MakeBudget(categories: map<int, int>): Budget -> Option<Budget> {
    (d: Budget) => if d.category in categories then Some(d.(category := categories[d.category])) else None
  }

  function MakeGoal(accounts: map<int, int>): GoalDoc -> Option<Goal> {
    (d: GoalDoc) =>
      Some(Goal(Look(accounts, d.account), d.fields, Date(d.targetDate), Date(d.closedOn), d.contributions))
  }

  // ----- the unique indexes, within one wallet -----

  predicate SameIso(a: Currency, b: Currency) {
    a.fields.isoCode == b.fields.isoCode
  }

  predicate SameAccount(a: Account, b: Account) {
    a.fields.name == b.fields.name
  }

  predicate SameCategory(a: Category, b: Category) {
    a.parent.Some? && a.parent == b.parent && a.name == b.name
  }

  predicate SamePayee(a: Payee, b: Payee) {
    a.name == b.name
  }

  predicate SameTag(a: Tag, b: Tag) {
    a.name == b.name
  }

  predicate SameVehicle(a: Vehicle, b: Vehicle) {
    a.name == b.name
  }

  predicate SameTransfer(a: Transfer, b: Transfer) {
    a.from == b.from || a.to == b.to
  }

  predicate SameBudget(a: Budget, b: Budget) {
    a.category == b.category && a.year == b.year && a.month == b.month
  }

  /** No unique index. */
  predicate Never<D>(a: D, b: D) {
    false
  }

  // ----- entries in the order they are inserted -----

  /** Parents first. */
  function Tops(es: seq<Entry<Category>>): seq<Entry<Category>> {
    if es == [] then []
    else Tops(es[..|es| - 1]) + if es[|es| - 1].data.parent.None? then [es[|es| - 1]] else []
  }

  function Subs(es: seq<Entry<Category>>): seq<Entry<Category>> {
    if es == [] then []
    else Subs(es[..|es| - 1]) + if es[|es| - 1].data.parent.Some? then [es[|es| - 1]] else []
  }

  function InOrder(es: seq<Entry<Category>>): seq<Entry<Category>> {
    Tops(es) + Subs(es)
  }

  /** A category's row, with its parent looked up among those inserted before it. */
  function CategoryRow(es: seq<Entry<Category>>, base: int, k: nat): Category
    requires k < |es|
  {
    es[k].data.(parent := Look(IdMap(Ids(es[..k]), base), es[k].data.parent))
  }

  function CategoryRows(es: seq<Entry<Category>>, base: int): (r: seq<Category>)
    ensures |r| == |es| && forall k :: 0 <= k < |es| ==> r[k] == CategoryRow(es, base, k)
  {
    seq(|es|, k requires 0 <= k < |es| => CategoryRow(es, base, k))
  }

  /** The tags by name; of two by one name the last. */
  function TagMap(es: seq<Entry<Tag>>, base: int): map<string, int> {
    if es == [] then map[] else TagMap(es[..|es| - 1], base)[es[|es| - 1].data.name := base + |es| - 1]
  }

  /** Entries whose row can be made; the others are passed over. */
  function Known<E, D>(es: seq<Entry<E>>, make: E -> Option<D>): (r: seq<Entry<E>>)
    ensures forall k :: 0 <= k < |r| ==> make(r[k].data).Some?
  {
    if es == [] then []
    else Known(es[..|es| - 1], make) + if make(es[|es| - 1].data).Some? then [es[|es| - 1]] else []
  }

  /** A template's schedules, as rows under its new id. */
  function SchedulesOf(es: seq<Entry<ScheduleDoc>>, id: int, template: int): seq<Entry<Schedule>> {
    if es == [] then []
    else
      var e := es[|es| - 1];
      SchedulesOf(es[..|es| - 1], id, template)
      + if e.data.template == id then [Entry(e.id, Schedule(template, e.data.fields, None))] else []
  }

  /** All schedules, template by template. */
  function ScheduleRows(templates: seq<Entry<Template>>, base: int, es: seq<Entry<ScheduleDoc>>): seq<Entry<Schedule>> {
    if templates == [] then []
    else
      var n := |templates| - 1;
      ScheduleRows(templates[..n], base, es) + SchedulesOf(es, templates[n].id, base + n)
  }

  function DataOf<D>(es: seq<Entry<D>>): (r: seq<D>)
    ensures |r| == |es| && forall k :: 0 <= k < |es| ==> r[k] == es[k].data
  {
    seq(|es|, k requires 0 <= k < |es| => es[k].data)
  }

  /** The transactions pointed at their templates, once these are in. */
  function Linked(t: Table<Txn>, es: seq<Entry<TxnDoc>>, txns: map<int, int>, templates: map<int, int>): Table<Txn> {
    if es == [] then t
    else
      var before, e := Linked(t, es[..|es| - 1], txns, templates), es[|es| - 1];
      LinkOne(before, e, txns, templates)
  }

  function LinkOne(t: Table<Txn>, e: Entry<TxnDoc>, txns: map<int, int>, templates: map<int, int>): Table<Txn> {
    if Look(templates, e.data.template).Some? && e.id in txns && txns[e.id] in t.rows then
      var row := t.rows[txns[e.id]];
      t.(rows := t.rows[txns[e.id] := row.(data := row.data.(template := Look(templates, e.data.template)))])
    else t
  }

  /** The last currency marked as the base. */
  function BaseOf(es: seq<Entry<Currency>>, base: int): Option<int> {
    if es == [] then None
    else if es[|es| - 1].data.isBase then Some(base + |es| - 1)
    else BaseOf(es[..|es| - 1], base)
  }

  // ----- the loops of the restore -----

  /** These categories are in, in this order. */
  ghost predicate CategoriesIn(t0: Table<Category>, wallet: int, done: seq<Entry<Category>>, t: Table<Category>,
                               ids: map<int, int>)
  {
    && Apart(CategoryRows(done, t0.next), SameCategory)
    && t == Appended(t0, wallet, CategoryRows(done, t0.next)) && ids == IdMap(Ids(done), t0.next)
  }

  lemma NoCategoryIn(t: Table<Category>, wallet: int)
    ensures CategoriesIn(t, wallet, [], t, map[])
  {
    AppendNone(t, wallet);
    assert CategoryRows([], t.next) == [];
  }

  lemma CategoryRowsMore(done: seq<Entry<Category>>, e: Entry<Category>, base: int)
    ensures CategoryRows(done + [e], base)
            == CategoryRows(done, base) + [e.data.(parent := Look(IdMap(Ids(done), base), e.data.parent))]
  {
    var all := done + [e];
    assert all[..|done|] == done;
    forall k | 0 <= k < |done|
      ensures CategoryRow(all, base, k) == CategoryRow(done, base, k)
    {
      assert all[..k] == done[..k];
    }
  }

  lemma CategoryMoreIn(t0: Table<Category>, wallet: int, done: seq<Entry<Category>>, t: Table<Category>, ids: map<int, int>,
                       e: Entry<Category>)
    requires Unused(t0, wallet) && CategoriesIn(t0, wallet, done, t, ids)
    ensures var row := e.data.(parent := Look(ids, e.data.parent));
            if Taken(t, wallet, row, SameCategory) then !Apart(CategoryRows(done + [e], t0.next), SameCategory)
            else CategoriesIn(t0, wallet, done + [e], Inserted(t, wallet, row), ids[e.id := t.next])
  {
    hide Apart, Taken, SameCategory, CategoryRows, Appended, Inserted, IdMap, Unused, Look;
    var row, rows := e.data.(parent := Look(ids, e.data.parent)), CategoryRows(done, t0.next);
    CategoryRowsMore(done, e, t0.next);
    TakenAmongNew(t0, wallet, rows, row, SameCategory);
    ApartMore(rows, row, SameCategory);
    AppendOne(t0, wallet, rows, row);
    NextOf(t0, wallet, rows);
    IdsMore(done, e, t0.next);
  }

  lemma NextOf(t: Table<Category>, wallet: int, news: seq<Category>)
    ensures Appended(t, wallet, news).next == t.next + |news|
  {
  }

  lemma IdsMore(done: seq<Entry<Category>>, e: Entry<Category>, base: int)
    ensures IdMap(Ids(done + [e]), base) == IdMap(Ids(done), base)[e.id := base + |done|]
  {
    var ids := Ids(done + [e]);
    assert ids == Ids(done) + [e.id];
    assert ids[..|done|] == Ids(done);
  }

  /** A clash among the first is a clash. */
  lemma ClashStays(done: seq<Entry<Category>>, more: seq<Entry<Category>>, base: int)
    requires !Apart(CategoryRows(done, base), SameCategory)
    ensures !Apart(CategoryRows(done + more, base), SameCategory)
  {
    hide SameCategory;
    var all := done + more;
    forall k | 0 <= k < |done|
      ensures CategoryRows(all, base)[k] == CategoryRows(done, base)[k]
    {
      assert all[..k] == done[..k];
    }
  }

  lemma TopsStep(es: seq<Entry<Category>>, k: nat)
    requires k < |es|
    ensures Tops(es[..k + 1]) == Tops(es[..k]) + if es[k].data.parent.None? then [es[k]] else []
    ensures Subs(es[..k + 1]) == Subs(es[..k]) + if es[k].data.parent.Some? then [es[k]] else []
  {
    assert es[..k + 1][..k] == es[..k];
  }

  lemma {:induction false} TopsGrow(es: seq<Entry<Category>>, k: nat)
    requires k <= |es|
    ensures exists more :: Tops(es) == Tops(es[..k]) + more
    ensures exists more :: Subs(es) == Subs(es[..k]) + more
  {
    if k == |es| {
      assert es[..k] == es;
      assert Tops(es) == Tops(es[..k]) + [];
      assert Subs(es) == Subs(es[..k]) + [];
    } else {
      TopsGrow(es[..|es| - 1], k);
      assert es[..|es| - 1][..k] == es[..k];
      var a :| Tops(es[..|es| - 1]) == Tops(es[..k]) + a;
      var b :| Subs(es[..|es| - 1]) == Subs(es[..k]) + b;
      var last := es[|es| - 1];
      assert Tops(es) == Tops(es[..k]) + (a + if last.data.parent.None? then [last] else []);
      assert Subs(es) == Subs(es[..k]) + (b + if last.data.parent.Some? then [last] else []);
    }
  }

  method InsertCategory(t: Table<Category>, wallet: int, ids: map<int, int>, e: Entry<Category>)
    returns (ok: bool, after: Table<Category>, idsAfter: map<int, int>)
    ensures var row := e.data.(parent := Look(ids, e.data.parent));
            && (ok <==> !Taken(t, wallet, row, SameCategory))
            && (ok ==> after == Inserted(t, wallet, row) && idsAfter == ids[e.id := t.next])
  {
    hide Taken, SameCategory;
    var parent: Option<int> := None;
    if e.data.parent.Some? && e.data.parent.value in ids {
      parent := Some(ids[e.data.parent.value]);
    }
    var row := e.data.(parent := parent);
    if Taken(t, wallet, row, SameCategory) {
      return false, t, ids;
    }
    ok, idsAfter := true, ids[e.id := t.next];
    after := Insert(t, wallet, row);
  }

  lemma ClashAmongFirst(es: seq<Entry<Category>>, k: nat, inTops: bool, base: int)
    requires k <= |es|
    requires if inTops then !Apart(CategoryRows(Tops(es[..k]), base), SameCategory)
             else !Apart(CategoryRows(Tops(es) + Subs(es[..k]), base), SameCategory)
    ensures !Apart(CategoryRows(InOrder(es), base), SameCategory)
  {
    hide *;
    TopsGrow(es, k);
    InOrderIs(es);
    if inTops {
      var a :| Tops(es) == Tops(es[..k]) + a;
      assert InOrder(es) == Tops(es[..k]) + (a + Subs(es));
      ClashStays(Tops(es[..k]), a + Subs(es), base);
    } else {
      var b :| Subs(es) == Subs(es[..k]) + b;
      assert InOrder(es) == (Tops(es) + Subs(es[..k])) + b;
      ClashStays(Tops(es) + Subs(es[..k]), b, base);
    }
  }

  lemma InOrderIs(es: seq<Entry<Category>>)
    ensures InOrder(es) == Tops(es) + Subs(es) && Tops(es[..0]) == [] && Subs(es[..0]) == []
    ensures es[..|es|] == es
  {
  }

  /** Two passes: the categories without a parent, then the others. */
  method InsertCategories(t0: Table<Category>, wallet: int, es: seq<Entry<Category>>)
    returns (ok: bool, t: Table<Category>, ids: map<int, int>)
    requires Unused(t0, wallet)
    ensures ok <==> Apart(CategoryRows(InOrder(es), t0.next), SameCategory)
    ensures ok ==> t == Appended(t0, wallet, CategoryRows(InOrder(es), t0.next)) && ids == IdMap(Ids(InOrder(es)), t0.next)
  {
    hide *;
    t, ids := t0, map[];
    NoCategoryIn(t0, wallet);
    InOrderIs(es);
    for k := 0 to |es|
      invariant CategoriesIn(t0, wallet, Tops(es[..k]), t, ids)
    {
      TopsStep(es, k);
      if es[k].data.parent.None? {
        CategoryMoreIn(t0, wallet, Tops(es[..k]), t, ids, es[k]);
        ok, t, ids := InsertCategory(t, wallet, ids, es[k]);
        if !ok {
          ClashAmongFirst(es, k + 1, true, t0.next);
          return;
        }
      } else {
        assert Tops(es[..k]) + [] == Tops(es[..k]);
      }
    }
    assert Tops(es) + [] == Tops(es);
    for k := 0 to |es|
      invariant CategoriesIn(t0, wallet, Tops(es) + Subs(es[..k]), t, ids)
    {
      TopsStep(es, k);
      if es[k].data.parent.Some? {
        CategoryMoreIn(t0, wallet, Tops(es) + Subs(es[..k]), t, ids, es[k]);
        assert Tops(es) + Subs(es[..k + 1]) == (Tops(es) + Subs(es[..k])) + [es[k]];
        ok, t, ids := InsertCategory(t, wallet, ids, es[k]);
        if !ok {
          ClashAmongFirst(es, k + 1, false, t0.next);
          return;
        }
      } else {
        assert Subs(es[..k]) + [] == Subs(es[..k]);
      }
    }
    ok := true;
    CategoriesInMeans(t0, wallet, InOrder(es), t, ids);
  }

  lemma CategoriesInMeans(t0: Table<Category>, wallet: int, done: seq<Entry<Category>>, t: Table<Category>, ids: map<int, int>)
    requires CategoriesIn(t0, wallet, done, t, ids)
    ensures Apart(CategoryRows(done, t0.next), SameCategory)
    ensures t == Appended(t0, wallet, CategoryRows(done, t0.next)) && ids == IdMap(Ids(done), t0.next)
  {
  }

  lemma {:induction false} TagMapStep(es: seq<Entry<Tag>>, k: nat, base: int)
    requires k < |es|
    ensures TagMap(es[..k + 1], base) == TagMap(es[..k], base)[es[k].data.name := base + k]
  {
    assert es[..k + 1][..k] == es[..k];
  }

  method InsertTags(t0: Table<Tag>, wallet: int, es: seq<Entry<Tag>>)
    returns (ok: bool, t: Table<Tag>, byName: map<string, int>)
    requires Unused(t0, wallet)
    ensures ok <==> AllFit(es, MakeTag, SameTag)
    ensures ok ==> t == Appended(t0, wallet, Made(es, MakeTag)) && byName == TagMap(es, t0.next)
  {
    hide AllFit, Appended, Made, TagMap, Unused;
    byName := map[];
    var ids;
    ok, t, ids := InsertAll(t0, wallet, es, MakeTag, SameTag);
    if !ok {
      return;
    }
    NoTag(t0.next);
    assert es[..0] == [];
    for k := 0 to |es|
      invariant byName == TagMap(es[..k], t0.next)
    {
      TagMapStep(es, k, t0.next);
      byName := byName[es[k].data.name := t0.next + k];
    }
    assert es[..|es|] == es;
  }

  lemma NoTag(base: int)
    ensures TagMap([], base) == map[]
  {
  }

  // ----- templates with their schedules -----

  lemma SchedulesStep(es: seq<Entry<ScheduleDoc>>, k: nat, id: int, template: int)
    requires k < |es|
    ensures DataOf(SchedulesOf(es[..k + 1], id, template))
            == DataOf(SchedulesOf(es[..k], id, template))
               + if es[k].data.template == id then [Schedule(template, es[k].data.fields, None)] else []
  {
    assert es[..k + 1][..k] == es[..k];
  }

  lemma NoSchedule(id: int, template: int)
    ensures DataOf(SchedulesOf([], id, template)) == []
  {
  }

  /** The schedules of one template, under its new id; when they last posted is not restored. */
  method InsertSchedules(t0: Table<Schedule>, wallet: int, es: seq<Entry<ScheduleDoc>>, id: int, template: int)
    returns (t: Table<Schedule>)
    ensures t == Appended(t0, wallet, DataOf(SchedulesOf(es, id, template)))
  {
    hide *;
    t := t0;
    NoSchedule(id, template);
    AppendNone(t0, wallet);
    assert es[..0] == [];
    for k := 0 to |es|
      invariant t == Appended(t0, wallet, DataOf(SchedulesOf(es[..k], id, template)))
    {
      SchedulesStep(es, k, id, template);
      if es[k].data.template != id {
        assert DataOf(SchedulesOf(es[..k], id, template)) + [] == DataOf(SchedulesOf(es[..k], id, template));
        continue;
      }
      AppendOne(t0, wallet, DataOf(SchedulesOf(es[..k], id, template)), Schedule(template, es[k].data.fields, None));
      t := Insert(t, wallet, Schedule(template, es[k].data.fields, None));
    }
    assert es[..|es|] == es;
  }

  lemma {:induction false} AppendTwice<D>(t: Table<D>, wallet: int, a: seq<D>, b: seq<D>)
    ensures Appended(Appended(t, wallet, a), wallet, b) == Appended(t, wallet, a + b)
    decreases |b|
  {
    hide *;
    if b == [] {
      AppendNone(Appended(t, wallet, a), wallet);
      assert a + b == a;
    } else {
      var c, d := b[..|b| - 1], b[|b| - 1];
      AppendTwice(t, wallet, a, c);
      AppendOne(Appended(t, wallet, a), wallet, c, d);
      AppendOne(t, wallet, a + c, d);
      assert b == c + [d] && a + b == (a + c) + [d];
    }
  }

  lemma ScheduleRowsStep(templates: seq<Entry<Template>>, k: nat, base: int, es: seq<Entry<ScheduleDoc>>)
    requires k < |templates|
    ensures DataOf(ScheduleRows(templates[..k + 1], base, es))
            == DataOf(ScheduleRows(templates[..k], base, es)) + DataOf(SchedulesOf(es, templates[k].id, base + k))
  {
    assert templates[..k + 1][..k] == templates[..k];
  }

  lemma NoScheduleRow(base: int, es: seq<Entry<ScheduleDoc>>)
    ensures DataOf(ScheduleRows([], base, es)) == []
  {
  }

  function TemplateRow(m: Maps, d: Template): Template {
    Template(Look(m.accounts, d.account), Look(m.payees, d.payee), Look(m.categories, d.category),
             Look(m.accounts, d.toAccount), SplitsOf(m.categories, d.splits), d.fields)
  }

  function TemplateRows(m: Maps, es: seq<Entry<Template>>): (r: seq<Template>)
    ensures |r| == |es| && forall k :: 0 <= k < |es| ==> r[k] == TemplateRow(m, es[k].data)
  {
    seq(|es|, k requires 0 <= k < |es| => TemplateRow(m, es[k].data))
  }

  lemma TemplateRowsMore(m: Maps, es: seq<Entry<Template>>, k: nat)
    requires k < |es|
    ensures TemplateRows(m, es[..k + 1]) == TemplateRows(m, es[..k]) + [TemplateRow(m, es[k].data)]
    ensures Ids(es[..k + 1]) == Ids(es)[..k + 1] && Ids(es[..k]) == Ids(es)[..k]
  {
  }

  lemma NoTemplateRow(m: Maps, es: seq<Entry<Template>>)
    ensures TemplateRows(m, es[..0]) == [] && Ids(es[..0]) == [] && es[..0] == [] && es[..|es|] == es
  {
  }

  lemma AppendedNext<D>(t: Table<D>, wallet: int, news: seq<D>)
    ensures Appended(t, wallet, news).next == t.next + |news|
  {
  }

  lemma NoId(base: int)
    ensures IdMap([], base) == map[]
  {
  }

  method InsertTemplates(t0: Table<Template>, s0: Table<Schedule>, wallet: int, es: seq<Entry<Template>>,
                         schedules: seq<Entry<ScheduleDoc>>, m: Maps)
    returns (t: Table<Template>, s: Table<Schedule>, ids: map<int, int>)
    ensures t == Appended(t0, wallet, TemplateRows(m, es)) && ids == IdMap(Ids(es), t0.next)
    ensures s == Appended(s0, wallet, DataOf(ScheduleRows(es, t0.next, schedules)))
  {
    hide *;
    t, s, ids := t0, s0, map[];
    AppendNone(t0, wallet);
    AppendNone(s0, wallet);
    NoTemplateRow(m, es);
    NoScheduleRow(t0.next, schedules);
    NoId(t0.next);
    for k := 0 to |es|
      invariant t == Appended(t0, wallet, TemplateRows(m, es[..k])) && ids == IdMap(Ids(es)[..k], t0.next)
      invariant t.next == t0.next + k
      invariant s == Appended(s0, wallet, DataOf(ScheduleRows(es[..k], t0.next, schedules)))
    {
      TemplateRowsMore(m, es, k);
      AppendOne(t0, wallet, TemplateRows(m, es[..k]), TemplateRow(m, es[k].data));
      AppendedNext(t0, wallet, TemplateRows(m, es[..k + 1]));
      IdMapStep(Ids(es), k, t0.next);
      ScheduleRowsStep(es, k, t0.next, schedules);
      AppendTwice(s0, wallet, DataOf(ScheduleRows(es[..k], t0.next, schedules)),
                  DataOf(SchedulesOf(schedules, es[k].id, t0.next + k)));
      var id := t.next;
      ids := ids[es[k].id := id];
      t := Insert(t, wallet, TemplateRow(m, es[k].data));
      s := InsertSchedules(s, wallet, schedules, es[k].id, id);
    }
    NoTemplateRow(m, es);
    assert Ids(es)[..|es|] == Ids(es);
  }

  // ----- the late links -----

  lemma LinkedStep(t: Table<Txn>, es: seq<Entry<TxnDoc>>, k: nat, txns: map<int, int>, templates: map<int, int>)
    requires k < |es|
    ensures Linked(t, es[..k + 1], txns, templates) == LinkOne(Linked(t, es[..k], txns, templates), es[k], txns, templates)
  {
    assert es[..k + 1][..k] == es[..k];
  }

  lemma NoLink(t: Table<Txn>, txns: map<int, int>, templates: map<int, int>)
    ensures Linked(t, [], txns, templates) == t
  {
  }

  method LinkTemplates(t0: Table<Txn>, es: seq<Entry<TxnDoc>>, txns: map<int, int>, templates: map<int, int>)
    returns (t: Table<Txn>)
    ensures t == Linked(t0, es, txns, templates)
  {
    hide Linked;
    t := t0;
    NoLink(t0, txns, templates);
    assert es[..0] == [];
    for k := 0 to |es|
      invariant t == Linked(t0, es[..k], txns, templates)
    {
      LinkedStep(t0, es, k, txns, templates);
      var d := es[k].data;
      if d.template.None? || d.template.value !in templates || es[k].id !in txns || txns[es[k].id] !in t.rows {
        continue;
      }
      var id := txns[es[k].id];
      var row := t.rows[id];
      t := t.(rows := t.rows[id := row.(data := row.data.(template := Some(templates[d.template.value])))]);
    }
    assert es[..|es|] == es;
  }

  // ----- the whole restore -----

  function MapsOf(db: Database, doc: Document): Maps {
    Maps(IdMap(Ids(doc.currencies), db.currencies.next), IdMap(Ids(doc.accounts), db.accounts.next),
         IdMap(Ids(InOrder(doc.categories)), db.categories.next), IdMap(Ids(doc.payees), db.payees.next),
         TagMap(doc.tags, db.tags.next), IdMap(Ids(doc.vehicles), db.vehicles.next),
         IdMap(Ids(doc.transactions), db.txns.next), IdMap(Ids(doc.templates), db.templates.next))
  }

  /** The database takes the document's plain data. */
  ghost predicate BasicsFit(db: Database, doc: Document, m: Maps) {
    && AllFit(doc.currencies, MakeCurrency, SameIso)
    && AllFit(doc.accounts, MakeAccount(m.currencies), SameAccount)
    && Apart(CategoryRows(InOrder(doc.categories), db.categories.next), SameCategory)
    && AllFit(doc.payees, MakePayee(m.categories), SamePayee)
    && AllFit(doc.tags, MakeTag, SameTag)
    && AllFit(doc.vehicles, MakeVehicle, SameVehicle)
  }

  function Basics(db: Database, w: int, doc: Document, m: Maps): Database
    requires BasicsFit(db, doc, m)
  {
    db.(currencies := Appended(db.currencies, w, Made(doc.currencies, MakeCurrency)),
        accounts := Appended(db.accounts, w, Made(doc.accounts, MakeAccount(m.currencies))),
        categories := Appended(db.categories, w, CategoryRows(InOrder(doc.categories), db.categories.next)),
        payees := Appended(db.payees, w, Made(doc.payees, MakePayee(m.categories))),
        tags := Appended(db.tags, w, Made(doc.tags, MakeTag)),
        vehicles := Appended(db.vehicles, w, Made(doc.vehicles, MakeVehicle)))
  }

  /** And its transactions and transfers. */
  ghost predicate LedgerFits(doc: Document, m: Maps, user: int) {
    && AllFit(doc.transactions, MakeTxn(m, user), Never)
    && AllFit(Known(doc.transfers, MakeTransfer(m.txns)), MakeTransfer(m.txns), SameTransfer)
  }

  function Ledger(db: Database, w: int, doc: Document, m: Maps, user: int): Database
    requires LedgerFits(doc, m, user)
  {
    db.(txns := Appended(db.txns, w, Made(doc.transactions, MakeTxn(m, user))),
        transfers := Appended(db.transfers, w, Made(Known(doc.transfers, MakeTransfer(m.txns)), MakeTransfer(m.txns))))
  }

  /** And its budgets. */
  ghost predicate PlansFit(doc: Document, m: Maps) {
    AllFit(Known(doc.budgets, MakeBudget(m.categories)), MakeBudget(m.categories), SameBudget)
  }

  function Plans(db: Database, w: int, doc: Document, m: Maps): Database
    requires PlansFit(doc, m)
  {
    AlwaysMade(doc.assignments, MakeAssignment(m));
    AlwaysMade(doc.goals, MakeGoal(m.accounts));
    db.(templates := Appended(db.templates, w, TemplateRows(m, doc.templates)),
        schedules := Appended(db.schedules, w, DataOf(ScheduleRows(doc.templates, db.templates.next, doc.schedules))),
        txns := Linked(db.txns, doc.transactions, m.txns, m.templates),
        assignments := Appended(db.assignments, w, Made(doc.assignments, MakeAssignment(m))),
        budgets := Appended(db.budgets, w, Made(Known(doc.budgets, MakeBudget(m.categories)), MakeBudget(m.categories))),
        goals := Appended(db.goals, w, Made(doc.goals, MakeGoal(m.accounts))))
  }

  lemma AlwaysMade<E(!new), D>(es: seq<Entry<E>>, make: E -> Option<D>)
    requires forall d :: make(d).Some?
    ensures AllMade(es, make) && AllFit(es, make, Never)
  {
  }

  /** The document can be restored: its version is known and the database refuses none of its rows. */
  ghost predicate Acceptable(db: Database, doc: Document, user: int) {
    var m := MapsOf(db, doc);
    doc.version == VERSION && BasicsFit(db, doc, m) && LedgerFits(doc, m, user) && PlansFit(doc, m)
  }

  function NewWallet(db: Database, doc: Document, user: int): Database {
    var title := if doc.title == "" then "Restored wallet" else doc.title;
    db.(wallets := db.wallets[db.nextWallet := Wallet(title, doc.owner, BaseOf(doc.currencies, db.currencies.next), {user})],
        nextWallet := db.nextWallet + 1)
  }

  function Restored(db: Database, doc: Document, user: int): Database
    requires Acceptable(db, doc, user)
  {
    var m, w := MapsOf(db, doc), db.nextWallet;
    Plans(Ledger(Basics(NewWallet(db, doc, user), w, doc, m), w, doc, m, user), w, doc, m)
  }

  /** A transaction is of its account's wallet. */
  ghost predicate FollowAccounts(txns: Table<Txn>, accounts: Table<Account>) {
    forall i :: i in txns.rows ==> Owns(accounts, txns.rows[i].wallet, txns.rows[i].data.account)
  }

  /** All ids in use are below the next ones, the wallets' too. */
  ghost predicate Ready(db: Database) {
    && (forall w :: w in db.wallets ==> w < db.nextWallet)
    && Sits(db.currencies, db.nextWallet) && Sits(db.accounts, db.nextWallet) && Sits(db.categories, db.nextWallet)
    && Sits(db.payees, db.nextWallet) && Sits(db.tags, db.nextWallet) && Sits(db.vehicles, db.nextWallet)
    && Sits(db.txns, db.nextWallet) && Sits(db.transfers, db.nextWallet) && Sits(db.templates, db.nextWallet)
    && Sits(db.schedules, db.nextWallet) && Sits(db.assignments, db.nextWallet) && Sits(db.budgets, db.nextWallet)
    && Sits(db.goals, db.nextWallet)
    && FollowAccounts(db.txns, db.accounts)
  }

  ghost predicate Empty<D(!new)>(t: Table<D>, w: int) {
    Fits(t) && Unused(t, w)
  }

  /** No row is of the wallet to come. */
  lemma NoRowYet(db: Database)
    requires Ready(db)
    ensures var w := db.nextWallet;
            && w !in db.wallets
            && Empty(db.currencies, w) && Empty(db.accounts, w) && Empty(db.categories, w) && Empty(db.payees, w)
            && Empty(db.tags, w) && Empty(db.vehicles, w) && Empty(db.txns, w) && Empty(db.transfers, w)
            && Empty(db.templates, w) && Empty(db.schedules, w) && Empty(db.assignments, w) && Empty(db.budgets, w)
            && Empty(db.goals, w)
  {
    hide Sits, Fits, Unused, FollowAccounts;
    var w := db.nextWallet;
    NextIsUnused(db.currencies, w);
    NextIsUnused(db.accounts, w);
    NextIsUnused(db.categories, w);
    NextIsUnused(db.payees, w);
    NextIsUnused(db.tags, w);
    NextIsUnused(db.vehicles, w);
    NextIsUnused(db.txns, w);
    NextIsUnused(db.transfers, w);
    NextIsUnused(db.templates, w);
    NextIsUnused(db.schedules, w);
    NextIsUnused(db.assignments, w);
    NextIsUnused(db.budgets, w);
    NextIsUnused(db.goals, w);
  }

  method RestoreBasics(db: Database, w: int, doc: Document) returns (ok: bool, after: Database, m: Maps)
    requires Unused(db.currencies, w) && Unused(db.accounts, w) && Unused(db.categories, w) && Unused(db.payees, w)
             && Unused(db.tags, w) && Unused(db.vehicles, w)
    ensures ok <==> BasicsFit(db, doc, MapsOf(db, doc))
    ensures ok ==> after == Basics(db, w, doc, MapsOf(db, doc))
    ensures ok ==> m == MapsOf(db, doc).(txns := map[], templates := map[])
  {
    hide Unused, AllFit, Made, Appended, IdMap, Ids, InOrder, CategoryRows, TagMap, Apart, AllMade;
    after, m := db, Maps(map[], map[], map[], map[], map[], map[], map[], map[]);
    var currencies, accounts, categories, payees, tags, vehicles, ids, byName;
    ok, currencies, ids := InsertAll(db.currencies, w, doc.currencies, MakeCurrency, SameIso);
    if !ok {
      return;
    }
    m := m.(currencies := ids);
    ok, accounts, ids := InsertAll(db.accounts, w, doc.accounts, MakeAccount(m.currencies), SameAccount);
    if !ok {
      return;
    }
    m := m.(accounts := ids);
    ok, categories, ids := InsertCategories(db.categories, w, doc.categories);
    if !ok {
      return;
    }
    m := m.(categories := ids);
    ok, payees, ids := InsertAll(db.payees, w, doc.payees, MakePayee(m.categories), SamePayee);
    if !ok {
      return;
    }
    m := m.(payees := ids);
    ok, tags, byName := InsertTags(db.tags, w, doc.tags);
    if !ok {
      return;
    }
    m := m.(tags := byName);
    ok, vehicles, ids := InsertAll(db.vehicles, w, doc.vehicles, MakeVehicle, SameVehicle);
    if !ok {
      return;
    }
    m := m.(vehicles := ids);
    after := db.(currencies := currencies, accounts := accounts, categories := categories, payees := payees, tags := tags,
                 vehicles := vehicles);
  }

  method RestoreLedger(db: Database, w: int, doc: Document, known: Maps, user: int)
    returns (ok: bool, after: Database, m: Maps)
    requires Unused(db.txns, w) && Unused(db.transfers, w)
    ensures m == known.(txns := IdMap(Ids(doc.transactions), db.txns.next)) || !ok
    ensures ok <==> LedgerFits(doc, known.(txns := IdMap(Ids(doc.transactions), db.txns.next)), user)
    ensures ok ==> after == Ledger(db, w, doc, m, user)
  {
    hide Unused, AllFit, Made, Appended, IdMap, Ids, Known;
    after, m := db, known;
    var txns, transfers, ids;
    TxnMapUnused(known, IdMap(Ids(doc.transactions), db.txns.next), user);
    ok, txns, ids := InsertAll(db.txns, w, doc.transactions, MakeTxn(known, user), Never);
    SameMade(doc.transactions, MakeTxn(known, user), MakeTxn(known.(txns := IdMap(Ids(doc.transactions), db.txns.next)), user));
    if !ok {
      return;
    }
    m := m.(txns := ids);
    ok, transfers, ids := InsertAll(db.transfers, w, Known(doc.transfers, MakeTransfer(m.txns)), MakeTransfer(m.txns), SameTransfer);
    if !ok {
      return;
    }
    after := db.(txns := txns, transfers := transfers);
  }

  lemma TxnMapUnused(m: Maps, txns: map<int, int>, user: int)
    ensures forall d :: MakeTxn(m, user)(d) == MakeTxn(m.(txns := txns), user)(d)
  {
  }

  lemma SameMade<E(!new), D>(es: seq<Entry<E>>, make: E -> Option<D>, make2: E -> Option<D>)
    requires forall d :: make(d) == make2(d)
    ensures AllFit(es, make, Never) <==> AllFit(es, make2, Never)
    ensures AllFit(es, make, Never) ==> Made(es, make) == Made(es, make2)
  {
  }

  method RestorePlans(db: Database, w: int, doc: Document, known: Maps) returns (ok: bool, after: Database)
    requires Unused(db.assignments, w) && Unused(db.budgets, w) && Unused(db.goals, w)
    ensures var m := known.(templates := IdMap(Ids(doc.templates), db.templates.next));
            && (ok <==> PlansFit(doc, m))
            && (ok ==> after == Plans(db, w, doc, m))
  {
    hide Unused, AllFit, AllMade, Made, Appended, IdMap, Ids, Known, TemplateRows, ScheduleRows, DataOf, Linked;
    after := db;
    var templates, schedules, txns, assignments, budgets, goals, ids;
    ghost var all := known.(templates := IdMap(Ids(doc.templates), db.templates.next));
    TemplateMapUnused(known, all.templates, doc.templates);
    templates, schedules, ids := InsertTemplates(db.templates, db.schedules, w, doc.templates, doc.schedules, known);
    txns := LinkTemplates(db.txns, doc.transactions, known.txns, ids);
    AlwaysMade(doc.assignments, MakeAssignment(known));
    ok, assignments, ids := InsertAll(db.assignments, w, doc.assignments, MakeAssignment(known), Never);
    SameMade(doc.assignments, MakeAssignment(known), MakeAssignment(all));
    ok, budgets, ids := InsertAll(db.budgets, w, Known(doc.budgets, MakeBudget(known.categories)), MakeBudget(known.categories), SameBudget);
    if !ok {
      return;
    }
    AlwaysMade(doc.goals, MakeGoal(known.accounts));
    ok, goals, ids := InsertAll(db.goals, w, doc.goals, MakeGoal(known.accounts), Never);
    after := db.(templates := templates, schedules := schedules, txns := txns, assignments := assignments, budgets := budgets,
                 goals := goals);
  }

  lemma TemplateMapUnused(m: Maps, templates: map<int, int>, es: seq<Entry<Template>>)
    ensures TemplateRows(m, es) == TemplateRows(m.(templates := templates), es)
    ensures forall d :: MakeAssignment(m)(d) == MakeAssignment(m.(templates := templates))(d)
  {
  }

  // ----- the export -----

  function TxnToDocs(tags: Table<Tag>): Txn -> TxnDoc {
    (t: Txn) => TxnToDoc(tags, t)
  }

  function AssignmentToDocs(tags: Table<Tag>): Assignment -> AssignmentDoc {
    (a: Assignment) => AssignmentToDoc(tags, a)
  }

  /** A transaction on one of these accounts. */
  function OnAccounts(ids: seq<int>): Row<Txn> -> bool {
    (r: Row<Txn>) => r.data.account in ids
  }

  /** The order rules are tried in: by position, then by id. */
  predicate Earlier(t: Table<Assignment>, i: int, j: int)
    requires i in t.rows && j in t.rows
  {
    var p, q := t.rows[i].data.fields.position, t.rows[j].data.fields.position;
    p < q || (p == q && i < j)
  }

  ghost predicate InMatchOrder(ids: seq<int>, t: Table<Assignment>) {
    && (forall k :: 0 <= k < |ids| ==> ids[k] in t.rows)
    && forall j, k :: 0 <= j < k < |ids| ==> Earlier(t, ids[j], ids[k])
  }

  /** A document of the wallet: each of its rows once, the rules in match order, the others in some order; the transactions are those on its accounts. */
  ghost predicate IsExport(db: Database, w: int, doc: Document) {
    && w in db.wallets && doc.version == VERSION
    && doc.title == db.wallets[w].title && doc.owner == db.wallets[w].owner
    && Listed(doc.currencies, db.currencies, OfWallet(w), Same)
    && Listed(doc.accounts, db.accounts, OfWallet(w), AccountToDoc)
    && Listed(doc.payees, db.payees, OfWallet(w), Same)
    && Listed(doc.categories, db.categories, OfWallet(w), Same)
    && Listed(doc.tags, db.tags, OfWallet(w), Same)
    && Listed(doc.vehicles, db.vehicles, OfWallet(w), Same)
    && Listed(doc.transactions, db.txns, OnAccounts(Ids(doc.accounts)), TxnToDocs(db.tags))
    && Listed(doc.transfers, db.transfers, OfWallet(w), Same)
    && Listed(doc.templates, db.templates, OfWallet(w), Same)
    && Listed(doc.schedules, db.schedules, OfWallet(w), ScheduleToDoc)
    && Listed(doc.assignments, db.assignments, OfWallet(w), AssignmentToDocs(db.tags))
    && InMatchOrder(Ids(doc.assignments), db.assignments)
    && Listed(doc.budgets, db.budgets, OfWallet(w), Same)
    && Listed(doc.goals, db.goals, OfWallet(w), GoalToDoc)
  }

  lemma NoTxnYet(t: Table<Txn>, conv: Txn -> TxnDoc)
    ensures Listed([], t, OnAccounts([]), conv)
  {
  }

  /** The transactions of one more account. */
  lemma TxnsMore(t: Table<Txn>, ids: seq<int>, account: int, es: seq<Entry<TxnDoc>>, more: seq<Entry<TxnDoc>>,
                 conv: Txn -> TxnDoc)
    requires account !in ids && Listed(es, t, OnAccounts(ids), conv) && Listed(more, t, OnAccounts([account]), conv)
    ensures Listed(es + more, t, OnAccounts(ids + [account]), conv)
  {
    var a, b, all := Ids(es), Ids(more), Ids(es + more);
    assert all == a + b;
    forall i | i in a
      ensures i !in b
    {
      assert t.rows[i].data.account in ids;
    }
    forall j, k | 0 <= j < k < |all|
      ensures all[j] != all[k]
    {
      if j < |a| <= k {
        assert all[j] in a && all[k] in b;
      }
    }
  }

  predicate Earliest(t: Table<Assignment>, left: set<int>, i: int)
    requires left <= t.rows.Keys
  {
    i in left && forall j :: j in left && j != i ==> Earlier(t, i, j)
  }

  lemma {:induction false} EarliestIsThere(t: Table<Assignment>, left: set<int>)
    requires left <= t.rows.Keys && exists i :: i in left
    ensures exists i :: Earliest(t, left, i)
    decreases |left|
  {
    var x :| x in left;
    var rest := left - {x};
    if exists i :: i in rest {
      EarliestIsThere(t, rest);
      var m :| Earliest(t, rest, m);
      if Earlier(t, x, m) {
        forall j | j in rest
          ensures Earlier(t, x, j)
        {
          assert j == m || Earlier(t, m, j);
        }
        assert Earliest(t, left, x);
      } else {
        assert Earliest(t, left, m);
      }
    } else {
      assert forall j :: j in left ==> j == x;
      assert Earliest(t, left, x);
    }
  }

  /** The wallet's rules, first to last. */
  method SelectRules(t: Table<Assignment>, w: int) returns (ids: seq<int>)
    ensures Lists(ids, t, OfWallet(w)) && InMatchOrder(ids, t)
  {
    hide Earlier;
    var left := set i | i in t.rows && t.rows[i].wallet == w;
    ids := [];
    while exists i :: i in left
      invariant left <= t.rows.Keys && InMatchOrder(ids, t)
      invariant forall i :: i in ids || i in left <==> i in t.rows && t.rows[i].wallet == w
      invariant forall i :: i in ids ==> i !in left
      invariant forall k, j :: 0 <= k < |ids| && j in left ==> Earlier(t, ids[k], j)
      decreases |left|
    {
      EarliestIsThere(t, left);
      var i :| i in left && Earliest(t, left, i);
      left := left - {i};
      ids := ids + [i];
    }
    InOrderNoRepeats(ids, t);
  }

  lemma InOrderNoRepeats(ids: seq<int>, t: Table<Assignment>)
    requires InMatchOrder(ids, t)
    ensures NoRepeats(ids)
  {
  }

  method ListRules(t: Table<Assignment>, w: int, conv: Assignment -> AssignmentDoc) returns (es: seq<Entry<AssignmentDoc>>)
    ensures Listed(es, t, OfWallet(w), conv) && InMatchOrder(Ids(es), t)
  {
    var ids := SelectRules(t, w);
    es := [];
    for k := 0 to |ids|
      invariant |es| == k
      invariant forall j :: 0 <= j < k ==> ids[j] in t.rows && es[j] == Entry(ids[j], conv(t.rows[ids[j]].data))
    {
      var id := ids[k];
      es := es + [Entry(id, conv(t.rows[id].data))];
    }
    assert Ids(es) == ids;
  }

  class Store {
    var db: Database

    /** The wallet's rows, table by table, each under its id. */
    method Export(w: int) returns (doc: Option<Document>)
      ensures doc.Some? <==> w in db.wallets
      ensures doc.Some? ==> IsExport(db, w, doc.value)
    {
      hide Listed, InMatchOrder;
      if w !in db.wallets {
        return None;
      }
      var currencies := ListEntries(db.currencies, OfWallet(w), Same);
      var accounts := ListEntries(db.accounts, OfWallet(w), AccountToDoc);
      var payees := ListEntries(db.payees, OfWallet(w), Same);
      var categories := ListEntries(db.categories, OfWallet(w), Same);
      var tags := ListEntries(db.tags, OfWallet(w), Same);
      var vehicles := ListEntries(db.vehicles, OfWallet(w), Same);
      var txns := ExportTxns(db.txns, db.accounts, w, accounts, TxnToDocs(db.tags));
      var transfers := ListEntries(db.transfers, OfWallet(w), Same);
      var templates := ListEntries(db.templates, OfWallet(w), Same);
      var schedules := ListEntries(db.schedules, OfWallet(w), ScheduleToDoc);
      var assignments := ListRules(db.assignments, w, AssignmentToDocs(db.tags));
      var budgets := ListEntries(db.budgets, OfWallet(w), Same);
      var goals := ListEntries(db.goals, OfWallet(w), GoalToDoc);
      doc := Some(Document(VERSION, db.wallets[w].title, db.wallets[w].owner, currencies, accounts, payees, categories, tags,
                           vehicles, txns, transfers, templates, schedules, assignments, budgets, goals));
    }

    /** Account by account. */
    static method ExportTxns(t: Table<Txn>, ghost accounts: Table<Account>, ghost w: int, docs: seq<Entry<AccountDoc>>,
                             conv: Txn -> TxnDoc)
      returns (es: seq<Entry<TxnDoc>>)
      requires Listed(docs, accounts, OfWallet(w), AccountToDoc)
      ensures Listed(es, t, OnAccounts(Ids(docs)), conv)
    {
      es := [];
      NoTxnYet(t, conv);
      assert Ids(docs)[..0] == [];
      for k := 0 to |docs|
        invariant Listed(es, t, OnAccounts(Ids(docs)[..k]), conv)
      {
        var more := ListEntries(t, OnAccounts([docs[k].id]), conv);
        assert Ids(docs)[k] !in Ids(docs)[..k];
        TxnsMore(t, Ids(docs)[..k], docs[k].id, es, more, conv);
        es := es + more;
        assert Ids(docs)[..k + 1] == Ids(docs)[..k] + [docs[k].id];
      }
      assert Ids(docs)[..|docs|] == Ids(docs);
    }

    /** A new wallet made of the document, or, when the database refuses a row, nothing at all. */
    method Restore(user: int, doc: Document) returns (r: Option<int>)
      requires Ready(db)
      modifies this
      ensures r.Some? <==> Acceptable(old(db), doc, user)
      ensures r.Some? ==> r.value == old(db).nextWallet && db == Restored(old(db), doc, user)
      ensures r.None? ==> db == old(db)
      ensures Ready(db)
    {
      hide Unused, Fits, Sits, Ready, Acceptable, Restored, BasicsFit, LedgerFits, PlansFit, Basics, Ledger, Plans, IdMap, Ids, TagMap, InOrder,
        BaseOf;
      RestoredInSteps(db, doc, user);
      if doc.version != VERSION {
        return None;
      }
      NoRowYet(db);
      var w := db.nextWallet;
      var title := doc.title;
      if title == "" {
        title := "Restored wallet";
      }
      var wallet := Wallet(title, doc.owner, BaseOf(doc.currencies, db.currencies.next), {user});
      var db0 := db.(wallets := db.wallets[w := wallet], nextWallet := w + 1);
      WalletsDoNotCount(db, db0, doc);
      var ok, db1, m1 := RestoreBasics(db0, w, doc);
      if !ok {
        return None;
      }
      BasicsLeave(db0, w, doc, MapsOf(db0, doc));
      var db2, m2;
      ok, db2, m2 := RestoreLedger(db1, w, doc, m1, user);
      TemplatesUnused(doc, MapsOf(db0, doc), user);
      if !ok {
        return None;
      }
      LedgerLeaves(db1, w, doc, m2, user);
      var db3;
      ok, db3 := RestorePlans(db2, w, doc, m2);
      if !ok {
        return None;
      }
      RestoredIsReady(db, doc, user);
      db := db3;
      r := Some(w);
    }
  }

  lemma WalletsDoNotCount(db: Database, db0: Database, doc: Document)
    requires db0 == db.(wallets := db0.wallets, nextWallet := db0.nextWallet)
    ensures MapsOf(db0, doc) == MapsOf(db, doc)
    ensures BasicsFit(db0, doc, MapsOf(db, doc)) <==> BasicsFit(db, doc, MapsOf(db, doc))
  {
  }

  lemma BasicsLeave(db: Database, w: int, doc: Document, m: Maps)
    requires BasicsFit(db, doc, m)
    ensures var after := Basics(db, w, doc, m);
            && after.txns == db.txns && after.transfers == db.transfers && after.templates == db.templates
            && after.schedules == db.schedules && after.assignments == db.assignments && after.budgets == db.budgets
            && after.goals == db.goals && after.wallets == db.wallets && after.nextWallet == db.nextWallet
  {
  }

  lemma LedgerLeaves(db: Database, w: int, doc: Document, m: Maps, user: int)
    requires LedgerFits(doc, m, user)
    ensures var after := Ledger(db, w, doc, m, user);
            && after.templates == db.templates && after.schedules == db.schedules && after.assignments == db.assignments
            && after.budgets == db.budgets && after.goals == db.goals && after.wallets == db.wallets
            && after.nextWallet == db.nextWallet
  {
  }

  /** Neither the transactions nor the transfers need the templates' ids. */
  lemma TemplatesUnused(doc: Document, m: Maps, user: int)
    ensures LedgerFits(doc, m.(templates := map[]), user) <==> LedgerFits(doc, m, user)
    ensures forall db, w :: LedgerFits(doc, m, user) ==>
              Ledger(db, w, doc, m.(templates := map[]), user) == Ledger(db, w, doc, m, user)
  {
    var none := m.(templates := map[]);
    assert forall d :: MakeTxn(m, user)(d) == MakeTxn(none, user)(d);
    SameMade(doc.transactions, MakeTxn(m, user), MakeTxn(none, user));
  }

  lemma RestoredInSteps(db: Database, doc: Document, user: int)
    ensures var m, w, db0 := MapsOf(db, doc), db.nextWallet, NewWallet(db, doc, user);
            && (Acceptable(db, doc, user)
                <==> doc.version == VERSION && BasicsFit(db, doc, m) && LedgerFits(doc, m, user) && PlansFit(doc, m))
            && (Acceptable(db, doc, user) ==>
                  && BasicsFit(db0, doc, m)
                  && Restored(db, doc, user) == Plans(Ledger(Basics(db0, w, doc, m), w, doc, m, user), w, doc, m))
  {
    hide BasicsFit, LedgerFits, PlansFit, Basics, Ledger, Plans, MapsOf;
    WalletsDoNotCount(db, NewWallet(db, doc, user), doc);
  }

  /** Table by table, what the restore leaves. */
  lemma RestoredTables(db: Database, doc: Document, user: int)
    requires Acceptable(db, doc, user)
    ensures var m, w, after := MapsOf(db, doc), db.nextWallet, Restored(db, doc, user);
            && after.wallets == NewWallet(db, doc, user).wallets && after.nextWallet == w + 1
            && after.currencies == Appended(db.currencies, w, Made(doc.currencies, MakeCurrency))
            && after.accounts == Appended(db.accounts, w, Made(doc.accounts, MakeAccount(m.currencies)))
            && after.categories == Appended(db.categories, w, CategoryRows(InOrder(doc.categories), db.categories.next))
            && after.payees == Appended(db.payees, w, Made(doc.payees, MakePayee(m.categories)))
            && after.tags == Appended(db.tags, w, Made(doc.tags, MakeTag))
            && after.vehicles == Appended(db.vehicles, w, Made(doc.vehicles, MakeVehicle))
            && after.txns == Linked(Appended(db.txns, w, Made(doc.transactions, MakeTxn(m, user))), doc.transactions, m.txns,
                                    m.templates)
            && after.transfers == Appended(db.transfers, w, Made(Known(doc.transfers, MakeTransfer(m.txns)), MakeTransfer(m.txns)))
            && after.templates == Appended(db.templates, w, TemplateRows(m, doc.templates))
            && after.schedules == Appended(db.schedules, w, DataOf(ScheduleRows(doc.templates, db.templates.next, doc.schedules)))
            && AllMade(doc.assignments, MakeAssignment(m)) && AllMade(doc.goals, MakeGoal(m.accounts))
            && after.assignments == Appended(db.assignments, w, Made(doc.assignments, MakeAssignment(m)))
            && after.budgets == Appended(db.budgets, w, Made(Known(doc.budgets, MakeBudget(m.categories)), MakeBudget(m.categories)))
            && after.goals == Appended(db.goals, w, Made(doc.goals, MakeGoal(m.accounts)))
  {
    hide IdMap, Ids, InOrder, TagMap, Known, Appended, CategoryRows, Made, Linked, TemplateRows, ScheduleRows, DataOf, Apart, BaseOf;
    AlwaysMade(doc.assignments, MakeAssignment(MapsOf(db, doc)));
    AlwaysMade(doc.goals, MakeGoal(MapsOf(db, doc).accounts));
  }

  // ----- ready for the next restore -----

  lemma NewTxnsFollow(db: Database, doc: Document, w: int, rows: seq<Account>, txns: seq<Txn>)
    requires Sits(db.accounts, w) && Sits(db.txns, w) && FollowAccounts(db.txns, db.accounts) && |rows| == |doc.accounts|
    requires forall k :: 0 <= k < |txns| ==> db.accounts.next <= txns[k].account < db.accounts.next + |rows|
    ensures FollowAccounts(Appended(db.txns, w, txns), Appended(db.accounts, w, rows))
  {
    hide Appended;
    AppendedRows(db.txns, w, txns);
    AppendedRows(db.accounts, w, rows);
    var after, accounts := Appended(db.txns, w, txns), Appended(db.accounts, w, rows);
    forall i | i in after.rows
      ensures Owns(accounts, after.rows[i].wallet, after.rows[i].data.account)
    {
      if i in db.txns.rows {
        assert Owns(db.accounts, db.txns.rows[i].wallet, db.txns.rows[i].data.account);
      }
    }
  }

  lemma MadeAccounts(m: Maps, user: int, es: seq<Entry<TxnDoc>>, ids: seq<int>, base: int)
    requires AllMade(es, MakeTxn(m, user)) && m.accounts == IdMap(ids, base)
    ensures forall k :: 0 <= k < |es| ==> base <= Made(es, MakeTxn(m, user))[k].account < base + |ids|
  {
    IdMapKeys(ids, base);
    forall k | 0 <= k < |es|
      ensures base <= Made(es, MakeTxn(m, user))[k].account < base + |ids|
    {
      assert MakeTxn(m, user)(es[k].data).Some?;
    }
  }

  lemma LinkOneStays(t: Table<Txn>, e: Entry<TxnDoc>, txns: map<int, int>, templates: map<int, int>, w: int, accounts: Table<Account>)
    requires Sits(t, w) && FollowAccounts(t, accounts)
    ensures Sits(LinkOne(t, e, txns, templates), w) && FollowAccounts(LinkOne(t, e, txns, templates), accounts)
  {
    hide Look, Owns;
  }

  lemma {:induction false} LinkedStays(t: Table<Txn>, es: seq<Entry<TxnDoc>>, txns: map<int, int>, templates: map<int, int>, w: int,
                                       accounts: Table<Account>)
    requires Sits(t, w) && FollowAccounts(t, accounts)
    ensures Sits(Linked(t, es, txns, templates), w) && FollowAccounts(Linked(t, es, txns, templates), accounts)
  {
    hide Sits, FollowAccounts, LinkOne;
    if es != [] {
      LinkedStays(t, es[..|es| - 1], txns, templates, w, accounts);
      LinkOneStays(Linked(t, es[..|es| - 1], txns, templates), es[|es| - 1], txns, templates, w, accounts);
    }
  }

  /** Whatever document is restored, the next one finds the database ready. */
  lemma RestoredIsReady(db: Database, doc: Document, user: int)
    requires Ready(db) && Acceptable(db, doc, user)
    ensures Ready(Restored(db, doc, user))
  {
    hide IdMap, Ids, InOrder, TagMap, Known, Appended, CategoryRows, Made, Linked, TemplateRows, ScheduleRows, DataOf, Apart, BaseOf,
      Sits, FollowAccounts, Restored;
    var m, w := MapsOf(db, doc), db.nextWallet;
    RestoredTables(db, doc, user);
    AppendedSits(db.currencies, w, Made(doc.currencies, MakeCurrency));
    AppendedSits(db.accounts, w, Made(doc.accounts, MakeAccount(m.currencies)));
    AppendedSits(db.categories, w, CategoryRows(InOrder(doc.categories), db.categories.next));
    AppendedSits(db.payees, w, Made(doc.payees, MakePayee(m.categories)));
    AppendedSits(db.tags, w, Made(doc.tags, MakeTag));
    AppendedSits(db.vehicles, w, Made(doc.vehicles, MakeVehicle));
    AppendedSits(db.txns, w, Made(doc.transactions, MakeTxn(m, user)));
    AppendedSits(db.transfers, w, Made(Known(doc.transfers, MakeTransfer(m.txns)), MakeTransfer(m.txns)));
    AppendedSits(db.templates, w, TemplateRows(m, doc.templates));
    AppendedSits(db.schedules, w, DataOf(ScheduleRows(doc.templates, db.templates.next, doc.schedules)));
    AppendedSits(db.assignments, w, Made(doc.assignments, MakeAssignment(m)));
    AppendedSits(db.budgets, w, Made(Known(doc.budgets, MakeBudget(m.categories)), MakeBudget(m.categories)));
    AppendedSits(db.goals, w, Made(doc.goals, MakeGoal(m.accounts)));
    MadeAccounts(m, user, doc.transactions, Ids(doc.accounts), db.accounts.next);
    NewTxnsFollow(db, doc, w, Made(doc.accounts, MakeAccount(m.currencies)), Made(doc.transactions, MakeTxn(m, user)));
    LinkedStays(Appended(db.txns, w, Made(doc.transactions, MakeTxn(m, user))), doc.transactions, m.txns, m.templates, w + 1,
                Appended(db.accounts, w, Made(doc.accounts, MakeAccount(m.currencies))));
  }
}
