/** The copy's transactions and plans, and the whole wallet (server/internal/backup/backup.go). */
module WalletRestore {
  import opened Options
  import opened Tables
  import opened WalletBackup
  import opened WalletCopy
  import opened WalletKept

  // ----- transactions, with their late links -----

  /** The row of a transaction before and after its link. */
  function Unlinked(n: Names, user: int): Txn -> Txn {
    (t: Txn) =>
      Txn(Ref(n.accounts, t.account), Carry(n.payees, t.payee), Carry(n.categories, t.category),
          Carry(n.vehicles, t.vehicle), None, CarryAll(n.tags, t.tags), CarrySplits(n.categories, t.splits), t.fields,
          Origin("import", Some(user)))
  }

  lemma TxnIsMade(db: Database, w: int, doc: Document, user: int, t: Txn)
    requires Setting(db, w, doc) && TxnOk(db, w, t)
    ensures var n, m := NewNames(db, doc), MapsOf(db, doc);
            && MakeTxn(m, user)(TxnToDoc(db.tags, t)) == Some(Unlinked(n, user)(t))
            && Look(m.templates, t.template) == RenameTxn(n, user)(t).template
  {
    hide Ready, Listed, NamesRows, Look, Carry, IdMap, Ids, InOrder, TagMap, TagIds, CarryAll, WalletBackup.NamesOf, SplitsOf,
      CarrySplits, Unique, TagsWithin, SplitsWithin, Within,
      CurrenciesOk, AccountsOk, CategoriesOk, PayeesOk, TxnsOk, TransfersOk, PlansOk, BaseOk;
    var n := NewNames(db, doc);
    RowsAreNamed(db, w, doc);
    AccountIsNamed(db, w, n, t.account);
    LookIsCarry(n.payees, db.payees, w, t.payee);
    LookIsCarry(n.categories, db.categories, w, t.category);
    LookIsCarry(n.vehicles, db.vehicles, w, t.vehicle);
    LookIsCarry(n.templates, db.templates, w, t.template);
    TagsAreCarried(db, w, doc.tags, t.tags);
    SplitsAreCarried(db, w, n.categories, t.splits);
  }

  lemma AccountIsNamed(db: Database, w: int, n: Names, account: int)
    requires NamesRows(n.accounts, db.accounts, w) && Owns(db.accounts, w, account)
    ensures account in n.accounts
  {
  }

  function LinkedRow(row: Txn, d: TxnDoc, templates: map<int, int>): Txn {
    if Look(templates, d.template).Some? then row.(template := Look(templates, d.template)) else row
  }

  /** The first k rows linked. */
  function LinkedRows(rows: seq<Txn>, es: seq<Entry<TxnDoc>>, templates: map<int, int>, k: nat): (r: seq<Txn>)
    requires |rows| == |es| && k <= |es|
    ensures |r| == |rows|
    ensures forall i :: 0 <= i < |rows| ==> r[i] == if i < k then LinkedRow(rows[i], es[i].data, templates) else rows[i]
  {
    seq(|rows|, i requires 0 <= i < |rows| => if i < k then LinkedRow(rows[i], es[i].data, templates) else rows[i])
  }

  lemma ChangeNew(t: Table<Txn>, copy: int, rows: seq<Txn>, k: nat, row: Txn)
    requires k < |rows| && forall i :: i in t.rows ==> i < t.next
    ensures var a := Appended(t, copy, rows);
            && t.next + k in a.rows && a.rows[t.next + k] == Row(copy, rows[k])
            && Appended(t, copy, rows[k := row]) == a.(rows := a.rows[t.next + k := Row(copy, row)])
  {
    hide Appended;
    AppendedRows(t, copy, rows);
    AppendedRows(t, copy, rows[k := row]);
    AppendedNext(t, copy, rows);
    AppendedNext(t, copy, rows[k := row]);
    var a, b := Appended(t, copy, rows), Appended(t, copy, rows[k := row]);
    assert b.rows == a.rows[t.next + k := Row(copy, row)];
  }

  lemma LinkOneRow(t: Table<Txn>, copy: int, es: seq<Entry<TxnDoc>>, rows: seq<Txn>, templates: map<int, int>, k: nat)
    requires |rows| == |es| && k < |es| && NoRepeats(Ids(es)) && forall i :: i in t.rows ==> i < t.next
    ensures LinkOne(Appended(t, copy, LinkedRows(rows, es, templates, k)), es[k], IdMap(Ids(es), t.next), templates)
            == Appended(t, copy, LinkedRows(rows, es, templates, k + 1))
  {
    hide Appended, IdMap, NoRepeats, LinkedRows, Look;
    IdMapAt(Ids(es), t.next, k);
    var now, row := LinkedRows(rows, es, templates, k), LinkedRow(rows[k], es[k].data, templates);
    ChangeNew(t, copy, now, k, row);
    assert LinkedRows(rows, es, templates, k + 1) == now[k := row];
    assert now[k] == rows[k];
    assert now[k := now[k]] == now;
  }

  /** Linking changes only the new rows, each by its own entry. */
  lemma {:induction false} LinkedIsAppended(t: Table<Txn>, copy: int, es: seq<Entry<TxnDoc>>, rows: seq<Txn>,
                                            templates: map<int, int>, k: nat)
    requires |rows| == |es| && k <= |es| && NoRepeats(Ids(es)) && forall i :: i in t.rows ==> i < t.next
    ensures Linked(Appended(t, copy, rows), es[..k], IdMap(Ids(es), t.next), templates)
            == Appended(t, copy, LinkedRows(rows, es, templates, k))
    decreases k
  {
    hide Appended, LinkOne, IdMap, NoRepeats, LinkedRow;
    if k == 0 {
      assert LinkedRows(rows, es, templates, 0) == rows;
    } else {
      LinkedIsAppended(t, copy, es, rows, templates, k - 1);
      LinkedStep(Appended(t, copy, rows), es, k - 1, IdMap(Ids(es), t.next), templates);
      LinkOneRow(t, copy, es, rows, templates, k - 1);
    }
  }

  lemma TxnEntries(db: Database, w: int, doc: Document, user: int, k: nat)
    requires Setting(db, w, doc) && k < |doc.transactions|
    ensures var e, n, m := doc.transactions[k], NewNames(db, doc), MapsOf(db, doc);
            && Owns(db.txns, w, e.id)
            && var t := db.txns.rows[e.id].data;
               && MakeTxn(m, user)(e.data) == Some(Unlinked(n, user)(t))
               && LinkedRow(Unlinked(n, user)(t), e.data, m.templates) == RenameTxn(n, user)(t)
  {
    hide Ready, Listed, PicksWallet, IdMap, Ids, InOrder, MakeTxn, RenameTxn, Look, TxnOk, TagMap,
      CurrenciesOk, AccountsOk, CategoriesOk, PayeesOk, TransfersOk, PlansOk, BaseOk;
    AccountsListed(db, w, doc);
    EntryIsOwned(doc.transactions, db.txns, w, OnAccounts(Ids(doc.accounts)), TxnToDocs(db.tags), k);
    var t := db.txns.rows[doc.transactions[k].id].data;
    TxnIsMade(db, w, doc, user, t);
    RenamedTemplate(NewNames(db, doc), user, t);
  }

  lemma RenamedTemplate(n: Names, user: int, t: Txn)
    ensures RenameTxn(n, user)(t) == Unlinked(n, user)(t).(template := RenameTxn(n, user)(t).template)
    ensures RenameTxn(n, user)(t).template.None? ==> RenameTxn(n, user)(t) == Unlinked(n, user)(t)
  {
  }

  lemma TxnsCopied(db: Database, w: int, copy: int, doc: Document, user: int)
    requires Setting(db, w, doc) && Unused(db.txns, copy) && Fits(db.txns)
    ensures var n, m := NewNames(db, doc), MapsOf(db, doc);
            && AllFit(doc.transactions, MakeTxn(m, user), Never)
            && var after := Linked(Appended(db.txns, copy, Made(doc.transactions, MakeTxn(m, user))), doc.transactions, m.txns,
                                   m.templates);
               IsCopy(db.txns, after, w, copy, n.txns, RenameTxn(n, user))
  {
    hide Setting, IsCopy, Appended, IdMap, Listed, Linked, LinkedRow, MakeTxn, RenameTxn, Unlinked, Unused, NoRepeats, PicksWallet,
      InOrder, TagMap;
    var es, n, m := doc.transactions, NewNames(db, doc), MapsOf(db, doc);
    forall k | 0 <= k < |es|
      ensures Owns(db.txns, w, es[k].id) && MakeTxn(m, user)(es[k].data) == Some(Unlinked(n, user)(db.txns.rows[es[k].id].data))
    {
      TxnEntries(db, w, doc, user, k);
    }
    var rows := Made(es, MakeTxn(m, user));
    TxnsListed(db, w, doc);
    LinkedIsAppended(db.txns, copy, es, rows, m.templates, |es|);
    assert es[..|es|] == es;
    var news := LinkedRows(rows, es, m.templates, |es|);
    forall k | 0 <= k < |es|
      ensures news[k] == RenameTxn(n, user)(db.txns.rows[es[k].id].data)
    {
      TxnEntries(db, w, doc, user, k);
    }
    AppendedIsCopy(db.txns, w, copy, Ids(es), news, RenameTxn(n, user));
  }

  lemma TxnsListed(db: Database, w: int, doc: Document)
    requires Setting(db, w, doc)
    ensures NoRepeats(Ids(doc.transactions)) && forall i :: i in Ids(doc.transactions) <==> Owns(db.txns, w, i)
  {
    hide Ready, WellFormed, Listed, PicksWallet, Ids;
    AccountsListed(db, w, doc);
    EntriesOwned(doc.transactions, db.txns, w, OnAccounts(Ids(doc.accounts)), TxnToDocs(db.tags));
  }

  // ----- transfers and budgets, none passed over -----

  lemma {:induction false} AllKnown<E, D>(es: seq<Entry<E>>, make: E -> Option<D>)
    requires forall k :: 0 <= k < |es| ==> make(es[k].data).Some?
    ensures Known(es, make) == es
  {
    if es != [] {
      AllKnown(es[..|es| - 1], make);
      assert es == es[..|es| - 1] + [es[|es| - 1]];
    }
  }

  lemma NamedApart<D(!new)>(f: map<int, int>, t: Table<D>, w: int, i: int, j: int)
    requires NamesRows(f, t, w) && Owns(t, w, i) && Owns(t, w, j)
    ensures i in f && j in f && (Ref(f, i) == Ref(f, j) ==> i == j)
  {
  }

  lemma TransfersCopied(db: Database, w: int, copy: int, doc: Document)
    requires Setting(db, w, doc) && Unused(db.transfers, copy) && Fits(db.transfers)
    ensures var n := NewNames(db, doc);
            var es := Known(doc.transfers, MakeTransfer(n.txns));
            && AllFit(es, MakeTransfer(n.txns), SameTransfer)
            && HasCopy(db.transfers, Appended(db.transfers, copy, Made(es, MakeTransfer(n.txns))), w, copy, RenameTransfer(n))
  {
    hide Ready, IsCopy, Appended, Listed, AllFit, Made, IdMap, Fits, Unused, PicksWallet, Ids, InOrder, NamesRows, Known,
      CurrenciesOk, AccountsOk, CategoriesOk, PayeesOk, TxnsOk, PlansOk, BaseOk;
    var es, n, t := doc.transfers, NewNames(db, doc), db.transfers;
    OwnRows(t, w);
    RowsAreNamed(db, w, doc);
    forall i | Owns(t, w, i)
      ensures MakeTransfer(n.txns)(Same(t.rows[i].data)) == Some(RenameTransfer(n)(t.rows[i].data))
    {
      NamedApart(n.txns, db.txns, w, t.rows[i].data.from, t.rows[i].data.to);
    }
    forall i, j | Owns(t, w, i) && Owns(t, w, j) && i != j
      ensures !SameTransfer(RenameTransfer(n)(t.rows[i].data), RenameTransfer(n)(t.rows[j].data))
    {
      NamedApart(n.txns, db.txns, w, t.rows[i].data.from, t.rows[j].data.from);
      NamedApart(n.txns, db.txns, w, t.rows[i].data.to, t.rows[j].data.to);
    }
    forall k | 0 <= k < |es|
      ensures MakeTransfer(n.txns)(es[k].data).Some?
    {
      EntryIsOwned(es, t, w, OfWallet(w), Same, k);
    }
    AllKnown(es, MakeTransfer(n.txns));
    CopyFromEntries(t, w, copy, es, OfWallet(w), Same, MakeTransfer(n.txns), SameTransfer, RenameTransfer(n));
  }

  lemma BudgetsCopied(db: Database, w: int, copy: int, doc: Document)
    requires Setting(db, w, doc) && Unused(db.budgets, copy) && Fits(db.budgets)
    ensures var n := NewNames(db, doc);
            var es := Known(doc.budgets, MakeBudget(n.categories));
            && AllFit(es, MakeBudget(n.categories), SameBudget)
            && HasCopy(db.budgets, Appended(db.budgets, copy, Made(es, MakeBudget(n.categories))), w, copy, RenameBudget(n))
  {
    hide Ready, IsCopy, Appended, Listed, AllFit, Made, IdMap, Fits, Unused, PicksWallet, Ids, InOrder, NamesRows, Known,
      CurrenciesOk, AccountsOk, CategoriesOk, PayeesOk, TxnsOk, TransfersOk, BaseOk, TemplateOk, AssignmentOk, GoalOk;
    var es, n, t := doc.budgets, NewNames(db, doc), db.budgets;
    OwnRows(t, w);
    RowsAreNamed(db, w, doc);
    forall i | Owns(t, w, i)
      ensures MakeBudget(n.categories)(Same(t.rows[i].data)) == Some(RenameBudget(n)(t.rows[i].data))
    {
      NamedApart(n.categories, db.categories, w, t.rows[i].data.category, t.rows[i].data.category);
    }
    forall i, j | Owns(t, w, i) && Owns(t, w, j) && i != j
      ensures !SameBudget(RenameBudget(n)(t.rows[i].data), RenameBudget(n)(t.rows[j].data))
    {
      NamedApart(n.categories, db.categories, w, t.rows[i].data.category, t.rows[j].data.category);
    }
    forall k | 0 <= k < |es|
      ensures MakeBudget(n.categories)(es[k].data).Some?
    {
      EntryIsOwned(es, t, w, OfWallet(w), Same, k);
    }
    AllKnown(es, MakeBudget(n.categories));
    CopyFromEntries(t, w, copy, es, OfWallet(w), Same, MakeBudget(n.categories), SameBudget, RenameBudget(n));
  }

  // ----- templates, assignments, goals -----

  lemma TemplateIsMade(db: Database, w: int, doc: Document, t: Template)
    requires Setting(db, w, doc) && TemplateOk(db, w, t)
    ensures TemplateRow(MapsOf(db, doc), t) == RenameTemplate(NewNames(db, doc))(t)
  {
    hide Ready, WellFormed, Listed, NamesRows, Look, Carry, IdMap, Ids, InOrder, TagMap, SplitsOf, CarrySplits, SplitsWithin, Within;
    var n := NewNames(db, doc);
    RowsAreNamed(db, w, doc);
    LookIsCarry(n.accounts, db.accounts, w, t.account);
    LookIsCarry(n.payees, db.payees, w, t.payee);
    LookIsCarry(n.categories, db.categories, w, t.category);
    LookIsCarry(n.accounts, db.accounts, w, t.toAccount);
    SplitsAreCarried(db, w, n.categories, t.splits);
  }

  lemma TemplatesCopied(db: Database, w: int, copy: int, doc: Document)
    requires Setting(db, w, doc) && Unused(db.templates, copy) && Fits(db.templates)
    ensures var n := NewNames(db, doc);
            IsCopy(db.templates, Appended(db.templates, copy, TemplateRows(MapsOf(db, doc), doc.templates)), w, copy,
                   n.templates, RenameTemplate(n))
  {
    hide Ready, IsCopy, Appended, Listed, IdMap, Fits, Unused, PicksWallet, NoRepeats, InOrder, TagMap, TemplateRow, RenameTemplate,
      TemplateOk, CurrenciesOk, AccountsOk, CategoriesOk, PayeesOk, TxnsOk, TransfersOk, BaseOk, AssignmentOk, GoalOk, Unique;
    var es, n := doc.templates, NewNames(db, doc);
    OwnRows(db.templates, w);
    EntriesOwned(es, db.templates, w, OfWallet(w), Same);
    forall k | 0 <= k < |es|
      ensures Owns(db.templates, w, es[k].id)
      ensures TemplateRow(MapsOf(db, doc), es[k].data) == RenameTemplate(n)(db.templates.rows[es[k].id].data)
    {
      EntryIsOwned(es, db.templates, w, OfWallet(w), Same, k);
      TemplateIsMade(db, w, doc, es[k].data);
    }
    AppendedIsCopy(db.templates, w, copy, Ids(es), TemplateRows(MapsOf(db, doc), es), RenameTemplate(n));
  }

  lemma AssignmentIsMade(db: Database, w: int, doc: Document, a: Assignment)
    requires Setting(db, w, doc) && AssignmentOk(db, w, a)
    ensures MakeAssignment(MapsOf(db, doc))(AssignmentToDoc(db.tags, a)) == Some(RenameAssignment(NewNames(db, doc))(a))
  {
    hide Ready, Listed, NamesRows, Look, Carry, IdMap, Ids, InOrder, TagMap, TagIds, CarryAll, WalletBackup.NamesOf, Unique,
      TagsWithin, Within, CurrenciesOk, AccountsOk, CategoriesOk, PayeesOk, TxnsOk, TransfersOk, PlansOk, BaseOk;
    var n := NewNames(db, doc);
    RowsAreNamed(db, w, doc);
    LookIsCarry(n.payees, db.payees, w, a.payee);
    LookIsCarry(n.categories, db.categories, w, a.category);
    LookIsCarry(n.accounts, db.accounts, w, a.account);
    TagsAreCarried(db, w, doc.tags, a.tags);
  }

  lemma AssignmentsCopied(db: Database, w: int, copy: int, doc: Document)
    requires Setting(db, w, doc) && Unused(db.assignments, copy) && Fits(db.assignments)
    ensures var n, m := NewNames(db, doc), MapsOf(db, doc);
            && AllFit(doc.assignments, MakeAssignment(m), Never)
            && IsCopy(db.assignments, Appended(db.assignments, copy, Made(doc.assignments, MakeAssignment(m))), w, copy,
                      n.assignments, RenameAssignment(n))
  {
    hide Ready, IsCopy, Appended, Listed, AllFit, Made, IdMap, Fits, Unused, PicksWallet, Ids, InOrder, TagMap, MakeAssignment,
      RenameAssignment, AssignmentOk, CurrenciesOk, AccountsOk, CategoriesOk, PayeesOk, TxnsOk, TransfersOk, BaseOk, TemplateOk,
      GoalOk, Unique;
    var es, n, m, t := doc.assignments, NewNames(db, doc), MapsOf(db, doc), db.assignments;
    OwnRows(t, w);
    forall i | Owns(t, w, i)
      ensures MakeAssignment(m)(AssignmentToDocs(db.tags)(t.rows[i].data)) == Some(RenameAssignment(n)(t.rows[i].data))
    {
      AssignmentIsMade(db, w, doc, t.rows[i].data);
    }
    CopyFromEntries(t, w, copy, es, OfWallet(w), AssignmentToDocs(db.tags), MakeAssignment(m), Never, RenameAssignment(n));
  }

  lemma GoalsCopied(db: Database, w: int, copy: int, doc: Document)
    requires Setting(db, w, doc) && Unused(db.goals, copy) && Fits(db.goals)
    ensures var n := NewNames(db, doc);
            && AllFit(doc.goals, MakeGoal(n.accounts), Never)
            && HasCopy(db.goals, Appended(db.goals, copy, Made(doc.goals, MakeGoal(n.accounts))), w, copy, RenameGoal(n))
  {
    hide Ready, IsCopy, Appended, Listed, AllFit, Made, IdMap, Fits, Unused, PicksWallet, Ids, InOrder, NamesRows, Look, Carry,
      CurrenciesOk, AccountsOk, CategoriesOk, PayeesOk, TxnsOk, TransfersOk, BaseOk, TemplateOk, AssignmentOk, Unique, Within;
    var es, n, t := doc.goals, NewNames(db, doc), db.goals;
    OwnRows(t, w);
    RowsAreNamed(db, w, doc);
    forall i | Owns(t, w, i)
      ensures MakeGoal(n.accounts)(GoalToDoc(t.rows[i].data)) == Some(RenameGoal(n)(t.rows[i].data))
    {
      LookIsCarry(n.accounts, db.accounts, w, t.rows[i].data.account);
    }
    CopyFromEntries(t, w, copy, es, OfWallet(w), GoalToDoc, MakeGoal(n.accounts), Never, RenameGoal(n));
  }

  // ----- schedules, template by template -----

  predicate IsPlace(es: seq<Entry<ScheduleDoc>>, j: int) {
    0 <= j < |es|
  }

  /** The document's places of one template's schedules, in order. */
  lemma {:induction false} PlacesOfOne(es: seq<Entry<ScheduleDoc>>, id: int, template: int) returns (js: seq<int>)
    ensures var r := SchedulesOf(es, id, template);
            && |js| == |r|
            && (forall k :: 0 <= k < |js| ==>
                  && IsPlace(es, js[k]) && es[js[k]].data.template == id
                  && r[k] == Entry(es[js[k]].id, Schedule(template, es[js[k]].data.fields, None)))
            && (forall j :: IsPlace(es, j) && es[j].data.template == id ==> j in js)
            && NoRepeats(js)
  {
    if es == [] {
      js := [];
    } else {
      var n := |es| - 1;
      js := PlacesOfOne(es[..n], id, template);
      if es[n].data.template == id {
        js := js + [n];
      }
    }
  }

  ghost predicate PlacedUpTo(templates: seq<Entry<Template>>, n: nat, base: int, es: seq<Entry<ScheduleDoc>>, js: seq<int>)
    requires n <= |templates|
  {
    var r, f := ScheduleRows(templates[..n], base, es), IdMap(Ids(templates), base);
    && |js| == |r| && NoRepeats(js)
    && (forall k :: 0 <= k < |js| ==>
          && IsPlace(es, js[k]) && es[js[k]].data.template in Ids(templates)[..n]
          && r[k] == Entry(es[js[k]].id, Schedule(Ref(f, es[js[k]].data.template), es[js[k]].data.fields, None)))
    && (forall j :: IsPlace(es, j) && es[j].data.template in Ids(templates)[..n] ==> j in js)
  }

  lemma PlacedMore(templates: seq<Entry<Template>>, n: nat, base: int, es: seq<Entry<ScheduleDoc>>, js: seq<int>, more: seq<int>)
    requires n < |templates| && NoRepeats(Ids(templates)) && PlacedUpTo(templates, n, base, es, js)
    requires var r := SchedulesOf(es, templates[n].id, base + n);
             && |more| == |r|
             && (forall k :: 0 <= k < |more| ==>
                   && IsPlace(es, more[k]) && es[more[k]].data.template == templates[n].id
                   && r[k] == Entry(es[more[k]].id, Schedule(base + n, es[more[k]].data.fields, None)))
             && (forall j :: IsPlace(es, j) && es[j].data.template == templates[n].id ==> j in more)
             && NoRepeats(more)
    ensures PlacedUpTo(templates, n + 1, base, es, js + more)
  {
    hide IdMap, SchedulesOf;
    var ids := Ids(templates);
    IdMapAt(ids, base, n);
    assert templates[..n + 1][..n] == templates[..n] && templates[..n + 1][n] == templates[n];
    assert ids[..n + 1] == ids[..n] + [ids[n]];
    assert ids[n] !in ids[..n];
    forall i, k | 0 <= i < k < |js + more|
      ensures (js + more)[i] != (js + more)[k]
    {
      if i < |js| <= k {
        assert es[js[i]].data.template in ids[..n];
        assert es[more[k - |js|]].data.template == ids[n];
      }
    }
  }

  lemma {:induction false} PlacesUpTo(templates: seq<Entry<Template>>, n: nat, base: int, es: seq<Entry<ScheduleDoc>>)
    returns (js: seq<int>)
    requires n <= |templates| && NoRepeats(Ids(templates))
    ensures PlacedUpTo(templates, n, base, es, js)
  {
    if n == 0 {
      js := [];
    } else {
      hide PlacedUpTo;
      js := PlacesUpTo(templates, n - 1, base, es);
      var more := PlacesOfOne(es, templates[n - 1].id, base + n - 1);
      PlacedMore(templates, n - 1, base, es, js, more);
      js := js + more;
    }
  }

  lemma ScheduleTemplates(db: Database, w: int, doc: Document, j: nat)
    requires Setting(db, w, doc) && j < |doc.schedules|
    ensures Owns(db.schedules, w, doc.schedules[j].id)
    ensures doc.schedules[j].data == ScheduleToDoc(db.schedules.rows[doc.schedules[j].id].data)
    ensures doc.schedules[j].data.template in Ids(doc.templates)
    ensures NoRepeats(Ids(doc.schedules)) && forall i :: i in Ids(doc.schedules) <==> Owns(db.schedules, w, i)
  {
    hide Ready, Listed, NoRepeats, CurrenciesOk, AccountsOk, CategoriesOk, PayeesOk, TxnsOk, TransfersOk, BaseOk, Ids,
      PicksWallet;
    OwnRows(db.schedules, w);
    OwnRows(db.templates, w);
    EntriesOwned(doc.schedules, db.schedules, w, OfWallet(w), ScheduleToDoc);
    EntriesOwned(doc.templates, db.templates, w, OfWallet(w), Same);
    EntryIsOwned(doc.schedules, db.schedules, w, OfWallet(w), ScheduleToDoc, j);
  }

  lemma SchedulesListed(db: Database, w: int, doc: Document)
    requires Setting(db, w, doc)
    ensures NoRepeats(Ids(doc.schedules)) && (forall i :: i in Ids(doc.schedules) <==> Owns(db.schedules, w, i))
    ensures NoRepeats(Ids(doc.templates))
  {
    hide Ready, WellFormed, Listed, NoRepeats, Ids, PicksWallet;
    OwnRows(db.schedules, w);
    OwnRows(db.templates, w);
    EntriesOwned(doc.schedules, db.schedules, w, OfWallet(w), ScheduleToDoc);
    EntriesOwned(doc.templates, db.templates, w, OfWallet(w), Same);
  }

  /** In the order of the templates, each schedule of the wallet once. */
  lemma SchedulesPlaced(db: Database, w: int, doc: Document, js: seq<int>)
    requires Setting(db, w, doc) && PlacedUpTo(doc.templates, |doc.templates|, db.templates.next, doc.schedules, js)
    ensures var r := ScheduleRows(doc.templates, db.templates.next, doc.schedules);
            && NoRepeats(Ids(r)) && (forall i :: i in Ids(r) <==> Owns(db.schedules, w, i))
            && forall k :: 0 <= k < |r| ==>
                 && Owns(db.schedules, w, r[k].id)
                 && r[k].data == RenameSchedule(NewNames(db, doc))(db.schedules.rows[r[k].id].data)
  {
    hide Setting, IdMap, ScheduleRows, InOrder;
    var es, ts := doc.schedules, doc.templates;
    var r := ScheduleRows(ts, db.templates.next, es);
    assert ts[..|ts|] == ts && Ids(ts)[..|ts|] == Ids(ts);
    SchedulesListed(db, w, doc);
    forall k | 0 <= k < |r|
      ensures Owns(db.schedules, w, r[k].id)
      ensures r[k].data == RenameSchedule(NewNames(db, doc))(db.schedules.rows[r[k].id].data)
    {
      ScheduleTemplates(db, w, doc, js[k]);
    }
    forall i, k | 0 <= i < k < |r|
      ensures Ids(r)[i] != Ids(r)[k]
    {
      assert js[i] != js[k] && Ids(es)[js[i]] != Ids(es)[js[k]];
    }
    forall i | Owns(db.schedules, w, i)
      ensures i in Ids(r)
    {
      var j :| 0 <= j < |es| && Ids(es)[j] == i;
      ScheduleTemplates(db, w, doc, j);
      assert IsPlace(es, j);
      var k :| 0 <= k < |js| && js[k] == j;
      assert Ids(r)[k] == i;
    }
  }

  lemma SchedulesCopied(db: Database, w: int, copy: int, doc: Document)
    requires Setting(db, w, doc) && Unused(db.schedules, copy) && Fits(db.schedules)
    ensures var rows := DataOf(ScheduleRows(doc.templates, db.templates.next, doc.schedules));
            HasCopy(db.schedules, Appended(db.schedules, copy, rows), w, copy, RenameSchedule(NewNames(db, doc)))
  {
    hide Setting, IdMap, ScheduleRows, PlacedUpTo, IsCopy, Appended, Unused, Fits, NoRepeats, InOrder;
    SchedulesListed(db, w, doc);
    var js := PlacesUpTo(doc.templates, |doc.templates|, db.templates.next, doc.schedules);
    SchedulesPlaced(db, w, doc, js);
    var r := ScheduleRows(doc.templates, db.templates.next, doc.schedules);
    AppendedIsCopy(db.schedules, w, copy, Ids(r), DataOf(r), RenameSchedule(NewNames(db, doc)));
  }

  // ----- the base currency -----

  lemma {:induction false} TheBase(es: seq<Entry<Currency>>, base: int, k: int)
    requires -1 <= k < |es| && forall j :: 0 <= j < |es| ==> (es[j].data.isBase <==> j == k)
    ensures BaseOf(es, base) == if k < 0 then None else Some(base + k)
  {
    if es != [] && k < |es| - 1 {
      TheBase(es[..|es| - 1], base, k);
    }
  }

  lemma BaseIsCarried(db: Database, w: int, doc: Document)
    requires Setting(db, w, doc)
    ensures BaseOf(doc.currencies, db.currencies.next) == Carry(NewNames(db, doc).currencies, db.wallets[w].base)
  {
    hide Ready, Listed, PicksWallet, CurrenciesOk, AccountsOk, CategoriesOk, PayeesOk, TxnsOk, TransfersOk, PlansOk, IdMap, BaseOf,
      InOrder;
    var es, b := doc.currencies, db.wallets[w].base;
    OwnRows(db.currencies, w);
    EntriesOwned(es, db.currencies, w, OfWallet(w), Same);
    forall j | 0 <= j < |es|
      ensures es[j].data.isBase <==> b == Some(es[j].id)
    {
      EntryIsOwned(es, db.currencies, w, OfWallet(w), Same, j);
    }
    if b.Some? {
      var k :| 0 <= k < |es| && Ids(es)[k] == b.value;
      forall j | 0 <= j < |es|
        ensures es[j].id == b.value <==> j == k
      {
        assert j != k ==> Ids(es)[j] != Ids(es)[k];
      }
      TheBase(es, db.currencies.next, k);
      IdMapAt(Ids(es), db.currencies.next, k);
    } else {
      TheBase(es, db.currencies.next, -1);
    }
  }

  // ----- the whole wallet -----

  lemma BackupIsAcceptable(db: Database, w: int, doc: Document, user: int)
    requires Setting(db, w, doc)
    ensures Acceptable(db, doc, user)
  {
    hide WellFormed, AllFit, Apart, IdMap, Ids, InOrder, TagMap, Known, IsCopy, HasCopy, Appended, CategoryRows, Listed, Made, Fits,
      Unused, Linked;
    var copy := db.nextWallet;
    NoRowYet(db);
    CurrenciesCopied(db, w, copy, doc);
    AccountsCopied(db, w, copy, doc);
    CategoriesCopied(db, w, copy, doc);
    PayeesCopied(db, w, copy, doc);
    TagsCopied(db, w, copy, doc);
    VehiclesCopied(db, w, copy, doc);
    TxnsCopied(db, w, copy, doc, user);
    TransfersCopied(db, w, copy, doc);
    BudgetsCopied(db, w, copy, doc);
  }

  /** The wallet as it comes back: only an empty title becomes another one. */
  function WalletAgain(wallet: Wallet, n: Names, user: int): Wallet {
    Wallet(if wallet.title == "" then "Restored wallet" else wallet.title, wallet.owner, Carry(n.currencies, wallet.base), {user})
  }

  lemma RestoreIsIsomorphic(db: Database, w: int, doc: Document, user: int)
    requires Ready(db) && WellFormed(db, w) && IsExport(db, w, doc)
    ensures Acceptable(db, doc, user)
    ensures var n, copy, after := NewNames(db, doc), db.nextWallet, Restored(db, doc, user);
            && Isomorphic(db, after, w, copy, n, user)
            && AllNamed(db, w, n)
            && after.wallets == db.wallets[copy := WalletAgain(db.wallets[w], n, user)]
  {
    hide WellFormed, AllFit, Apart, IdMap, Ids, InOrder, TagMap, Known, IsCopy, HasCopy, Appended, CategoryRows, Listed, Made, Fits,
      Unused, Linked, Restored, Acceptable, TemplateRows, ScheduleRows, DataOf, BaseOf, AllNamed, AllMade;
    var copy := db.nextWallet;
    NoRowYet(db);
    BackupIsAcceptable(db, w, doc, user);
    RestoredTables(db, doc, user);
    CurrenciesCopied(db, w, copy, doc);
    AccountsCopied(db, w, copy, doc);
    CategoriesCopied(db, w, copy, doc);
    PayeesCopied(db, w, copy, doc);
    TagsCopied(db, w, copy, doc);
    VehiclesCopied(db, w, copy, doc);
    TxnsCopied(db, w, copy, doc, user);
    TransfersCopied(db, w, copy, doc);
    TemplatesCopied(db, w, copy, doc);
    SchedulesCopied(db, w, copy, doc);
    AssignmentsCopied(db, w, copy, doc);
    BudgetsCopied(db, w, copy, doc);
    GoalsCopied(db, w, copy, doc);
    RowsAreNamed(db, w, doc);
    BaseIsCarried(db, w, doc);
  }

  lemma RulesAreListed(db: Database, w: int, doc: Document)
    requires IsExport(db, w, doc)
    ensures InMatchOrder(Ids(doc.assignments), db.assignments) && NoRepeats(Ids(doc.assignments))
  {
    hide InMatchOrder, Ids, NoRepeats;
  }

  /**
   * Restoring any backup of a well-formed wallet succeeds and makes the same wallet under fresh ids, with every reference
   * carried over and the rules tried in the same order; no other wallet's row changes. The copy is well formed, other
   * wallets stay so, and the database is ready for the next restore.
   */
  lemma RestoreGivesTheSameWallet(db: Database, w: int, doc: Document, user: int)
    requires Ready(db) && WellFormed(db, w) && IsExport(db, w, doc)
    ensures Acceptable(db, doc, user)
    ensures var n, copy, after := NewNames(db, doc), db.nextWallet, Restored(db, doc, user);
            && Isomorphic(db, after, w, copy, n, user)
            && AllNamed(db, w, n)
            && after.wallets == db.wallets[copy := WalletAgain(db.wallets[w], n, user)]
            && SameMatchOrder(db.assignments, after.assignments, n.assignments)
            && WellFormed(after, copy)
            && (forall other :: WellFormed(db, other) ==> WellFormed(after, other))
            && Ready(after)
  {
    hide WellFormed, Acceptable, Restored, AllNamed, Listed, Ids, IdMap, InOrder, IsCopy, HasCopy, IsExport, SameMatchOrder, Carry,
      SameWallet, Ready;
    RestoreIsIsomorphic(db, w, doc, user);
    var n, copy, after := NewNames(db, doc), db.nextWallet, Restored(db, doc, user);
    RulesAreListed(db, w, doc);
    RulesKeepTheirOrder(db.assignments, after.assignments, w, copy, Ids(doc.assignments), n);
    CopyIsWellFormed(db, after, w, copy, n, user);
    RestoredIsReady(db, doc, user);
    forall other | WellFormed(db, other)
      ensures WellFormed(after, other)
    {
      IsAWallet(db, other);
      OthersAreKept(db, after, w, copy, n, user, other);
      SameStaysWellFormed(db, after, other);
    }
  }

  lemma IsAWallet(db: Database, w: int)
    requires WellFormed(db, w) && Ready(db)
    ensures w in db.wallets && w != db.nextWallet
  {
    hide Sits;
  }

  /** A backup of the copy restores as well, and gives the same wallet once more. */
  lemma RestoreAgain(db: Database, w: int, doc: Document, user: int, again: Document, user2: int)
    requires Ready(db) && WellFormed(db, w) && IsExport(db, w, doc) && Acceptable(db, doc, user)
    requires IsExport(Restored(db, doc, user), db.nextWallet, again)
    ensures var after := Restored(db, doc, user);
            && Acceptable(after, again, user2)
            && var last := Restored(after, again, user2);
               && Isomorphic(after, last, db.nextWallet, after.nextWallet, NewNames(after, again), user2)
               && WellFormed(last, w) && WellFormed(last, db.nextWallet) && WellFormed(last, after.nextWallet)
  {
    hide WellFormed, Acceptable, Restored, IsExport, Isomorphic, Ready, AllNamed, SameMatchOrder;
    RestoreGivesTheSameWallet(db, w, doc, user);
    RestoreGivesTheSameWallet(Restored(db, doc, user), db.nextWallet, again, user2);
  }

  /** Three levels would not come back: listed before its parent, the third loses it. */
  lemma AThirdLevelLosesItsParent(base: int)
    requires base > 0
    ensures var top := Entry(1, Category(None, "A", false, false, false));
            var second := Entry(2, Category(Some(1), "C", false, false, false));
            var third := Entry(3, Category(Some(2), "B", false, false, false));
            var order := InOrder([top, third, second]);
            order == [top, third, second] && CategoryRow(order, base, 1).parent == None
  {
    var top := Entry(1, Category(None, "A", false, false, false));
    var second := Entry(2, Category(Some(1), "C", false, false, false));
    var third := Entry(3, Category(Some(2), "B", false, false, false));
    var es := [top, third, second];
    TopsStep(es, 0);
    TopsStep(es, 1);
    TopsStep(es, 2);
    assert es[..0] == [] && es[..3] == es;
    assert Tops(es) == [top] && Subs(es) == [third, second];
    assert InOrder(es) == es;
    assert es[..1] == [top] && Ids([top]) == [1] && [1][..0] == [];
    assert IdMap([1], base) == map[1 := base];
  }
}
