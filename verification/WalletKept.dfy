/** What a copied wallet keeps: it is well formed again, and so is every other wallet (server/internal/backup/backup.go). */
module WalletKept {
  import opened Options
  import opened Tables
  import opened WalletBackup
  import opened WalletCopy

  // ----- other wallets -----

  /** A wallet's rows are the same in both tables. */
  ghost predicate SameRows<D(!new)>(t: Table<D>, u: Table<D>, w: int) {
    forall i :: (Owns(t, w, i) <==> Owns(u, w, i)) && (Owns(t, w, i) ==> u.rows[i] == t.rows[i])
  }

  lemma OthersAreSame<D(!new)>(t: Table<D>, u: Table<D>, copy: int, other: int)
    requires OthersStay(t, u, copy) && other != copy
    ensures SameRows(t, u, other)
  {
  }

  lemma CopyLeavesOthers<D(!new)>(t: Table<D>, u: Table<D>, w: int, copy: int, rename: D -> D, other: int)
    requires HasCopy(t, u, w, copy, rename) && other != copy
    ensures SameRows(t, u, other)
  {
    hide OthersStay, SameRows, NamesRows, RowsCopied, AllReached;
    OthersAreSame(t, u, copy, other);
  }

  ghost predicate SameWallet(db: Database, after: Database, w: int) {
    && w in db.wallets && w in after.wallets && after.wallets[w] == db.wallets[w]
    && SameRows(db.currencies, after.currencies, w) && SameRows(db.accounts, after.accounts, w)
    && SameRows(db.categories, after.categories, w) && SameRows(db.payees, after.payees, w)
    && SameRows(db.tags, after.tags, w) && SameRows(db.vehicles, after.vehicles, w)
    && SameRows(db.txns, after.txns, w) && SameRows(db.transfers, after.transfers, w)
    && SameRows(db.templates, after.templates, w) && SameRows(db.schedules, after.schedules, w)
    && SameRows(db.assignments, after.assignments, w) && SameRows(db.budgets, after.budgets, w)
    && SameRows(db.goals, after.goals, w)
  }

  lemma OthersAreKept(db: Database, after: Database, w: int, copy: int, n: Names, user: int, other: int)
    requires Isomorphic(db, after, w, copy, n, user) && other != copy
    requires other in db.wallets && other in after.wallets && after.wallets[other] == db.wallets[other]
    ensures SameWallet(db, after, other)
  {
    hide OthersStay, SameRows, NamesRows, RowsCopied, AllReached, HasCopy;
    OthersAreSame(db.currencies, after.currencies, copy, other);
    OthersAreSame(db.accounts, after.accounts, copy, other);
    OthersAreSame(db.categories, after.categories, copy, other);
    OthersAreSame(db.payees, after.payees, copy, other);
    OthersAreSame(db.tags, after.tags, copy, other);
    OthersAreSame(db.vehicles, after.vehicles, copy, other);
    OthersAreSame(db.txns, after.txns, copy, other);
    OthersAreSame(db.templates, after.templates, copy, other);
    OthersAreSame(db.assignments, after.assignments, copy, other);
    CopyLeavesOthers(db.transfers, after.transfers, w, copy, RenameTransfer(n), other);
    CopyLeavesOthers(db.schedules, after.schedules, w, copy, RenameSchedule(n), other);
    CopyLeavesOthers(db.budgets, after.budgets, w, copy, RenameBudget(n), other);
    CopyLeavesOthers(db.goals, after.goals, w, copy, RenameGoal(n), other);
  }

  lemma UniqueStays<D(!new)>(t: Table<D>, u: Table<D>, w: int, clash: (D, D) -> bool)
    requires SameRows(t, u, w) && Unique(t, w, clash)
    ensures Unique(u, w, clash)
  {
  }

  lemma BasicsStayOk(db: Database, after: Database, w: int)
    requires SameWallet(db, after, w)
    requires BaseOk(db, w) && CurrenciesOk(db, w) && AccountsOk(db, w) && CategoriesOk(db, w) && PayeesOk(db, w)
    ensures BaseOk(after, w) && CurrenciesOk(after, w) && AccountsOk(after, w) && CategoriesOk(after, w) && PayeesOk(after, w)
  {
    hide Unique, OneRateADate;
    UniqueStays(db.currencies, after.currencies, w, SameIso);
    UniqueStays(db.accounts, after.accounts, w, SameAccount);
    UniqueStays(db.categories, after.categories, w, SameCategory);
    UniqueStays(db.payees, after.payees, w, SamePayee);
  }

  lemma TxnStaysOk(db: Database, after: Database, w: int, t: Txn)
    requires SameWallet(db, after, w) && TxnOk(db, w, t)
    ensures TxnOk(after, w, t)
  {
  }

  lemma LedgerStaysOk(db: Database, after: Database, w: int)
    requires SameWallet(db, after, w) && TxnsOk(db, w) && TransfersOk(db, w)
    ensures TxnsOk(after, w) && TransfersOk(after, w)
  {
    hide Unique, TxnOk;
    UniqueStays(db.transfers, after.transfers, w, SameTransfer);
    forall i | Owns(after.txns, w, i)
      ensures TxnOk(after, w, after.txns.rows[i].data)
    {
      assert Owns(db.txns, w, i);
      TxnStaysOk(db, after, w, db.txns.rows[i].data);
    }
  }

  lemma PlansStayOk(db: Database, after: Database, w: int)
    requires SameWallet(db, after, w) && PlansOk(db, w)
    ensures PlansOk(after, w)
  {
    hide Unique;
    UniqueStays(db.budgets, after.budgets, w, SameBudget);
  }

  lemma SameStaysWellFormed(db: Database, after: Database, w: int)
    requires SameWallet(db, after, w) && WellFormed(db, w)
    ensures WellFormed(after, w)
  {
    hide SameRows, Unique, BaseOk, CurrenciesOk, AccountsOk, CategoriesOk, PayeesOk, TxnsOk, TransfersOk, PlansOk;
    BasicsStayOk(db, after, w);
    LedgerStaysOk(db, after, w);
    PlansStayOk(db, after, w);
    UniqueStays(db.tags, after.tags, w, SameTag);
    UniqueStays(db.vehicles, after.vehicles, w, SameVehicle);
  }

  // ----- the copy -----

  /** Every row of the copy is the renamed one of the wallet's. */
  lemma Original<D(!new)>(t: Table<D>, u: Table<D>, w: int, copy: int, f: map<int, int>, rename: D -> D, j: int)
    returns (i: int)
    requires IsCopy(t, u, w, copy, f, rename) && Owns(u, copy, j)
    ensures Owns(t, w, i) && i in f && f[i] == j && u.rows[j].data == rename(t.rows[i].data)
  {
    assert Reaches(f, j);
    i :| i in f && f[i] == j;
  }

  lemma RefIsOwned<D(!new)>(t: Table<D>, u: Table<D>, w: int, copy: int, f: map<int, int>, rename: D -> D, i: int)
    requires IsCopy(t, u, w, copy, f, rename) && Owns(t, w, i)
    ensures Owns(u, copy, Ref(f, i)) && u.rows[Ref(f, i)].data == rename(t.rows[i].data)
  {
  }

  lemma CarryIsWithin<D(!new)>(t: Table<D>, u: Table<D>, w: int, copy: int, f: map<int, int>, rename: D -> D, p: Option<int>)
    requires IsCopy(t, u, w, copy, f, rename) && Within(t, w, p)
    ensures Within(u, copy, Carry(f, p))
  {
    hide IsCopy;
    if p.Some? {
      RefIsOwned(t, u, w, copy, f, rename, p.value);
    }
  }

  lemma UniqueCopied<D(!new)>(t: Table<D>, u: Table<D>, w: int, copy: int, f: map<int, int>, rename: D -> D,
                              clash: (D, D) -> bool)
    requires IsCopy(t, u, w, copy, f, rename) && UniqueRenamed(t, w, clash, rename)
    ensures Unique(u, copy, clash)
  {
    hide IsCopy;
    forall a, b | Owns(u, copy, a) && Owns(u, copy, b) && a != b
      ensures !clash(u.rows[a].data, u.rows[b].data)
    {
      var i := Original(t, u, w, copy, f, rename, a);
      var j := Original(t, u, w, copy, f, rename, b);
    }
  }

  lemma SplitsCopied(db: Database, after: Database, w: int, copy: int, n: Names, splits: seq<Split>)
    requires IsCopy(db.categories, after.categories, w, copy, n.categories, RenameCategory(n)) && SplitsWithin(db, w, splits)
    ensures SplitsWithin(after, copy, CarrySplits(n.categories, splits))
  {
    hide IsCopy, Carry, Within, RenameCategory;
    forall k | 0 <= k < |splits|
      ensures Within(after.categories, copy, Carry(n.categories, splits[k].category))
    {
      CarryIsWithin(db.categories, after.categories, w, copy, n.categories, RenameCategory(n), splits[k].category);
    }
  }

  lemma TagsCopiedWithin(db: Database, after: Database, w: int, copy: int, n: Names, tags: seq<int>)
    requires IsCopy(db.tags, after.tags, w, copy, n.tags, Same) && TagsWithin(db, w, tags)
    ensures TagsWithin(after, copy, CarryAll(n.tags, tags))
  {
    forall k | 0 <= k < |tags|
      ensures Owns(after.tags, copy, CarryAll(n.tags, tags)[k])
    {
      RefIsOwned(db.tags, after.tags, w, copy, n.tags, Same, tags[k]);
    }
    forall j, k | 0 <= j < k < |tags|
      ensures CarryAll(n.tags, tags)[j] != CarryAll(n.tags, tags)[k]
    {
      assert tags[j] in n.tags && tags[k] in n.tags;
    }
  }

  /** The wallet, its copy, and the names between them. */
  ghost predicate Copied(db: Database, after: Database, w: int, copy: int, n: Names, user: int) {
    && Isomorphic(db, after, w, copy, n, user) && WellFormed(db, w)
    && copy in after.wallets && after.wallets[copy].base == Carry(n.currencies, db.wallets[w].base)
  }

  lemma CurrenciesAgain(db: Database, after: Database, w: int, copy: int, n: Names, user: int)
    requires Copied(db, after, w, copy, n, user)
    ensures BaseOk(after, copy) && CurrenciesOk(after, copy)
  {
    hide IsCopy, HasCopy, OneRateADate, AccountsOk, CategoriesOk, PayeesOk, TxnsOk, TransfersOk, PlansOk;
    var t, u, f, base := db.currencies, after.currencies, n.currencies, db.wallets[w].base;
    UniqueCopied(t, u, w, copy, f, Same, SameIso);
    CarryIsWithin(t, u, w, copy, f, Same, base);
    forall j | Owns(u, copy, j)
      ensures OneRateADate(u.rows[j].data.rates) && (u.rows[j].data.isBase <==> Carry(f, base) == Some(j))
    {
      var i := Original(t, u, w, copy, f, Same, j);
      if base.Some? {
        RefsDiffer(t, u, w, copy, f, Same, i, base.value);
      }
    }
  }

  lemma RefsDiffer<D(!new)>(t: Table<D>, u: Table<D>, w: int, copy: int, f: map<int, int>, rename: D -> D, i: int, j: int)
    requires IsCopy(t, u, w, copy, f, rename) && Owns(t, w, i) && Owns(t, w, j)
    ensures Ref(f, i) == Ref(f, j) <==> i == j
    ensures i in f && j in f
  {
  }

  lemma AccountsAgain(db: Database, after: Database, w: int, copy: int, n: Names, user: int)
    requires Copied(db, after, w, copy, n, user)
    ensures AccountsOk(after, copy)
  {
    hide IsCopy, HasCopy, Ref, BaseOk, CurrenciesOk, CategoriesOk, PayeesOk, TxnsOk, TransfersOk, PlansOk;
    UniqueCopied(db.accounts, after.accounts, w, copy, n.accounts, RenameAccount(n), SameAccount);
    forall j | Owns(after.accounts, copy, j)
      ensures Owns(after.currencies, copy, after.accounts.rows[j].data.currency)
    {
      var i := Original(db.accounts, after.accounts, w, copy, n.accounts, RenameAccount(n), j);
      RefIsOwned(db.currencies, after.currencies, w, copy, n.currencies, Same, db.accounts.rows[i].data.currency);
    }
  }

  lemma CategoryRefs(db: Database, after: Database, w: int, copy: int, n: Names, user: int, p: Option<int>)
    requires Copied(db, after, w, copy, n, user) && ParentOk(db, w, p)
    ensures ParentOk(after, copy, Carry(n.categories, p))
  {
    hide IsCopy, HasCopy, Ref, BaseOk, CurrenciesOk, AccountsOk, CategoriesOk, PayeesOk, TxnsOk, TransfersOk, PlansOk;
    if p.Some? {
      RefIsOwned(db.categories, after.categories, w, copy, n.categories, RenameCategory(n), p.value);
    }
  }

  lemma CategoriesAgain(db: Database, after: Database, w: int, copy: int, n: Names, user: int)
    requires Copied(db, after, w, copy, n, user) && AllNamed(db, w, n)
    ensures CategoriesOk(after, copy)
  {
    hide IsCopy, HasCopy, Carry, ParentOk, SameCategory, NamesRows, Copied;
    var t, u, f, rename := db.categories, after.categories, n.categories, RenameCategory(n);
    assert IsCopy(t, u, w, copy, f, rename) && CategoriesOk(db, w) by { CopiedMeans(db, after, w, copy, n, user); }
    forall i, j | Owns(t, w, i) && Owns(t, w, j) && i != j
      ensures !SameCategory(rename(t.rows[i].data), rename(t.rows[j].data))
    {
      ParentIsWithin(db, w, t.rows[i].data.parent);
      ParentIsWithin(db, w, t.rows[j].data.parent);
      SameRenamedCategory(n, db, w, t.rows[i].data, t.rows[j].data);
    }
    UniqueCopied(t, u, w, copy, f, rename, SameCategory);
    forall j | Owns(u, copy, j)
      ensures ParentOk(after, copy, u.rows[j].data.parent)
    {
      var i := Original(t, u, w, copy, f, rename, j);
      CategoryRefs(db, after, w, copy, n, user, t.rows[i].data.parent);
    }
  }

  lemma ParentIsWithin(db: Database, w: int, p: Option<int>)
    requires ParentOk(db, w, p)
    ensures Within(db.categories, w, p)
  {
  }

  lemma CopiedMeans(db: Database, after: Database, w: int, copy: int, n: Names, user: int)
    requires Copied(db, after, w, copy, n, user)
    ensures Isomorphic(db, after, w, copy, n, user)
    ensures CategoriesOk(db, w) && PayeesOk(db, w) && TxnsOk(db, w) && TransfersOk(db, w) && PlansOk(db, w)
    ensures Unique(db.tags, w, SameTag) && Unique(db.vehicles, w, SameVehicle)
  {
    hide Isomorphic;
  }

  lemma PayeesAgain(db: Database, after: Database, w: int, copy: int, n: Names, user: int)
    requires Copied(db, after, w, copy, n, user)
    ensures PayeesOk(after, copy)
  {
    hide IsCopy, HasCopy, Carry, Within, Copied;
    CopiedMeans(db, after, w, copy, n, user);
    UniqueCopied(db.payees, after.payees, w, copy, n.payees, RenamePayee(n), SamePayee);
    forall j | Owns(after.payees, copy, j)
      ensures Within(after.categories, copy, after.payees.rows[j].data.category)
    {
      var i := Original(db.payees, after.payees, w, copy, n.payees, RenamePayee(n), j);
      CarryIsWithin(db.categories, after.categories, w, copy, n.categories, RenameCategory(n), db.payees.rows[i].data.category);
    }
  }

  lemma TxnAgain(db: Database, after: Database, w: int, copy: int, n: Names, user: int, t: Txn)
    requires Isomorphic(db, after, w, copy, n, user) && TxnOk(db, w, t)
    ensures TxnOk(after, copy, RenameTxn(n, user)(t))
  {
    hide IsCopy, HasCopy, Carry, Ref, CarryAll, CarrySplits, Within, TagsWithin, SplitsWithin, Owns;
    RefIsOwned(db.accounts, after.accounts, w, copy, n.accounts, RenameAccount(n), t.account);
    CarryIsWithin(db.payees, after.payees, w, copy, n.payees, RenamePayee(n), t.payee);
    CarryIsWithin(db.categories, after.categories, w, copy, n.categories, RenameCategory(n), t.category);
    CarryIsWithin(db.vehicles, after.vehicles, w, copy, n.vehicles, Same, t.vehicle);
    CarryIsWithin(db.templates, after.templates, w, copy, n.templates, RenameTemplate(n), t.template);
    TagsCopiedWithin(db, after, w, copy, n, t.tags);
    SplitsCopied(db, after, w, copy, n, t.splits);
  }

  lemma TxnsAgain(db: Database, after: Database, w: int, copy: int, n: Names, user: int)
    requires Copied(db, after, w, copy, n, user)
    ensures TxnsOk(after, copy)
  {
    hide IsCopy, HasCopy, Copied, TxnOk, RenameTxn;
    CopiedMeans(db, after, w, copy, n, user);
    forall j | Owns(after.txns, copy, j)
      ensures TxnOk(after, copy, after.txns.rows[j].data)
    {
      var i := Original(db.txns, after.txns, w, copy, n.txns, RenameTxn(n, user), j);
      TxnAgain(db, after, w, copy, n, user, db.txns.rows[i].data);
    }
  }

  lemma TransfersAgain(db: Database, after: Database, w: int, copy: int, n: Names, user: int)
    requires Copied(db, after, w, copy, n, user)
    ensures TransfersOk(after, copy)
  {
    hide IsCopy, Copied, RenameTxn, Ref;
    CopiedMeans(db, after, w, copy, n, user);
    var t, u, rename := db.transfers, after.transfers, RenameTransfer(n);
    var f :| IsCopy(t, u, w, copy, f, rename);
    forall i, j | Owns(t, w, i) && Owns(t, w, j) && i != j
      ensures !SameTransfer(rename(t.rows[i].data), rename(t.rows[j].data))
    {
      RefsDiffer(db.txns, after.txns, w, copy, n.txns, RenameTxn(n, user), t.rows[i].data.from, t.rows[j].data.from);
      RefsDiffer(db.txns, after.txns, w, copy, n.txns, RenameTxn(n, user), t.rows[i].data.to, t.rows[j].data.to);
    }
    UniqueCopied(t, u, w, copy, f, rename, SameTransfer);
    forall j | Owns(u, copy, j)
      ensures Owns(after.txns, copy, u.rows[j].data.from) && Owns(after.txns, copy, u.rows[j].data.to)
    {
      var i := Original(t, u, w, copy, f, rename, j);
      RefIsOwned(db.txns, after.txns, w, copy, n.txns, RenameTxn(n, user), t.rows[i].data.from);
      RefIsOwned(db.txns, after.txns, w, copy, n.txns, RenameTxn(n, user), t.rows[i].data.to);
    }
  }

  lemma TemplateAgain(db: Database, after: Database, w: int, copy: int, n: Names, user: int, t: Template)
    requires Isomorphic(db, after, w, copy, n, user) && TemplateOk(db, w, t)
    ensures TemplateOk(after, copy, RenameTemplate(n)(t))
  {
    hide IsCopy, HasCopy, Carry, CarrySplits, Within, SplitsWithin;
    CarryIsWithin(db.accounts, after.accounts, w, copy, n.accounts, RenameAccount(n), t.account);
    CarryIsWithin(db.payees, after.payees, w, copy, n.payees, RenamePayee(n), t.payee);
    CarryIsWithin(db.categories, after.categories, w, copy, n.categories, RenameCategory(n), t.category);
    CarryIsWithin(db.accounts, after.accounts, w, copy, n.accounts, RenameAccount(n), t.toAccount);
    SplitsCopied(db, after, w, copy, n, t.splits);
  }

  lemma AssignmentAgain(db: Database, after: Database, w: int, copy: int, n: Names, user: int, a: Assignment)
    requires Isomorphic(db, after, w, copy, n, user) && AssignmentOk(db, w, a)
    ensures AssignmentOk(after, copy, RenameAssignment(n)(a))
  {
    hide IsCopy, HasCopy, Carry, CarryAll, Within, TagsWithin;
    CarryIsWithin(db.payees, after.payees, w, copy, n.payees, RenamePayee(n), a.payee);
    CarryIsWithin(db.categories, after.categories, w, copy, n.categories, RenameCategory(n), a.category);
    CarryIsWithin(db.accounts, after.accounts, w, copy, n.accounts, RenameAccount(n), a.account);
    TagsCopiedWithin(db, after, w, copy, n, a.tags);
  }

  lemma TemplatesAgain(db: Database, after: Database, w: int, copy: int, n: Names, user: int)
    requires Copied(db, after, w, copy, n, user)
    ensures forall j :: Owns(after.templates, copy, j) ==> TemplateOk(after, copy, after.templates.rows[j].data)
    ensures forall j :: Owns(after.schedules, copy, j) ==> Owns(after.templates, copy, after.schedules.rows[j].data.template)
    ensures forall j :: Owns(after.assignments, copy, j) ==> AssignmentOk(after, copy, after.assignments.rows[j].data)
  {
    hide IsCopy, Copied, TemplateOk, AssignmentOk, RenameTemplate, RenameAssignment, Ref;
    CopiedMeans(db, after, w, copy, n, user);
    forall j | Owns(after.templates, copy, j)
      ensures TemplateOk(after, copy, after.templates.rows[j].data)
    {
      var i := Original(db.templates, after.templates, w, copy, n.templates, RenameTemplate(n), j);
      TemplateAgain(db, after, w, copy, n, user, db.templates.rows[i].data);
    }
    var f :| IsCopy(db.schedules, after.schedules, w, copy, f, RenameSchedule(n));
    forall j | Owns(after.schedules, copy, j)
      ensures Owns(after.templates, copy, after.schedules.rows[j].data.template)
    {
      var i := Original(db.schedules, after.schedules, w, copy, f, RenameSchedule(n), j);
      RefIsOwned(db.templates, after.templates, w, copy, n.templates, RenameTemplate(n), db.schedules.rows[i].data.template);
    }
    forall j | Owns(after.assignments, copy, j)
      ensures AssignmentOk(after, copy, after.assignments.rows[j].data)
    {
      var i := Original(db.assignments, after.assignments, w, copy, n.assignments, RenameAssignment(n), j);
      AssignmentAgain(db, after, w, copy, n, user, db.assignments.rows[i].data);
    }
  }

  lemma BudgetsAgain(db: Database, after: Database, w: int, copy: int, n: Names, user: int)
    requires Copied(db, after, w, copy, n, user)
    ensures Unique(after.budgets, copy, SameBudget)
    ensures forall j :: Owns(after.budgets, copy, j) ==> Owns(after.categories, copy, after.budgets.rows[j].data.category)
    ensures forall j :: Owns(after.goals, copy, j) ==> GoalOk(after, copy, after.goals.rows[j].data)
  {
    hide IsCopy, Copied, TemplateOk, AssignmentOk, RenameCategory, Ref, Within, Carry;
    CopiedMeans(db, after, w, copy, n, user);
    var t, u, rename := db.budgets, after.budgets, RenameBudget(n);
    var f :| IsCopy(t, u, w, copy, f, rename);
    forall i, j | Owns(t, w, i) && Owns(t, w, j) && i != j
      ensures !SameBudget(rename(t.rows[i].data), rename(t.rows[j].data))
    {
      RefsDiffer(db.categories, after.categories, w, copy, n.categories, RenameCategory(n), t.rows[i].data.category,
                 t.rows[j].data.category);
    }
    UniqueCopied(t, u, w, copy, f, rename, SameBudget);
    forall j | Owns(u, copy, j)
      ensures Owns(after.categories, copy, u.rows[j].data.category)
    {
      var i := Original(t, u, w, copy, f, rename, j);
      RefIsOwned(db.categories, after.categories, w, copy, n.categories, RenameCategory(n), t.rows[i].data.category);
    }
    var g :| IsCopy(db.goals, after.goals, w, copy, g, RenameGoal(n));
    forall j | Owns(after.goals, copy, j)
      ensures GoalOk(after, copy, after.goals.rows[j].data)
    {
      var i := Original(db.goals, after.goals, w, copy, g, RenameGoal(n), j);
      CarryIsWithin(db.accounts, after.accounts, w, copy, n.accounts, RenameAccount(n), db.goals.rows[i].data.account);
    }
  }

  /** The copy of a well-formed wallet is well formed. */
  lemma CopyIsWellFormed(db: Database, after: Database, w: int, copy: int, n: Names, user: int)
    requires Copied(db, after, w, copy, n, user) && AllNamed(db, w, n)
    ensures WellFormed(after, copy)
  {
    hide IsCopy, HasCopy, Copied, BaseOk, CurrenciesOk, AccountsOk, CategoriesOk, PayeesOk, TxnsOk, TransfersOk, TemplateOk,
      AssignmentOk, GoalOk, Unique, AllNamed, RenameTemplate;
    CopiedMeans(db, after, w, copy, n, user);
    CurrenciesAgain(db, after, w, copy, n, user);
    AccountsAgain(db, after, w, copy, n, user);
    CategoriesAgain(db, after, w, copy, n, user);
    PayeesAgain(db, after, w, copy, n, user);
    NamesApart(db.tags, after.tags, w, copy, n.tags, SameTag);
    NamesApart(db.vehicles, after.vehicles, w, copy, n.vehicles, SameVehicle);
    TxnsAgain(db, after, w, copy, n, user);
    TransfersAgain(db, after, w, copy, n, user);
    TemplatesAgain(db, after, w, copy, n, user);
    BudgetsAgain(db, after, w, copy, n, user);
  }

  lemma NamesApart<D(!new)>(t: Table<D>, u: Table<D>, w: int, copy: int, f: map<int, int>, clash: (D, D) -> bool)
    requires IsCopy(t, u, w, copy, f, Same) && Unique(t, w, clash)
    ensures Unique(u, copy, clash)
  {
    hide IsCopy;
    UniqueCopied(t, u, w, copy, f, Same, clash);
  }

  // ----- the rules' order -----

  /** Two of the wallet's rules are tried in the order of their copies. */
  ghost predicate SameMatchOrder(t: Table<Assignment>, u: Table<Assignment>, f: map<int, int>) {
    forall i, j :: i in f && j in f ==>
                     && i in t.rows && j in t.rows && f[i] in u.rows && f[j] in u.rows
                     && (Earlier(t, i, j) <==> Earlier(u, f[i], f[j]))
  }

  lemma RulesKeepTheirOrder(t: Table<Assignment>, u: Table<Assignment>, w: int, copy: int, ids: seq<int>, n: Names)
    requires IsCopy(t, u, w, copy, IdMap(ids, t.next), RenameAssignment(n)) && InMatchOrder(ids, t) && NoRepeats(ids)
    ensures SameMatchOrder(t, u, IdMap(ids, t.next))
  {
    hide IdMap, NoRepeats, Injective;
    var f := IdMap(ids, t.next);
    forall i, j | i in f && j in f
      ensures i in t.rows && j in t.rows && f[i] in u.rows && f[j] in u.rows
      ensures Earlier(t, i, j) <==> Earlier(u, f[i], f[j])
    {
      var a := CopyOfId(ids, t.next, i);
      var b := CopyOfId(ids, t.next, j);
      assert a < b ==> Earlier(t, ids[a], ids[b]);
      assert b < a ==> Earlier(t, ids[b], ids[a]);
    }
  }
}
