/** What the category service keeps is what a backup needs of the categories (server/internal/category/service.go). */
module CategoriesInBackup {
  import opened Options
  import opened Tables
  import RuleEngine
  import Categories
  import opened WalletBackup
  import opened WalletCopy

  /** The service's categories are the database's rows. */
  ghost predicate SameTree(kept: Categories.Tables, db: Database) {
    forall i :: (i in kept.categories <==> i in db.categories.rows)
                && (i in kept.categories ==> SameCategoryRow(kept.categories[i], db.categories.rows[i]))
  }

  predicate SameCategoryRow(c: Categories.Category, row: Row<Category>) {
    row.wallet == c.wallet && row.data.parent == c.parent && row.data.name == c.name
  }

  /** So are a table's references to them. */
  ghost predicate SameRefs<D(!new)>(refs: Categories.References, t: Table<D>, category: D -> Option<int>) {
    forall k :: k in t.rows ==> k in refs && refs[k] == Categories.Reference(t.rows[k].wallet, category(t.rows[k].data))
  }

  ghost predicate SameRows(kept: Categories.Tables, db: Database) {
    && SameTree(kept, db)
    && SameRefs(kept.payees, db.payees, (p: Payee) => p.category)
    && SameRefs(kept.transactions, db.txns, (t: Txn) => t.category)
    && SameRefs(kept.templates, db.templates, (t: Template) => t.category)
    && SameRefs(kept.rules, db.assignments, (a: Assignment) => a.category)
  }

  lemma TreeIsOk(kept: Categories.Tables, db: Database, w: int)
    requires Categories.Sound(kept) && SameTree(kept, db)
    ensures CategoriesOk(db, w)
  {
    hide Categories.AllClosed;
    forall i | Owns(db.categories, w, i)
      ensures ParentOk(db, w, db.categories.rows[i].data.parent)
    {
      assert Categories.UnderTopLevel(kept.categories, kept.categories[i]);
    }
    forall i, j | Owns(db.categories, w, i) && Owns(db.categories, w, j) && i != j
      ensures !SameCategory(db.categories.rows[i].data, db.categories.rows[j].data)
    {
      assert !Categories.Clash(kept.categories[i], kept.categories[j]);
    }
  }

  /** Each row of the table refers to a category of its own wallet, if to any. */
  ghost predicate RefsWithin<D(!new)>(db: Database, w: int, t: Table<D>, category: D -> Option<int>) {
    forall k :: Owns(t, w, k) ==> Within(db.categories, w, category(t.rows[k].data))
  }

  lemma RefsAreWithin<D(!new)>(kept: Categories.Tables, db: Database, w: int, refs: Categories.References, t: Table<D>,
                               category: D -> Option<int>)
    requires SameTree(kept, db) && SameRefs(refs, t, category)
    requires Categories.OwnRefs(refs, kept.categories) && Categories.Closed(refs, kept.categories)
    ensures RefsWithin(db, w, t, category)
  {
    forall k | Owns(t, w, k)
      ensures Within(db.categories, w, category(t.rows[k].data))
    {
      assert k in t.rows && k in refs;
      var c := refs[k].category;
      if c.Some? {
        assert c.value in kept.categories && kept.categories[c.value].wallet == w;
      }
    }
  }

  /**
   * After any run of the category service in which deletes give to their own wallet, every wallet's categories are as a
   * backup needs them: two levels, siblings' names apart, and everything that names one in its own wallet.
   */
  lemma ServiceKeepsCategoriesOk(kept: Categories.Tables, ops: seq<Categories.Op>, l: RuleEngine.Language, db: Database, w: int)
    requires Categories.Sound(kept) && Categories.AllOwn(kept) && Categories.DeletesStayHome(kept, ops, l)
    requires SameRows(Categories.Run(kept, ops, l), db)
    ensures CategoriesOk(db, w)
    ensures RefsWithin(db, w, db.payees, (p: Payee) => p.category)
    ensures RefsWithin(db, w, db.txns, (t: Txn) => t.category)
    ensures RefsWithin(db, w, db.templates, (t: Template) => t.category)
    ensures RefsWithin(db, w, db.assignments, (a: Assignment) => a.category)
  {
    hide Categories.Run, Categories.DeletesStayHome, Categories.TwoLevels, Categories.IndexHolds, Categories.IdsBelow,
      Categories.Closed, Categories.OwnRefs, SameTree, SameRefs, CategoriesOk, RefsWithin;
    Categories.RunIsSound(kept, ops, l);
    Categories.RunKeepsReferencesOwn(kept, ops, l);
    var after := Categories.Run(kept, ops, l);
    TreeIsOk(after, db, w);
    RefsAreWithin(after, db, w, after.payees, db.payees, (p: Payee) => p.category);
    RefsAreWithin(after, db, w, after.transactions, db.txns, (t: Txn) => t.category);
    RefsAreWithin(after, db, w, after.templates, db.templates, (t: Template) => t.category);
    RefsAreWithin(after, db, w, after.rules, db.assignments, (a: Assignment) => a.category);
  }
}
