/** Restoring a document that no export wrote: what is refused, what is passed over (server/internal/backup/backup.go). */
module ForeignDocuments {
  import opened Options
  import opened Tables
  import opened WalletBackup

  ghost predicate Differ<E>(es: seq<Entry<E>>, name: E -> string) {
    forall j, k :: 0 <= j < k < |es| ==> name(es[j].data) != name(es[k].data)
  }

  /** Entries whose rows can all be made, no two of one name, are taken; others are not. */
  lemma TakenByName<E, D>(es: seq<Entry<E>>, make: E -> Option<D>, clash: (D, D) -> bool, name: E -> string)
    requires forall j, k :: 0 <= j < |es| && 0 <= k < |es| && make(es[j].data).Some? && make(es[k].data).Some? ==>
               (clash(make(es[j].data).value, make(es[k].data).value) <==> name(es[j].data) == name(es[k].data))
    ensures AllFit(es, make, clash) <==> AllMade(es, make) && Differ(es, name)
  {
    if AllMade(es, make) {
      var news := Made(es, make);
      if Differ(es, name) {
        assert Apart(news, clash);
      } else {
        var j, k :| 0 <= j < k < |es| && name(es[j].data) == name(es[k].data);
        assert clash(news[j], news[k]);
      }
    }
  }

  /**
   * A document is taken exactly when its version is 1, no two currencies have one code, no two accounts, payees, tags
   * or vehicles one name, every account's currency and every transaction's account is in it, and the rows of categories,
   * transfers and budgets do not clash.
   */
  lemma AcceptedExactly(db: Database, doc: Document, user: int)
    ensures var m := MapsOf(db, doc);
            Acceptable(db, doc, user) <==>
            && doc.version == 1
            && Differ(doc.currencies, (d: Currency) => d.fields.isoCode)
            && Differ(doc.accounts, (d: AccountDoc) => d.fields.name)
            && (forall k :: 0 <= k < |doc.accounts| ==> doc.accounts[k].data.currency in Ids(doc.currencies))
            && Differ(doc.payees, (d: Payee) => d.name) && Differ(doc.tags, (d: Tag) => d.name)
            && Differ(doc.vehicles, (d: Vehicle) => d.name)
            && (forall k :: 0 <= k < |doc.transactions| ==> doc.transactions[k].data.account in Ids(doc.accounts))
            && Apart(CategoryRows(InOrder(doc.categories), db.categories.next), SameCategory)
            && Apart(Made(Known(doc.transfers, MakeTransfer(m.txns)), MakeTransfer(m.txns)), SameTransfer)
            && Apart(Made(Known(doc.budgets, MakeBudget(m.categories)), MakeBudget(m.categories)), SameBudget)
  {
    hide Differ, Apart, CategoryRows, InOrder, IdMap, TagMap, Known, Made, Ids;
    var m := MapsOf(db, doc);
    BasicsTaken(db, doc);
    AccountsKnown(doc.accounts, doc.currencies, db.currencies.next);
    LedgerTaken(doc, m, user);
    TxnAccountsKnown(doc, m, user, db.accounts.next);
  }

  lemma BasicsTaken(db: Database, doc: Document)
    ensures var m := MapsOf(db, doc);
            BasicsFit(db, doc, m) <==>
            && Differ(doc.currencies, (d: Currency) => d.fields.isoCode)
            && AllMade(doc.accounts, MakeAccount(m.currencies)) && Differ(doc.accounts, (d: AccountDoc) => d.fields.name)
            && Apart(CategoryRows(InOrder(doc.categories), db.categories.next), SameCategory)
            && Differ(doc.payees, (d: Payee) => d.name) && Differ(doc.tags, (d: Tag) => d.name)
            && Differ(doc.vehicles, (d: Vehicle) => d.name)
  {
    hide Differ, Apart, CategoryRows, InOrder, IdMap, TagMap, AllFit, Upserted, Look, Ids;
    var m := MapsOf(db, doc);
    TakenByName(doc.currencies, MakeCurrency, SameIso, (d: Currency) => d.fields.isoCode);
    TakenByName(doc.accounts, MakeAccount(m.currencies), SameAccount, (d: AccountDoc) => d.fields.name);
    TakenByName(doc.payees, MakePayee(m.categories), SamePayee, (d: Payee) => d.name);
    TakenByName(doc.tags, MakeTag, SameTag, (d: Tag) => d.name);
    TakenByName(doc.vehicles, MakeVehicle, SameVehicle, (d: Vehicle) => d.name);
  }

  lemma AccountsKnown(accounts: seq<Entry<AccountDoc>>, currencies: seq<Entry<Currency>>, base: int)
    ensures AllMade(accounts, MakeAccount(IdMap(Ids(currencies), base)))
            <==> forall k :: 0 <= k < |accounts| ==> accounts[k].data.currency in Ids(currencies)
  {
    hide IdMap, Ids;
    IdMapKeys(Ids(currencies), base);
    var make := MakeAccount(IdMap(Ids(currencies), base));
    forall k | 0 <= k < |accounts|
      ensures make(accounts[k].data).Some? <==> accounts[k].data.currency in Ids(currencies)
    {
    }
  }

  lemma TxnAccountsKnown(doc: Document, m: Maps, user: int, base: int)
    requires m.accounts == IdMap(Ids(doc.accounts), base)
    ensures AllMade(doc.transactions, MakeTxn(m, user))
            <==> forall k :: 0 <= k < |doc.transactions| ==> doc.transactions[k].data.account in Ids(doc.accounts)
  {
    hide IdMap, Ids, TagIds, SplitsOf, Look;
    IdMapKeys(Ids(doc.accounts), base);
    var make, es := MakeTxn(m, user), doc.transactions;
    forall k | 0 <= k < |es|
      ensures make(es[k].data).Some? <==> es[k].data.account in Ids(doc.accounts)
    {
    }
  }

  lemma LedgerTaken(doc: Document, m: Maps, user: int)
    ensures LedgerFits(doc, m, user) && PlansFit(doc, m) <==>
            && AllMade(doc.transactions, MakeTxn(m, user))
            && Apart(Made(Known(doc.transfers, MakeTransfer(m.txns)), MakeTransfer(m.txns)), SameTransfer)
            && Apart(Made(Known(doc.budgets, MakeBudget(m.categories)), MakeBudget(m.categories)), SameBudget)
  {
    hide Known, MakeTxn, Made;
    assert AllMade(doc.transactions, MakeTxn(m, user)) ==> AllFit(doc.transactions, MakeTxn(m, user), Never);
  }

  /** What is passed over: exactly the transfers with an unknown leg and the budgets of an unknown category. */
  lemma {:induction false} PassedOver<E, D>(es: seq<Entry<E>>, make: E -> Option<D>, e: Entry<E>)
    ensures e in Known(es, make) <==> e in es && make(e.data).Some?
  {
    if es != [] {
      var n := |es| - 1;
      PassedOver(es[..n], make, e);
      assert es == es[..n] + [es[n]];
      assert e in es <==> e in es[..n] || e == es[n];
    }
  }

  lemma KnownTransfersAndBudgets(txns: map<int, int>, categories: map<int, int>, t: Transfer, b: Budget)
    ensures MakeTransfer(txns)(t) == if t.from in txns && t.to in txns then Some(Transfer(txns[t.from], txns[t.to])) else None
    ensures MakeBudget(categories)(b).Some? <==> b.category in categories
    ensures b.category in categories ==>
              MakeBudget(categories)(b).value == Budget(categories[b.category], b.year, b.month, b.amount)
  {
  }

  /** A reference to nothing in the document becomes none, one to something that thing's new id. */
  lemma UnknownBecomesNone(ids: map<int, int>, i: int)
    ensures Look(ids, None) == None
    ensures i in ids ==> Look(ids, Some(i)) == Some(ids[i])
    ensures i !in ids ==> Look(ids, Some(i)) == None
  {
  }

  /** The tags of a list of names: those known, each once. */
  lemma {:induction false} KnownTags(byName: map<string, int>, names: seq<string>, x: int)
    ensures x in TagIds(byName, names) <==> exists k :: 0 <= k < |names| && names[k] in byName && byName[names[k]] == x
    ensures NoRepeats(TagIds(byName, names))
  {
    if names != [] {
      var n := |names| - 1;
      KnownTags(byName, names[..n], x);
      assert forall k :: 0 <= k < n ==> names[..n][k] == names[k];
      if names[n] in byName {
        KnownTags(byName, names[..n], byName[names[n]]);
      }
      if k :| 0 <= k < |names| && names[k] in byName && byName[names[k]] == x {
        assert k < n ==> names[..n][k] in byName;
      }
    }
  }

  /** Of several rates on one date the last one in the document counts, and no date has two. */
  lemma {:induction false} LastRateOfADate(rates: seq<Rate>, r: Rate)
    ensures r in Upserted(rates) <==> exists k :: IsLastOfItsDate(rates, k, r)
    ensures forall j, k :: 0 <= j < k < |Upserted(rates)| ==> Upserted(rates)[j].date != Upserted(rates)[k].date
    decreases |rates|
  {
    hide Upsert;
    if rates != [] {
      var n := |rates| - 1;
      var front, last := rates[..n], rates[n];
      LastRateOfADate(front, r);
      UpsertedInto(Upserted(front), last, r);
      if k :| IsLastOfItsDate(front, k, r) && r.date != last.date {
        assert IsLastOfItsDate(rates, k, r);
      }
      if k :| IsLastOfItsDate(rates, k, r) && k < n {
        assert rates[n].date != r.date;
        assert IsLastOfItsDate(front, k, r);
      }
      if r == last {
        assert IsLastOfItsDate(rates, n, r);
      }
    }
  }

  ghost predicate IsLastOfItsDate(rates: seq<Rate>, k: int, r: Rate) {
    0 <= k < |rates| && rates[k] == r && forall j :: k < j < |rates| ==> rates[j].date != r.date
  }

  ghost predicate OneADate(rates: seq<Rate>) {
    forall j, k :: 0 <= j < k < |rates| ==> rates[j].date != rates[k].date
  }

  lemma {:induction false} UpsertedInto(rates: seq<Rate>, x: Rate, r: Rate)
    requires OneADate(rates)
    ensures OneADate(Upsert(rates, x))
    ensures r in Upsert(rates, x) <==> r == x || (r in rates && r.date != x.date)
    ensures forall i :: 0 <= i < |Upsert(rates, x)| ==> Upsert(rates, x)[i] == x || Upsert(rates, x)[i] in rates
  {
    if rates != [] {
      var rest := rates[1..];
      assert rates == [rates[0]] + rest;
      assert forall y :: y in rates <==> y == rates[0] || y in rest;
      if rates[0].date == x.date {
        assert forall i :: 0 <= i < |rest| ==> rest[i].date != rates[0].date;
      } else {
        UpsertedInto(rest, x, r);
        var after := Upsert(rest, x);
        forall i | 0 <= i < |after|
          ensures after[i].date != rates[0].date
        {
          if after[i] != x {
            assert after[i] in rest;
          }
        }
      }
    }
  }
}
