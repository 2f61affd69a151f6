/** Budgets by category, year and month: stored, listed, looked up and written for HomeBank
    (server/internal/budget/service.go, applyBudget in server/internal/exporter/xhb.go). */
module BudgetPlan {
  import opened Options
  import opened HomeBankAmount
  import Money

  datatype Mode = Same | Monthly | OtherMode

  type Year12 = s: seq<int> | |s| == 12 witness [0, 0, 0, 0, 0, 0, 0, 0, 0, 0, 0, 0]

  const ZEROS: Year12 := [0, 0, 0, 0, 0, 0, 0, 0, 0, 0, 0, 0]

  datatype Input = Input(mode: Mode, same: int, monthly: Year12)

  /** Month 0 is every month; year 0 is every year. */
  datatype Key = Key(category: int, year: int, month: int)

  datatype Entry = Entry(wallet: int, amount: int)

  type Table = map<Key, Entry>

  datatype Error = InvalidMode | InvalidCategory

  function YearOf(year: int): int {
    if year < 0 then 0 else year
  }

  // ----- what is stored -----

  /** What an input puts on a month's row; 0 for no row. */
  function Wanted(input: Input, month: int): int {
    if input.mode.Same? then (if month == 0 then input.same else 0)
    else if 1 <= month <= 12 then input.monthly[month - 1]
    else 0
  }

  /** The category's rows of the year are those the input asks for, and no others. */
  ghost predicate Stored(rows: Table, category: int, year: int, input: Input) {
    forall m :: Amount(rows, Key(category, year, m)) == if Wanted(input, m) != 0 then Some(Wanted(input, m)) else None
  }

  function Amount(rows: Table, k: Key): Option<int> {
    if k in rows then Some(rows[k].amount) else None
  }

  function Without(rows: Table, category: int, year: int): Table {
    map k | k in rows && !(k.category == category && k.year == year) :: rows[k]
  }

  /** The rows the input asks for, of the months before `month`. */
  function RowsBefore(wallet: int, category: int, year: int, input: Input, month: int): Table {
    map m | 0 <= m < month && m <= 12 && Wanted(input, m) != 0 :: Key(category, year, m) := Entry(wallet, Wanted(input, m))
  }

  function RowsOf(wallet: int, category: int, year: int, input: Input): Table {
    RowsBefore(wallet, category, year, input, 13)
  }

  lemma NextRow(rows: Table, wallet: int, category: int, year: int, input: Input, month: int)
    requires 0 <= month <= 12
    ensures rows + RowsBefore(wallet, category, year, input, month + 1) ==
            if Wanted(input, month) == 0 then rows + RowsBefore(wallet, category, year, input, month)
            else (rows + RowsBefore(wallet, category, year, input, month))[Key(category, year, month) := Entry(wallet, Wanted(input, month))]
  {
    hide Wanted;
    var a, b := RowsBefore(wallet, category, year, input, month), RowsBefore(wallet, category, year, input, month + 1);
    assert forall k :: k in b <==> k in a || (k == Key(category, year, month) && Wanted(input, month) != 0);
    assert forall k :: k in a ==> b[k] == a[k];
  }

  /** With one amount for every month there is at most the row of month 0; month by month there is none of it. */
  lemma FirstRows(rows: Table, wallet: int, category: int, year: int, input: Input)
    ensures rows + RowsBefore(wallet, category, year, input, 0) == rows
    ensures !input.mode.Same? ==> rows + RowsBefore(wallet, category, year, input, 1) == rows
    ensures input.mode.Same? ==> RowsOf(wallet, category, year, input) == RowsBefore(wallet, category, year, input, 1)
  {
    var a := RowsBefore(wallet, category, year, input, 0);
    assert forall k :: k !in a;
    if input.mode.Same? {
      var b, c := RowsOf(wallet, category, year, input), RowsBefore(wallet, category, year, input, 1);
      assert forall k :: k in b <==> k in c;
    } else {
      var b := RowsBefore(wallet, category, year, input, 1);
      assert forall k :: k !in b;
    }
  }

  function SetError(wallets: map<int, int>, wallet: int, category: int, mode: Mode): Option<Error> {
    if mode.OtherMode? then Some(InvalidMode)
    else if category !in wallets || wallets[category] != wallet then Some(InvalidCategory)
    else None
  }

  function AfterSet(rows: Table, wallets: map<int, int>, wallet: int, category: int, year: int, input: Input): Table {
    if SetError(wallets, wallet, category, input.mode).Some? then rows
    else Without(rows, category, YearOf(year)) + RowsOf(wallet, category, YearOf(year), input)
  }

  /** A row's wallet is its category's. */
  predicate OwnWallets(rows: Table, wallets: map<int, int>) {
    forall k :: k in rows ==> k.category in wallets && rows[k].wallet == wallets[k.category]
  }

  // ----- what is listed -----

  datatype Row = Row(key: Key, amount: int)

  predicate Before(a: Key, b: Key) {
    a.category < b.category ||
    (a.category == b.category && (a.year < b.year || (a.year == b.year && a.month < b.month)))
  }

  /** The wallet's rows by category, year and month, as the query returns them. */
  ghost predicate IsListing(list: seq<Row>, rows: Table, wallet: int) {
    && (forall i, j :: 0 <= i < j < |list| ==> Before(list[i].key, list[j].key))
    && (forall i :: 0 <= i < |list| ==>
          list[i].key in rows && rows[list[i].key] == Entry(wallet, list[i].amount))
    && (forall k :: k in rows && rows[k].wallet == wallet ==> Row(k, rows[k].amount) in list)
  }

  datatype CategoryBudget = CategoryBudget(category: int, year: int, mode: Mode, same: int, monthly: Year12)

  /** The amounts of a listing. */
  function Amounts(list: seq<Row>): map<Key, int> {
    if list == [] then map[] else Amounts(list[..|list| - 1])[list[|list| - 1].key := list[|list| - 1].amount]
  }

  predicate Has(seen: map<Key, int>, category: int, year: int) {
    exists k | k in seen :: k.category == category && k.year == year
  }

  function Or0(seen: map<Key, int>, k: Key): int {
    if k in seen then seen[k] else 0
  }

  function Listed(seen: map<Key, int>, category: int, year: int): CategoryBudget {
    CategoryBudget(category, year, if Key(category, year, 0) in seen then Same else Monthly,
                   Or0(seen, Key(category, year, 0)),
                   seq(12, i => Or0(seen, Key(category, year, i + 1))))
  }

  lemma RowChangesListed(seen: map<Key, int>, row: Row, category: int)
    requires row.key !in seen
    ensures var after := seen[row.key := row.amount];
            var year := row.key.year;
            Listed(after, category, year) ==
            if category != row.key.category then Listed(seen, category, year)
            else if row.key.month == 0 then Listed(seen, category, year).(mode := Same, same := row.amount)
            else if 1 <= row.key.month <= 12 then
              Listed(seen, category, year).(monthly := Listed(seen, category, year).monthly[row.key.month - 1 := row.amount])
            else Listed(seen, category, year)
  {
    var after := seen[row.key := row.amount];
    var year := row.key.year;
    assert forall m :: Key(category, year, m) != row.key ==>
                         (Key(category, year, m) in after <==> Key(category, year, m) in seen)
                         && Or0(after, Key(category, year, m)) == Or0(seen, Key(category, year, m));
  }

  lemma OtherYear(seen: map<Key, int>, row: Row, category: int, year: int)
    requires row.key.year != year
    ensures Listed(seen[row.key := row.amount], category, year) == Listed(seen, category, year)
    ensures Has(seen[row.key := row.amount], category, year) <==> Has(seen, category, year)
  {
    var after := seen[row.key := row.amount];
    assert forall m :: Key(category, year, m) in after <==> Key(category, year, m) in seen;
    assert Listed(after, category, year).monthly == Listed(seen, category, year).monthly;
    assert forall k :: k in seen ==> k in after;
  }

  lemma HasAfter(seen: map<Key, int>, row: Row, category: int)
    ensures Has(seen[row.key := row.amount], category, row.key.year)
            <==> category == row.key.category || Has(seen, category, row.key.year)
  {
    var after := seen[row.key := row.amount];
    assert row.key in after;
    assert forall k :: k in seen ==> k in after;
  }

  lemma FirstListed(seen: map<Key, int>, category: int, year: int)
    requires !Has(seen, category, year)
    ensures Listed(seen, category, year) == CategoryBudget(category, year, Monthly, 0, ZEROS)
  {
    assert forall m :: Key(category, year, m) !in seen;
  }

  /** What a listing so far has made of a year. */
  ghost predicate ListedSoFar(byCat: map<int, CategoryBudget>, order: seq<int>, seen: map<Key, int>, year: int) {
    && (forall c :: c in byCat <==> Has(seen, c, year))
    && (forall c :: c in byCat ==> byCat[c] == Listed(seen, c, year))
    && (forall i, j :: 0 <= i < j < |order| ==> order[i] < order[j])
    && (forall c :: c in order <==> c in byCat)
  }

  lemma SkipRow(byCat: map<int, CategoryBudget>, order: seq<int>, seen: map<Key, int>, year: int, row: Row)
    requires ListedSoFar(byCat, order, seen, year) && row.key.year != year
    ensures ListedSoFar(byCat, order, seen[row.key := row.amount], year)
  {
    hide Listed, Has;
    forall c
      ensures Listed(seen[row.key := row.amount], c, year) == Listed(seen, c, year)
      ensures Has(seen[row.key := row.amount], c, year) <==> Has(seen, c, year)
    {
      OtherYear(seen, row, c, year);
    }
  }

  lemma TakeRow(byCat: map<int, CategoryBudget>, order: seq<int>, seen: map<Key, int>, row: Row, cb: CategoryBudget)
    requires ListedSoFar(byCat, order, seen, row.key.year) && row.key !in seen
    requires forall c :: c in order ==> c <= row.key.category
    requires var before := if row.key.category in byCat then byCat[row.key.category]
                           else CategoryBudget(row.key.category, row.key.year, Monthly, 0, ZEROS);
             cb == if row.key.month == 0 then before.(mode := Same, same := row.amount)
                   else if 1 <= row.key.month <= 12 then
                     before.(monthly := before.monthly[row.key.month - 1 := row.amount])
                   else before
    ensures var order2 := if row.key.category in byCat then order else order + [row.key.category];
            ListedSoFar(byCat[row.key.category := cb], order2, seen[row.key := row.amount], row.key.year)
  {
    hide Listed, Has;
    var year, after := row.key.year, seen[row.key := row.amount];
    forall c
      ensures Has(after, c, year) <==> c == row.key.category || Has(seen, c, year)
      ensures c != row.key.category ==> Listed(after, c, year) == Listed(seen, c, year)
    {
      HasAfter(seen, row, c);
      RowChangesListed(seen, row, c);
    }
    RowChangesListed(seen, row, row.key.category);
    if row.key.category !in byCat {
      FirstListed(seen, row.key.category, year);
      assert forall i :: 0 <= i < |order| ==> order[i] in order;
    }
  }

  lemma AmountsOf(list: seq<Row>, i: nat, rows: Table, wallet: int)
    requires IsListing(list, rows, wallet) && i < |list|
    ensures Amounts(list[..i + 1]) == Amounts(list[..i])[list[i].key := list[i].amount]
    ensures list[i].key !in Amounts(list[..i])
  {
    assert list[..i + 1][..i] == list[..i];
    KeysOfAmounts(list[..i]);
  }

  lemma {:induction false} KeysOfAmounts(list: seq<Row>)
    ensures forall k :: k in Amounts(list) <==> exists i :: 0 <= i < |list| && list[i].key == k
  {
    if list != [] {
      var n := |list| - 1;
      KeysOfAmounts(list[..n]);
      forall k
        ensures k in Amounts(list) <==> exists i :: 0 <= i < |list| && list[i].key == k
      {
        if i :| 0 <= i < n && list[..n][i].key == k {
          assert list[i].key == k;
        }
      }
    }
  }

  class Service {
    var rows: Table
    var wallets: map<int, int>

    /** The wallet's rows of the category and year go; the input's amounts but the zeros come. */
    method SetCategoryBudget(wallet: int, category: int, year: int, input: Input) returns (error: Option<Error>)
      requires OwnWallets(rows, wallets)
      modifies this`rows
      ensures OwnWallets(rows, wallets)
      ensures error == SetError(wallets, wallet, category, input.mode)
      ensures rows == AfterSet(old(rows), wallets, wallet, category, year, input)
    {
      hide Without, RowsBefore, OwnWallets, Wanted;
      SetKeepsWallets(rows, wallets, wallet, category, year, input);
      if input.mode != Same && input.mode != Monthly {
        return Some(InvalidMode);
      }
      var y := year;
      if y < 0 {
        y := 0;
      }
      if category !in wallets || wallets[category] != wallet {
        return Some(InvalidCategory);
      }
      RowsAreTheWallets(rows, wallets, wallet, category, y);
      rows := map k | k in rows && !(rows[k].wallet == wallet && k.category == category && k.year == y) :: rows[k];
      ghost var others := rows;
      FirstRows(others, wallet, category, y, input);
      if input.mode == Same {
        NextRow(others, wallet, category, y, input, 0);
        WantedIs(input, 0);
        if input.same != 0 {
          rows := rows[Key(category, y, 0) := Entry(wallet, input.same)];
        }
      } else {
        var m := 1;
        while m <= 12
          invariant 1 <= m <= 13
          invariant rows == others + RowsBefore(wallet, category, y, input, m)
        {
          NextRow(others, wallet, category, y, input, m);
          WantedIs(input, m);
          var v := input.monthly[m - 1];
          if v != 0 {
            rows := rows[Key(category, y, m) := Entry(wallet, v)];
          }
          m := m + 1;
        }
      }
      error := None;
    }

    /** One entry for every category with a row of the year, by category. */
    method List(wallet: int, year: int, list: seq<Row>) returns (out: seq<CategoryBudget>)
      requires IsListing(list, rows, wallet)
      ensures forall i, j :: 0 <= i < j < |out| ==> out[i].category < out[j].category
      ensures forall i :: 0 <= i < |out| ==> out[i] == Listed(Amounts(list), out[i].category, year)
      ensures forall c :: Has(Amounts(list), c, year) <==> exists i :: 0 <= i < |out| && out[i].category == c
    {
      hide IsListing, ListedSoFar, Listed, Amounts, Has;
      var byCat: map<int, CategoryBudget> := map[];
      var order: seq<int> := [];
      NothingListed(year);
      assert list[..0] == [];
      for i := 0 to |list|
        invariant ListedSoFar(byCat, order, Amounts(list[..i]), year)
        invariant forall c :: c in order ==> exists j :: 0 <= j < i && list[j].key.category == c
      {
        AmountsOf(list, i, rows, wallet);
        var b := list[i];
        if b.key.year != year {
          SkipRow(byCat, order, Amounts(list[..i]), year, b);
          continue;
        }
        CategoriesAscend(list, i, rows, wallet);
        ghost var before, orderBefore := byCat, order;
        if b.key.category !in byCat {
          byCat := byCat[b.key.category := CategoryBudget(b.key.category, year, Monthly, 0, ZEROS)];
          order := order + [b.key.category];
        }
        var cb := byCat[b.key.category];
        if b.key.month == 0 {
          cb := cb.(mode := Same, same := b.amount);
        } else if 1 <= b.key.month <= 12 {
          cb := cb.(monthly := cb.monthly[b.key.month - 1 := b.amount]);
        }
        byCat := byCat[b.key.category := cb];
        assert byCat == before[b.key.category := cb];
        TakeRow(before, orderBefore, Amounts(list[..i]), b, cb);
      }
      assert list[..|list|] == list;
      out := [];
      OrderIsOfCategories(byCat, order, Amounts(list), year);
      for i := 0 to |order|
        invariant |out| == i && forall j :: 0 <= j < i ==> out[j] == byCat[order[j]]
      {
        out := out + [byCat[order[i]]];
      }
      ListIsComplete(out, byCat, order, Amounts(list), year);
    }
  }

  lemma NothingListed(year: int)
    ensures ListedSoFar(map[], [], Amounts([]), year)
  {
  }

  lemma CategoriesAscend(list: seq<Row>, i: nat, rows: Table, wallet: int)
    requires IsListing(list, rows, wallet) && i < |list|
    ensures forall j :: 0 <= j < i ==> list[j].key.category <= list[i].key.category
  {
  }

  lemma OrderIsOfCategories(byCat: map<int, CategoryBudget>, order: seq<int>, seen: map<Key, int>, year: int)
    requires ListedSoFar(byCat, order, seen, year)
    ensures forall i :: 0 <= i < |order| ==> order[i] in byCat
  {
    assert forall i :: 0 <= i < |order| ==> order[i] in order;
  }

  lemma ListIsComplete(out: seq<CategoryBudget>, byCat: map<int, CategoryBudget>, order: seq<int>, seen: map<Key, int>,
                       year: int)
    requires ListedSoFar(byCat, order, seen, year) && |out| == |order|
    requires forall i :: 0 <= i < |order| ==> order[i] in byCat && out[i] == byCat[order[i]]
    ensures forall i, j :: 0 <= i < j < |out| ==> out[i].category < out[j].category
    ensures forall i :: 0 <= i < |out| ==> out[i] == Listed(seen, out[i].category, year)
    ensures forall c :: Has(seen, c, year) <==> exists i :: 0 <= i < |out| && out[i].category == c
  {
    hide Has;
    assert forall i :: 0 <= i < |out| ==> out[i].category == order[i];
    forall c
      ensures Has(seen, c, year) <==> exists i :: 0 <= i < |out| && out[i].category == c
    {
      if c in order {
        var i :| 0 <= i < |order| && order[i] == c;
        assert out[i].category == c;
      }
    }
  }

  lemma WantedIs(input: Input, month: int)
    requires 0 <= month <= 12 && (month == 0 <==> input.mode.Same?)
    ensures Wanted(input, month) == if month == 0 then input.same else input.monthly[month - 1]
  {
  }

  lemma RowsAreTheWallets(rows: Table, wallets: map<int, int>, wallet: int, category: int, year: int)
    requires OwnWallets(rows, wallets) && category in wallets && wallets[category] == wallet
    ensures (map k | k in rows && !(rows[k].wallet == wallet && k.category == category && k.year == year) :: rows[k])
            == Without(rows, category, year)
  {
  }

  lemma SetKeepsWallets(rows: Table, wallets: map<int, int>, wallet: int, category: int, year: int, input: Input)
    requires OwnWallets(rows, wallets)
    ensures OwnWallets(AfterSet(rows, wallets, wallet, category, year, input), wallets)
  {
    hide Wanted;
  }

  // ----- over any run of calls -----

  datatype Call = Call(wallet: int, category: int, year: int, input: Input)

  function Run(rows: Table, wallets: map<int, int>, calls: seq<Call>): Table {
    if calls == [] then rows
    else
      var c := calls[|calls| - 1];
      AfterSet(Run(rows, wallets, calls[..|calls| - 1]), wallets, c.wallet, c.category, c.year, c.input)
  }

  predicate Answered(c: Call, wallets: map<int, int>) {
    SetError(wallets, c.wallet, c.category, c.input.mode).None?
  }

  /** The last input accepted for a category and year. */
  function LastInput(calls: seq<Call>, wallets: map<int, int>, category: int, year: int): Option<Input> {
    if calls == [] then None
    else
      var c := calls[|calls| - 1];
      if Answered(c, wallets) && c.category == category && YearOf(c.year) == year then Some(c.input)
      else LastInput(calls[..|calls| - 1], wallets, category, year)
  }

  /** No input leaves what months of zero leave. */
  function InputOr(i: Option<Input>): Input {
    if i.Some? then i.value else Input(Monthly, 0, ZEROS)
  }

  lemma SetStores(rows: Table, wallet: int, category: int, year: int, input: Input)
    ensures Stored(Without(rows, category, year) + RowsOf(wallet, category, year, input), category, year, input)
  {
    var others, news := Without(rows, category, year), RowsOf(wallet, category, year, input);
    hide Wanted;
    forall m
      ensures Amount(others + news, Key(category, year, m)) == if Wanted(input, m) != 0 then Some(Wanted(input, m)) else None
    {
      NoOtherMonth(input, m);
      assert Key(category, year, m) !in others;
      assert Key(category, year, m) in news <==> 0 <= m <= 12 && Wanted(input, m) != 0;
    }
  }

  lemma NoOtherMonth(input: Input, m: int)
    ensures Wanted(input, m) != 0 ==> 0 <= m <= 12
  {
  }

  lemma SetKeepsOthers(rows: Table, wallet: int, c: int, y: int, input: Input, category: int, year: int, stored: Input)
    requires Stored(rows, category, year, stored) && (c != category || y != year)
    ensures Stored(Without(rows, c, y) + RowsOf(wallet, c, y, input), category, year, stored)
  {
    hide Wanted;
    var after := Without(rows, c, y) + RowsOf(wallet, c, y, input);
    forall m
      ensures Amount(after, Key(category, year, m)) == Amount(rows, Key(category, year, m))
    {
      assert Key(category, year, m) !in RowsOf(wallet, c, y, input);
    }
  }

  /** After any run of calls, a category's rows of a year are those of the last input accepted for them. */
  lemma {:induction false} LastInputIsStored(wallets: map<int, int>, calls: seq<Call>, category: int, year: int)
    ensures Stored(Run(map[], wallets, calls), category, year, InputOr(LastInput(calls, wallets, category, year)))
  {
    if calls != [] {
      hide Stored, Without, RowsBefore;
      var c, before := calls[|calls| - 1], calls[..|calls| - 1];
      LastInputIsStored(wallets, before, category, year);
      if Answered(c, wallets) {
        if c.category == category && YearOf(c.year) == year {
          SetStores(Run(map[], wallets, before), c.wallet, category, year, c.input);
        } else {
          SetKeepsOthers(Run(map[], wallets, before), c.wallet, c.category, YearOf(c.year), c.input, category, year,
                         InputOr(LastInput(before, wallets, category, year)));
        }
      }
    }
  }

  /** No category has, for one year, both an amount for every month and one for a single month. */
  lemma NeverBoth(wallets: map<int, int>, calls: seq<Call>, category: int, year: int, month: int)
    requires month != 0
    ensures var rows := Run(map[], wallets, calls);
            !(Key(category, year, 0) in rows && Key(category, year, month) in rows)
  {
    LastInputIsStored(wallets, calls, category, year);
    var rows := Run(map[], wallets, calls);
    assert Amount(rows, Key(category, year, 0)).None? || Amount(rows, Key(category, year, month)).None?;
  }

  lemma {:induction false} RunKeepsWallets(wallets: map<int, int>, calls: seq<Call>)
    ensures OwnWallets(Run(map[], wallets, calls), wallets)
  {
    if calls != [] {
      hide OwnWallets, AfterSet;
      var c, before := calls[|calls| - 1], calls[..|calls| - 1];
      RunKeepsWallets(wallets, before);
      SetKeepsWallets(Run(map[], wallets, before), wallets, c.wallet, c.category, c.year, c.input);
    } else {
      NoRowNoWallet(wallets);
    }
  }

  lemma NoRowNoWallet(wallets: map<int, int>)
    ensures OwnWallets(map[], wallets)
  {
  }

  /** What is listed of an input: the part its mode uses; nothing if that has no amount. */
  function Shown(input: Input, category: int, year: int): CategoryBudget {
    if input.mode.Same? then CategoryBudget(category, year, Same, input.same, ZEROS)
    else CategoryBudget(category, year, Monthly, 0, input.monthly)
  }

  lemma AmountListed(list: seq<Row>, rows: Table, wallet: int, k: Key)
    requires IsListing(list, rows, wallet) && (k in rows ==> rows[k].wallet == wallet)
    ensures k in Amounts(list) <==> k in rows
    ensures k in rows ==> Amounts(list)[k] == rows[k].amount
  {
    KeysOfAmounts(list);
    if k in rows {
      var i :| 0 <= i < |list| && list[i] == Row(k, rows[k].amount);
      AmountAt(list, i);
    }
  }

  lemma {:induction false} AmountAt(list: seq<Row>, i: int)
    requires 0 <= i < |list| && forall i, j :: 0 <= i < j < |list| ==> Before(list[i].key, list[j].key)
    ensures list[i].key in Amounts(list) && Amounts(list)[list[i].key] == list[i].amount
  {
    var n := |list| - 1;
    if i < n {
      AmountAt(list[..n], i);
      assert Before(list[i].key, list[n].key);
    }
  }

  lemma StoredIsListed(seen: map<Key, int>, input: Input, category: int, year: int)
    requires forall m :: (Key(category, year, m) in seen <==> Wanted(input, m) != 0)
                         && Or0(seen, Key(category, year, m)) == Wanted(input, m)
    ensures Has(seen, category, year) <==> exists m :: 0 <= m <= 12 && Wanted(input, m) != 0
    ensures Has(seen, category, year) ==> Listed(seen, category, year) == Shown(input, category, year)
  {
    if Has(seen, category, year) {
      var k :| k in seen && k.category == category && k.year == year;
      assert k == Key(category, year, k.month);
      NoOtherMonth(input, k.month);
      assert Listed(seen, category, year).monthly == Shown(input, category, year).monthly;
    }
    if m :| 0 <= m <= 12 && Wanted(input, m) != 0 {
      assert Key(category, year, m) in seen;
    }
  }

  /** The list gives back, for each category of the wallet, the last input accepted, but for amounts of zero. */
  lemma ListGivesBackTheLastInput(wallets: map<int, int>, calls: seq<Call>, list: seq<Row>, category: int, year: int)
    requires category in wallets && IsListing(list, Run(map[], wallets, calls), wallets[category])
    ensures var input := InputOr(LastInput(calls, wallets, category, year));
            && (Has(Amounts(list), category, year) <==> exists m :: 0 <= m <= 12 && Wanted(input, m) != 0)
            && (Has(Amounts(list), category, year) ==>
                  Listed(Amounts(list), category, year) == Shown(input, category, year))
  {
    hide Listed, Has, Shown, Wanted, IsListing, Amounts;
    var rows, input := Run(map[], wallets, calls), InputOr(LastInput(calls, wallets, category, year));
    LastInputIsStored(wallets, calls, category, year);
    RunKeepsWallets(wallets, calls);
    forall m
      ensures (Key(category, year, m) in Amounts(list) <==> Wanted(input, m) != 0)
              && Or0(Amounts(list), Key(category, year, m)) == Wanted(input, m)
    {
      AmountListed(list, rows, wallets[category], Key(category, year, m));
      assert Amount(rows, Key(category, year, m)) == if Wanted(input, m) != 0 then Some(Wanted(input, m)) else None;
    }
    StoredIsListed(Amounts(list), input, category, year);
  }

  // ----- the amount for a period -----

  datatype Slot = Slot(year: int, month: int)

  /** The category's amount for one month: the most specific entry. */
  function AmountFor(plan: map<Slot, int>, c: Slot): int {
    if c in plan then plan[c]
    else if Slot(c.year, 0) in plan then plan[Slot(c.year, 0)]
    else if Slot(0, c.month) in plan then plan[Slot(0, c.month)]
    else if Slot(0, 0) in plan then plan[Slot(0, 0)]
    else 0
  }

  function Total(plan: map<Slot, int>, cells: seq<Slot>): int {
    if cells == [] then 0 else Total(plan, cells[..|cells| - 1]) + AmountFor(plan, cells[|cells| - 1])
  }

  method BudgetForPeriodYear(plan: map<Slot, int>, cells: seq<Slot>) returns (sum: int)
    ensures sum == Total(plan, cells)
  {
    sum := 0;
    for i := 0 to |cells|
      invariant sum == Total(plan, cells[..i])
    {
      var c := cells[i];
      assert cells[..i + 1][..i] == cells[..i];
      var keys := [Slot(c.year, c.month), Slot(c.year, 0), Slot(0, c.month), Slot(0, 0)];
      for j := 0 to 4
        invariant sum == Total(plan, cells[..i])
        invariant (j > 0 ==> keys[0] !in plan) && (j > 1 ==> keys[1] !in plan)
        invariant (j > 2 ==> keys[2] !in plan) && (j > 3 ==> keys[3] !in plan)
      {
        if keys[j] in plan {
          sum := sum + plan[keys[j]];
          break;
        }
      }
      assert sum == Total(plan, cells[..i]) + AmountFor(plan, c);
    }
    assert cells[..|cells|] == cells;
  }

  /** A month's number, counted from year 0. */
  function Index(year: int, month: int): int {
    12 * year + month - 1
  }

  function MonthAt(index: int): Slot {
    Slot(index / 12, index % 12 + 1)
  }

  /** The months from one to another, both included; none when they are the wrong way round. */
  function Months(first: int, last: int): seq<Slot> {
    seq(if last < first then 0 else last - first + 1, i => MonthAt(first + i))
  }

  method CoveredCells(from: Slot, to: Slot) returns (out: seq<Slot>)
    requires 1 <= from.month <= 12 && 1 <= to.month <= 12
    ensures out == Months(Index(from.year, from.month), Index(to.year, to.month))
  {
    var year, month := from.year, from.month;
    out := [];
    ghost var first, last := Index(from.year, from.month), Index(to.year, to.month);
    while year < to.year || (year == to.year && month <= to.month)
      invariant 1 <= month <= 12
      invariant |out| == Index(year, month) - first
      invariant |out| > 0 ==> Index(year, month) <= last + 1
      invariant forall i :: 0 <= i < |out| ==> out[i] == MonthAt(first + i)
      decreases last + 1 - Index(year, month)
    {
      MonthOfIndex(year, month);
      out := out + [Slot(year, month)];
      if month == 12 {
        year, month := year + 1, 1;
      } else {
        month := month + 1;
      }
    }
  }

  lemma MonthOfIndex(year: int, month: int)
    requires 1 <= month <= 12
    ensures MonthAt(Index(year, month)) == Slot(year, month)
  {
  }

  lemma {:induction false} TotalConcat(plan: map<Slot, int>, a: seq<Slot>, b: seq<Slot>)
    ensures Total(plan, a + b) == Total(plan, a) + Total(plan, b)
  {
    hide AmountFor;
    if b == [] {
      assert a + b == a;
    } else {
      assert (a + b)[..|a + b| - 1] == a + b[..|b| - 1];
      TotalConcat(plan, a, b[..|b| - 1]);
    }
  }

  /** A category's budget over adjoining months adds up to its budget over all of them. */
  lemma RangesAddUp(plan: map<Slot, int>, first: int, mid: int, last: int)
    requires first <= mid + 1 && mid <= last
    ensures Total(plan, Months(first, last)) == Total(plan, Months(first, mid)) + Total(plan, Months(mid + 1, last))
  {
    hide Total, MonthAt;
    assert Months(first, last) == Months(first, mid) + Months(mid + 1, last);
    TotalConcat(plan, Months(first, mid), Months(mid + 1, last));
  }

  // ----- the HomeBank fields -----

  /** A HomeBank category's budget attributes: b0 for every month, b1 to b12 for each. */
  class XCat {
    var budget: bool
    var custom: bool
    var b: seq<string>

    ghost predicate Valid()
      reads this
    {
      |b| == 13
    }

    constructor ()
      ensures Valid() && !budget && !custom && b == seq(13, _ => "")
    {
      budget, custom, b := false, false, seq(13, _ => "");
    }
  }

  datatype MonthAmount = MonthAmount(month: int, amount: int)

  /** The text written for a month: that of its last row, or none. */
  function TextFor(budgets: seq<MonthAmount>, frac: int, month: int): string {
    if budgets == [] then ""
    else if budgets[|budgets| - 1].month == month then Money.Formatted(budgets[|budgets| - 1].amount, Plain(frac))
    else TextFor(budgets[..|budgets| - 1], frac, month)
  }

  predicate HasCustom(budgets: seq<MonthAmount>) {
    exists i :: 0 <= i < |budgets| && 1 <= budgets[i].month <= 12
  }

  method ApplyBudget(c: XCat, budgets: seq<MonthAmount>, frac: int)
    requires c.Valid()
    modifies c
    ensures c.Valid()
    ensures budgets == [] ==> c.budget == old(c.budget) && c.custom == old(c.custom) && c.b == old(c.b)
    ensures budgets != [] ==> c.budget && c.custom == (old(c.custom) || HasCustom(budgets))
    ensures budgets != [] && HasCustom(budgets) ==>
              c.b[0] == old(c.b)[0] && forall m :: 1 <= m <= 12 ==> c.b[m] == TextFor(budgets, frac, m)
    ensures budgets != [] && !HasCustom(budgets) ==> c.b == old(c.b)[0 := TextFor(budgets, frac, 0)]
  {
    hide HasCustom;
    if |budgets| == 0 {
      return;
    }
    var monthly := new string[13](_ => "");
    var hasCustom := false;
    var same := "";
    NoCustomYet();
    for i := 0 to |budgets|
      invariant forall m :: 1 <= m <= 12 ==> monthly[m] == TextFor(budgets[..i], frac, m)
      invariant same == TextFor(budgets[..i], frac, 0)
      invariant hasCustom == HasCustom(budgets[..i])
      invariant c.Valid() && c.budget == old(c.budget) && c.custom == old(c.custom) && c.b == old(c.b)
    {
      var b := budgets[i];
      assert budgets[..i + 1][..i] == budgets[..i];
      CustomStep(budgets, i);
      if 1 <= b.month <= 12 {
        monthly[b.month] := FormatAmount(b.amount, frac);
        hasCustom := true;
      } else if b.month == 0 {
        same := FormatAmount(b.amount, frac);
      }
    }
    assert budgets[..|budgets|] == budgets;
    c.budget := true;
    if hasCustom {
      c.custom := true;
      c.b := [c.b[0]] + monthly[1..];
    } else {
      c.b := c.b[0 := same];
    }
  }

  lemma NoCustomYet()
    ensures !HasCustom([])
  {
  }

  lemma CustomStep(budgets: seq<MonthAmount>, i: nat)
    requires i < |budgets|
    ensures HasCustom(budgets[..i + 1]) <==> HasCustom(budgets[..i]) || 1 <= budgets[i].month <= 12
  {
    var a, b := budgets[..i], budgets[..i + 1];
    assert forall j :: 0 <= j < i ==> b[j] == a[j];
    assert b[i] == budgets[i];
  }

  /** What HomeBank takes from the fields for a month; an empty field is no budget. */
  function FieldFor(custom: bool, b: seq<string>, month: int): string
    requires |b| == 13 && 1 <= month <= 12
  {
    if custom then b[month] else b[0]
  }

  function Read(text: string, frac: int): int {
    if text == "" then 0
    else match Money.Parsed(text, frac, ".") case Some(v) => v case None => 0
  }

  /** A category's year-0 rows, as the export groups them, and the same rows as the report looks them up. */
  ghost predicate SamePlan(budgets: seq<MonthAmount>, plan: map<Slot, int>) {
    && (forall i :: 0 <= i < |budgets| ==>
          0 <= budgets[i].month <= 12 && Slot(0, budgets[i].month) in plan
          && plan[Slot(0, budgets[i].month)] == budgets[i].amount)
    && (forall s :: s in plan ==> s.year == 0 && exists i :: 0 <= i < |budgets| && budgets[i].month == s.month)
  }

  lemma {:induction false} TextReadsBack(budgets: seq<MonthAmount>, frac: int, month: int, amount: int)
    requires forall i :: 0 <= i < |budgets| && budgets[i].month == month ==> budgets[i].amount == amount
    ensures Read(TextFor(budgets, frac, month), frac)
            == if exists i :: 0 <= i < |budgets| && budgets[i].month == month then amount else 0
  {
    hide Money.Formatted, Money.Parsed;
    if budgets != [] {
      var n := |budgets| - 1;
      if budgets[n].month == month {
        WrittenReadsBack(amount, frac);
        NothingIsNoAmount(frac);
      } else {
        TextReadsBack(budgets[..n], frac, month, amount);
        assert forall i :: 0 <= i < n ==> budgets[..n][i] == budgets[i];
      }
    }
  }

  lemma NothingIsNoAmount(frac: int)
    ensures Money.Parsed("", frac, ".") == None
  {
  }

  lemma MonthInPlan(budgets: seq<MonthAmount>, plan: map<Slot, int>, month: int)
    requires SamePlan(budgets, plan)
    ensures (exists i :: 0 <= i < |budgets| && budgets[i].month == month) <==> Slot(0, month) in plan
  {
  }

  /** No month has an amount of its own, or every-month's amount is not wanted by any month without one. */
  ghost predicate OneKind(plan: map<Slot, int>) {
    (exists m :: 1 <= m <= 12 && Slot(0, m) in plan) && Slot(0, 0) in plan && plan[Slot(0, 0)] != 0 ==>
      forall m :: 1 <= m <= 12 ==> Slot(0, m) in plan
  }

  lemma FieldReads(budgets: seq<MonthAmount>, plan: map<Slot, int>, frac: int, m: int, custom: bool, b: seq<string>)
    requires SamePlan(budgets, plan) && |b| == 13 && 1 <= m <= 12 && custom == HasCustom(budgets)
    requires if custom then b[m] == TextFor(budgets, frac, m) else b[0] == TextFor(budgets, frac, 0)
    ensures Read(FieldFor(custom, b, m), frac)
            == if custom then (if Slot(0, m) in plan then plan[Slot(0, m)] else 0)
               else if Slot(0, 0) in plan then plan[Slot(0, 0)] else 0
  {
    hide Read, TextFor;
    var month := if custom then m else 0;
    MonthInPlan(budgets, plan, month);
    TextReadsBack(budgets, frac, month, if Slot(0, month) in plan then plan[Slot(0, month)] else 0);
  }

  lemma CustomInPlan(budgets: seq<MonthAmount>, plan: map<Slot, int>)
    requires SamePlan(budgets, plan)
    ensures HasCustom(budgets) <==> exists m :: 1 <= m <= 12 && Slot(0, m) in plan
  {
    if m :| 1 <= m <= 12 && Slot(0, m) in plan {
      MonthInPlan(budgets, plan, m);
    }
    if i :| 0 <= i < |budgets| && 1 <= budgets[i].month <= 12 {
      assert Slot(0, budgets[i].month) in plan;
    }
  }

  /**
   * What is written for HomeBank gives, month by month, what the report counts on the same rows, exactly when no month
   * has to fall back on the amount for every month while another has its own.
   */
  lemma FieldsGiveTheSameMonths(budgets: seq<MonthAmount>, plan: map<Slot, int>, frac: int, b: seq<string>, year: int)
    requires SamePlan(budgets, plan) && |b| == 13 && year != 0
    requires if HasCustom(budgets) then forall m :: 1 <= m <= 12 ==> b[m] == TextFor(budgets, frac, m)
             else b[0] == TextFor(budgets, frac, 0)
    ensures (forall m :: 1 <= m <= 12 ==>
               Read(FieldFor(HasCustom(budgets), b, m), frac) == AmountFor(plan, Slot(year, m)))
            <==> OneKind(plan)
  {
    hide TextFor, Read, FieldFor, HasCustom;
    CustomInPlan(budgets, plan);
    forall m | 1 <= m <= 12
      ensures Read(FieldFor(HasCustom(budgets), b, m), frac) == AmountFor(plan, Slot(year, m))
              <==> (HasCustom(budgets) && Slot(0, m) !in plan ==> Slot(0, 0) !in plan || plan[Slot(0, 0)] == 0)
    {
      FieldReads(budgets, plan, frac, m, HasCustom(budgets), b);
    }
  }

  /** And so always on rows that were set one input at a time. */
  lemma SetRowsAreOneKind(wallets: map<int, int>, calls: seq<Call>, category: int, plan: map<Slot, int>)
    requires forall s :: s in plan <==> s.year == 0 && Key(category, 0, s.month) in Run(map[], wallets, calls)
    ensures OneKind(plan)
  {
    if m :| 1 <= m <= 12 && Slot(0, m) in plan {
      NeverBoth(wallets, calls, category, 0, m);
      assert Slot(0, m).year == 0 && Slot(0, 0).year == 0;
    }
  }
}
