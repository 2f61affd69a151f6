/** What setting, listing and reporting budgets come to, said of the rows themselves (server/internal/budget/service.go). */
module BudgetEffects {
  import opened Options
  import opened BudgetPlan
  import opened BudgetReport
  import HomeBankAmount
  import Money

  // ----- set and list -----

  /** A call is refused for its mode first, then for a category that is not there or another wallet's. */
  lemma Refusals(rows: Table, wallets: map<int, int>, wallet: int, category: int, year: int, input: Input)
    ensures var error := SetError(wallets, wallet, category, input.mode);
            && (error == Some(InvalidMode) <==> input.mode != Same && input.mode != Monthly)
            && (error == Some(InvalidCategory) <==>
                  (input.mode == Same || input.mode == Monthly) && !(category in wallets && wallets[category] == wallet))
            && (error == None <==> (input.mode == Same || input.mode == Monthly) && category in wallets && wallets[category] == wallet)
            && (error != None ==> AfterSet(rows, wallets, wallet, category, year, input) == rows)
  {
  }

  /**
   * An accepted input is stored under its own year (a negative one under 0): the amount for every month on month 0, or
   * each month's amount on its month, but for zeros; nothing else stays there, and no row of another category or year
   * changes.
   */
  lemma StoredUnderItsYear(rows: Table, wallets: map<int, int>, wallet: int, category: int, year: int, input: Input, k: Key)
    requires SetError(wallets, wallet, category, input.mode) == None
    ensures var after := AfterSet(rows, wallets, wallet, category, year, input);
            if k.category == category && k.year == (if year >= 0 then year else 0) then
              var amount := if input.mode == Same then (if k.month == 0 then input.same else 0)
                            else if 1 <= k.month <= 12 then input.monthly[k.month - 1] else 0;
              if amount != 0 then k in after && after[k] == Entry(wallet, amount) else k !in after
            else (k in after <==> k in rows) && (k in rows ==> after[k] == rows[k])
  {
    var y := YearOf(year);
    var news := RowsOf(wallet, category, y, input);
    if k.category == category && k.year == y {
      assert k == Key(category, y, k.month);
      assert k in news <==> 0 <= k.month <= 12 && Wanted(input, k.month) != 0;
    } else {
      assert k !in news;
    }
  }

  /** A listed category's mode and amounts are those of its rows of the year. */
  lemma ListedFromRows(list: seq<Row>, rows: Table, wallet: int, category: int, year: int)
    requires IsListing(list, rows, wallet) && forall k :: k in rows && k.category == category ==> rows[k].wallet == wallet
    ensures var shown := Listed(Amounts(list), category, year);
            && shown.category == category && shown.year == year
            && shown.mode == (if Key(category, year, 0) in rows then Same else Monthly)
            && shown.same == (if Key(category, year, 0) in rows then rows[Key(category, year, 0)].amount else 0)
            && forall m :: 1 <= m <= 12 ==>
                 shown.monthly[m - 1] == if Key(category, year, m) in rows then rows[Key(category, year, m)].amount else 0
    ensures Has(Amounts(list), category, year) <==> exists m :: Key(category, year, m) in rows
  {
    hide IsListing, Amounts;
    forall m
      ensures Key(category, year, m) in Amounts(list) <==> Key(category, year, m) in rows
      ensures Key(category, year, m) in rows ==> Amounts(list)[Key(category, year, m)] == rows[Key(category, year, m)].amount
    {
      AmountListed(list, rows, wallet, Key(category, year, m));
    }
    if Has(Amounts(list), category, year) {
      var k :| k in Amounts(list) && k.category == category && k.year == year;
      assert k == Key(category, year, k.month);
    }
  }

  // ----- the amount of a period -----

  /** The most specific of four entries: the month's, the year's, the month's of every year, the one of every year. */
  lemma FallbackByCases(plan: map<Slot, int>, year: int, month: int)
    ensures var own, years, months, every := Slot(year, month), Slot(year, 0), Slot(0, month), Slot(0, 0);
            var amount := Total(plan, [Slot(year, month)]);
            && (own in plan ==> amount == plan[own])
            && (own !in plan && years in plan ==> amount == plan[years])
            && (own !in plan && years !in plan && months in plan ==> amount == plan[months])
            && (own !in plan && years !in plan && months !in plan && every in plan ==> amount == plan[every])
            && (own !in plan && years !in plan && months !in plan && every !in plan ==> amount == 0)
  {
    assert [Slot(year, month)][..0] == [];
  }

  predicate NotAfter(a: Slot, b: Slot) {
    a.year < b.year || (a.year == b.year && a.month <= b.month)
  }

  lemma MonthsAscend(a: int, b: int)
    requires a < b
    ensures NotAfter(MonthAt(a), MonthAt(b)) && MonthAt(a) != MonthAt(b)
  {
    assert a == 12 * (a / 12) + a % 12 && b == 12 * (b / 12) + b % 12;
  }

  /** The months covered: each one from the first to the last, once, in order. */
  lemma CoveredMonths(from: Slot, to: Slot, s: Slot, i: nat, j: nat)
    requires 1 <= from.month <= 12 && 1 <= to.month <= 12
    ensures var months := Months(Index(from.year, from.month), Index(to.year, to.month));
            && (s in months <==> 1 <= s.month <= 12 && NotAfter(from, s) && NotAfter(s, to))
            && (i < j < |months| ==> NotAfter(months[i], months[j]) && months[i] != months[j])
  {
    var first, last := Index(from.year, from.month), Index(to.year, to.month);
    var months := Months(first, last);
    if i < j < |months| {
      MonthsAscend(first + i, first + j);
    }
    if s in months {
      var k :| 0 <= k < |months| && months[k] == s;
      assert s == MonthAt(first + k);
    }
    if 1 <= s.month <= 12 && NotAfter(from, s) && NotAfter(s, to) {
      MonthOfIndex(s.year, s.month);
      assert months[Index(s.year, s.month) - first] == s;
    }
  }

  /** A field holds the printed amount of the month's last row. */
  lemma {:induction false} TextOfLast(budgets: seq<MonthAmount>, frac: int, i: nat)
    requires i < |budgets| && forall j :: i < j < |budgets| ==> budgets[j].month != budgets[i].month
    ensures TextFor(budgets, frac, budgets[i].month) == Money.Formatted(budgets[i].amount, HomeBankAmount.Plain(frac))
  {
    hide Money.Formatted;
    if i < |budgets| - 1 {
      TextOfLast(budgets[..|budgets| - 1], frac, i);
    }
  }

  // ----- the report -----

  /** A category that counts, with a budget in the period. */
  predicate Budgeted(w: Wallet, cells: seq<Slot>, id: int) {
    id in w.meta && !w.meta[id].noBudget && id in w.budgets && Total(w.budgets[id], cells) != 0
  }

  /** What a budgeted line takes: the category's own, and its unbudgeted subcategories'. */
  predicate OnBudgetedLine(w: Wallet, cells: seq<Slot>, line: int, category: Option<int>) {
    && category.Some? && category.value in w.meta && !w.meta[category.value].noBudget
    && (category.value == line || (w.meta[category.value].parent == Some(line) && !Budgeted(w, cells, category.value)))
  }

  /** A subcategory without a budget whose parent has one: it is part of its parent's line. */
  predicate PartOfParent(w: Wallet, cells: seq<Slot>, id: int) {
    && id in w.meta && !Budgeted(w, cells, id) && w.meta[id].parent.Some? && Budgeted(w, cells, w.meta[id].parent.value)
  }

  /** What a line takes. */
  predicate OnLine(w: Wallet, cells: seq<Slot>, line: int, category: Option<int>) {
    if Budgeted(w, cells, line) then OnBudgetedLine(w, cells, line, category)
    else category == Some(line) && line in w.meta && !w.meta[line].noBudget && !PartOfParent(w, cells, line)
  }

  lemma PlanIsBudgeted(w: Wallet, cells: seq<Slot>)
    ensures forall id :: id in PlanOf(w, cells) <==> Budgeted(w, cells, id)
    ensures forall id :: id in PlanOf(w, cells) ==> PlanOf(w, cells)[id] == Total(w.budgets[id], cells)
  {
  }

  lemma LineTakes(w: Wallet, cells: seq<Slot>, line: int, category: Option<int>)
    ensures OnLine(w, cells, line, category)
            <==> category.Some? && LineOf(w, PlanOf(w, cells), category.value) == Some(line)
  {
    hide PlanOf, Budgeted;
    PlanIsBudgeted(w, cells);
    BudgetedCounts(w, cells, line);
  }

  lemma BudgetedCounts(w: Wallet, cells: seq<Slot>, id: int)
    ensures Budgeted(w, cells, id) ==> id in w.meta && !w.meta[id].noBudget
  {
  }

  /** The converted amounts of the rows on a line; of those after a day only, if one is given. */
  function SumOnLine(w: Wallet, cells: seq<Slot>, rows: seq<Actual>, line: int, after: Option<int>): int {
    if rows == [] then 0
    else
      var r := rows[|rows| - 1];
      SumOnLine(w, cells, rows[..|rows| - 1], line, after)
      + if OnLine(w, cells, line, r.category) && (after.Some? ==> r.date > after.value) then (w.toBase)(r.amount, r.currency) else 0
  }

  lemma {:induction false} ActualIsSum(w: Wallet, cells: seq<Slot>, rows: seq<Actual>, line: int, after: Option<int>)
    ensures ActualOf(w, PlanOf(w, cells), rows, after, line) == SumOnLine(w, cells, rows, line, after)
  {
    hide PlanOf, LineOf, OnLine;
    if rows != [] {
      ActualIsSum(w, cells, rows[..|rows| - 1], line, after);
      LineTakes(w, cells, line, rows[|rows| - 1].category);
    }
  }

  lemma NothingOnNoLine(w: Wallet, cells: seq<Slot>, rows: seq<Actual>, line: int)
    requires forall c :: !OnLine(w, cells, line, c)
    ensures SumOnLine(w, cells, rows, line, None) == 0
  {
    hide OnLine;
    if rows != [] {
      NothingOnNoLine(w, cells, rows[..|rows| - 1], line);
    }
  }

  /** A row of the report: the category's, its budget, what its line took and what of that is still to come. */
  lemma RowSumsUp(w: Wallet, cells: seq<Slot>, rows: seq<Actual>, today: int, rep: Report, i: nat)
    requires IsReport(w, cells, rows, today, rep) && i < |rep.rows|
    ensures var row := rep.rows[i];
            && row.category in w.meta && row.name == w.meta[row.category].name && row.isIncome == w.meta[row.category].isIncome
            && (row.budgeted <==> Budgeted(w, cells, row.category))
            && row.budget == (if Budgeted(w, cells, row.category) then Total(w.budgets[row.category], cells) else 0)
            && row.actual == SumOnLine(w, cells, rows, row.category, None)
            && row.coming == SumOnLine(w, cells, rows, row.category, Some(today))
  {
    hide PlanOf, ActualOf, Ordered, Totals, Budgeted, PaidOncePerMonth;
    PlanIsBudgeted(w, cells);
    assert IsLine(w, PlanOf(w, cells), rows, today, rep.rows[i]);
    ActualIsSum(w, cells, rows, rep.rows[i].category, None);
    ActualIsSum(w, cells, rows, rep.rows[i].category, Some(today));
  }

  /** Which categories have a row: those with a budget, and those that took something and are not part of their parent's line. */
  lemma RowsAreTheLines(w: Wallet, cells: seq<Slot>, rows: seq<Actual>, today: int, rep: Report, id: int)
    requires IsReport(w, cells, rows, today, rep)
    ensures (exists i :: 0 <= i < |rep.rows| && rep.rows[i].category == id)
            <==> Budgeted(w, cells, id) || SumOnLine(w, cells, rows, id, None) != 0
    ensures PartOfParent(w, cells, id) ==> forall i :: 0 <= i < |rep.rows| ==> rep.rows[i].category != id
  {
    hide PlanOf, ActualOf, Ordered, Totals, Budgeted, PaidOncePerMonth;
    PlanIsBudgeted(w, cells);
    ActualIsSum(w, cells, rows, id, None);
    if i :| 0 <= i < |rep.rows| && rep.rows[i].category == id {
      assert IsLine(w, PlanOf(w, cells), rows, today, rep.rows[i]);
    }
    if PartOfParent(w, cells, id) {
      NothingOnNoLine(w, cells, rows, id);
    }
  }

  /** The sum of one number over the rows of spending that have a budget. */
  function Spending(rows: seq<ReportRow>, amount: ReportRow -> int): int {
    if rows == [] then 0
    else
      var r := rows[|rows| - 1];
      Spending(rows[..|rows| - 1], amount) + if r.budgeted && !r.isIncome then amount(r) else 0
  }

  lemma {:induction false} SpendingIsSum(rows: seq<ReportRow>, amount: ReportRow -> int, f: ReportRow -> int)
    requires forall r :: f(r) == if r.budgeted && !r.isIncome then amount(r) else 0
    ensures Sum(rows, f) == Spending(rows, amount)
  {
    if rows != [] {
      SpendingIsSum(rows[..|rows| - 1], amount, f);
    }
  }

  lemma TotalsOfSpending(w: Wallet, cells: seq<Slot>, rows: seq<Actual>, today: int, rep: Report)
    requires IsReport(w, cells, rows, today, rep)
    ensures rep.totalBudget == Spending(rep.rows, (r: ReportRow) => r.budget)
    ensures rep.totalActual == Spending(rep.rows, (r: ReportRow) => r.actual)
    ensures rep.totalComing == Spending(rep.rows, (r: ReportRow) => r.coming)
  {
    hide Sum, Ordered, AreLines;
    SpendingIsSum(rep.rows, (r: ReportRow) => r.budget, (r: ReportRow) => Spent(r, r.budget));
    SpendingIsSum(rep.rows, (r: ReportRow) => r.actual, (r: ReportRow) => Spent(r, r.actual));
    SpendingIsSum(rep.rows, (r: ReportRow) => r.coming, (r: ReportRow) => Spent(r, r.coming));
  }

  /** The first k letters are the same, and then one text ends or has the smaller letter. */
  ghost predicate SmallerAt(a: string, b: string, k: nat) {
    k <= |a| && k < |b| && a[..k] == b[..k] && (k == |a| || a[k] < b[k])
  }

  lemma {:induction false} BelowIsSmaller(a: string, b: string)
    ensures Below(a, b) <==> exists k: nat :: SmallerAt(a, b, k)
  {
    if a != "" && b != "" && a[0] == b[0] {
      BelowIsSmaller(a[1..], b[1..]);
      if Below(a[1..], b[1..]) {
        var k: nat :| SmallerAt(a[1..], b[1..], k);
        assert a[..k + 1] == [a[0]] + a[1..][..k] && b[..k + 1] == [b[0]] + b[1..][..k];
        assert SmallerAt(a, b, k + 1);
      }
      if k: nat :| SmallerAt(a, b, k) {
        NotAtFirst(a, b, k);
      }
    } else if b != "" && (a == "" || a[0] < b[0]) {
      assert a[..0] == b[..0];
      assert SmallerAt(a, b, 0);
    } else {
      forall k: nat
        ensures !SmallerAt(a, b, k)
      {
        NeverSmaller(a, b, k);
      }
    }
  }

  lemma NeverSmaller(a: string, b: string, k: nat)
    requires b == "" || (a != "" && b[0] < a[0])
    ensures !SmallerAt(a, b, k)
  {
    if 0 < k <= |a| && k < |b| {
      assert a[..k][0] == a[0] && b[..k][0] == b[0];
    }
  }

  lemma NotAtFirst(a: string, b: string, k: nat)
    requires a != "" && b != "" && a[0] == b[0] && SmallerAt(a, b, k)
    ensures k > 0 && SmallerAt(a[1..], b[1..], k - 1)
  {
    assert a[1..][..k - 1] == a[..k][1..] && b[1..][..k - 1] == b[..k][1..];
  }

  /** Income before spending, and in each by name, letter by letter. */
  lemma RowsInOrder(w: Wallet, cells: seq<Slot>, rows: seq<Actual>, today: int, rep: Report, i: nat, j: nat)
    requires IsReport(w, cells, rows, today, rep) && i < j < |rep.rows|
    ensures rep.rows[j].isIncome ==> rep.rows[i].isIncome
    ensures rep.rows[i].isIncome == rep.rows[j].isIncome ==> forall k: nat :: !SmallerAt(rep.rows[j].name, rep.rows[i].name, k)
  {
    hide AreLines, Totals, Below, SmallerAt;
    assert !Less(rep.rows[j], rep.rows[i]);
    BelowIsSmaller(rep.rows[j].name, rep.rows[i].name);
  }

  // ----- lines paid once a month -----

  /** A payment on the line, or for income a receipt, in one of the three months before today's. */
  predicate Pays(w: Wallet, cells: seq<Slot>, today: int, r: Actual, line: int) {
    && OnLine(w, cells, line, r.category) && line in w.meta
    && (if w.meta[line].isIncome then r.amount > 0 else r.amount < 0)
    && w.monthOf(today) - 3 <= w.monthOf(r.date) <= w.monthOf(today) - 1
  }

  lemma PaymentPays(w: Wallet, cells: seq<Slot>, today: int, r: Actual, line: int, month: int)
    ensures IsPayment(w, PlanOf(w, cells), today, r, line, month) <==> Pays(w, cells, today, r, line) && w.monthOf(r.date) == month
  {
    hide PlanOf, OnLine, LineOf;
    LineTakes(w, cells, line, r.category);
  }

  lemma {:induction false} NoPayments(w: Wallet, plan: map<int, int>, today: int, rows: seq<Actual>, line: int, month: int)
    ensures Payments(w, plan, today, rows, line, month) == 0
            <==> forall i :: 0 <= i < |rows| ==> !IsPayment(w, plan, today, rows[i], line, month)
  {
    hide IsPayment;
    if rows != [] {
      NoPayments(w, plan, today, rows[..|rows| - 1], line, month);
    }
  }

  lemma {:induction false} OnePaymentAtMost(w: Wallet, plan: map<int, int>, today: int, rows: seq<Actual>, line: int, month: int)
    ensures Payments(w, plan, today, rows, line, month) <= 1
            <==> forall i, j :: 0 <= i < j < |rows| ==>
                   !(IsPayment(w, plan, today, rows[i], line, month) && IsPayment(w, plan, today, rows[j], line, month))
  {
    hide IsPayment;
    if rows != [] {
      var n := |rows| - 1;
      OnePaymentAtMost(w, plan, today, rows[..n], line, month);
      NoPayments(w, plan, today, rows[..n], line, month);
      assert forall i :: 0 <= i < n ==> rows[..n][i] == rows[i];
    }
  }

  lemma SomePayment(w: Wallet, cells: seq<Slot>, today: int, line: int)
    ensures (exists m :: Payments(w, PlanOf(w, cells), today, w.past, line, m) > 0)
            <==> exists p :: 0 <= p < |w.past| && Pays(w, cells, today, w.past[p], line)
  {
    hide PlanOf, Pays, IsPayment, Payments;
    var plan := PlanOf(w, cells);
    if m :| Payments(w, plan, today, w.past, line, m) > 0 {
      NoPayments(w, plan, today, w.past, line, m);
      var p :| 0 <= p < |w.past| && IsPayment(w, plan, today, w.past[p], line, m);
      PaymentPays(w, cells, today, w.past[p], line, m);
    }
    if p :| 0 <= p < |w.past| && Pays(w, cells, today, w.past[p], line) {
      var m := w.monthOf(w.past[p].date);
      PaymentPays(w, cells, today, w.past[p], line, m);
      NoPayments(w, plan, today, w.past, line, m);
      assert Payments(w, plan, today, w.past, line, m) > 0;
    }
  }

  lemma PaidTwice(w: Wallet, cells: seq<Slot>, today: int, line: int, m: int)
    ensures Payments(w, PlanOf(w, cells), today, w.past, line, m) > 1
            <==> exists p, q :: 0 <= p < q < |w.past| && Pays(w, cells, today, w.past[p], line)
                                && Pays(w, cells, today, w.past[q], line) && w.monthOf(w.past[p].date) == m == w.monthOf(w.past[q].date)
  {
    hide PlanOf, Pays, IsPayment, Payments;
    var plan := PlanOf(w, cells);
    OnePaymentAtMost(w, plan, today, w.past, line, m);
    forall p | 0 <= p < |w.past|
      ensures IsPayment(w, plan, today, w.past[p], line, m) <==> Pays(w, cells, today, w.past[p], line) && w.monthOf(w.past[p].date) == m
    {
      PaymentPays(w, cells, today, w.past[p], line, m);
    }
  }

  ghost predicate PaysAtAll(w: Wallet, cells: seq<Slot>, today: int, line: int) {
    exists p :: 0 <= p < |w.past| && Pays(w, cells, today, w.past[p], line)
  }

  /** Two payments fall in one month. */
  ghost predicate PaysTwice(w: Wallet, cells: seq<Slot>, today: int, line: int) {
    exists p, q :: 0 <= p < q < |w.past| && Pays(w, cells, today, w.past[p], line) && Pays(w, cells, today, w.past[q], line)
                   && w.monthOf(w.past[p].date) == w.monthOf(w.past[q].date)
  }

  lemma TwiceInAMonth(w: Wallet, cells: seq<Slot>, today: int, line: int)
    ensures PaysTwice(w, cells, today, line) <==> exists m :: Payments(w, PlanOf(w, cells), today, w.past, line, m) > 1
  {
    hide PlanOf, Pays, Payments;
    var plan := PlanOf(w, cells);
    if PaysTwice(w, cells, today, line) {
      var p, q :| 0 <= p < q < |w.past| && Pays(w, cells, today, w.past[p], line) && Pays(w, cells, today, w.past[q], line)
                  && w.monthOf(w.past[p].date) == w.monthOf(w.past[q].date);
      PaidTwice(w, cells, today, line, w.monthOf(w.past[p].date));
      assert Payments(w, plan, today, w.past, line, w.monthOf(w.past[p].date)) > 1;
    }
    if m :| Payments(w, plan, today, w.past, line, m) > 1 {
      PaidTwice(w, cells, today, line, m);
    }
  }

  lemma PaidMeans(w: Wallet, plan: map<int, int>, today: int, line: int)
    ensures PaidOncePerMonth(w, plan, today, line)
            <==> (exists m :: Payments(w, plan, today, w.past, line, m) > 0) && !exists m :: Payments(w, plan, today, w.past, line, m) > 1
  {
    if PaidOncePerMonth(w, plan, today, line) {
      var m :| Payments(w, plan, today, w.past, line, m) > 0;
      forall n
        ensures !(Payments(w, plan, today, w.past, line, n) > 1)
      {
        assert Payments(w, plan, today, w.past, line, n) <= 1;
      }
      assert exists k :: Payments(w, plan, today, w.past, line, k) > 0;
      assert !exists k :: Payments(w, plan, today, w.past, line, k) > 1;
    } else if m :| Payments(w, plan, today, w.past, line, m) > 0 {
      var n :| !(Payments(w, plan, today, w.past, line, n) <= 1);
      assert Payments(w, plan, today, w.past, line, n) > 1;
    }
  }

  /** A row is marked exactly when its line has a payment in the three months before, and no two in one of them. */
  lemma PaidOnceAMonth(w: Wallet, cells: seq<Slot>, rows: seq<Actual>, today: int, rep: Report, i: nat)
    requires IsReport(w, cells, rows, today, rep) && i < |rep.rows|
    ensures var line := rep.rows[i].category;
            rep.rows[i].oncePerMonth <==> PaysAtAll(w, cells, today, line) && !PaysTwice(w, cells, today, line)
  {
    hide PlanOf, ActualOf, Ordered, Totals, Payments, PaidOncePerMonth, PaysTwice, Pays;
    var plan, line := PlanOf(w, cells), rep.rows[i].category;
    assert IsLine(w, plan, rows, today, rep.rows[i]);
    PaidMeans(w, plan, today, line);
    SomePayment(w, cells, today, line);
    TwiceInAMonth(w, cells, today, line);
  }
}
