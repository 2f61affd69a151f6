/** The budget report: which line each category counts on, what the lines add up to (server/internal/budget/service.go). */
module BudgetReport {
  import opened Options
  import opened BudgetPlan

  datatype Meta = Meta(parent: Option<int>, name: string, isIncome: bool, noBudget: bool)

  /**
   * What the report reads of a wallet: `toBase` converts an amount of a currency to the base currency, `past` are its
   * transaction and split lines of whatever date, and `monthOf` numbers the months.
   */
  datatype Wallet = Wallet(meta: map<int, Meta>, budgets: map<int, map<Slot, int>>, toBase: (int, int) -> int,
                           past: seq<Actual>, monthOf: int -> int)

  /** A transaction or split line; dates as day numbers. */
  datatype Actual = Actual(category: Option<int>, amount: int, currency: int, date: int)

  datatype ReportRow = ReportRow(category: int, name: string, isIncome: bool, budgeted: bool, budget: int, actual: int, coming: int,
                                 oncePerMonth: bool)

  datatype Report = Report(rows: seq<ReportRow>, totalBudget: int, totalActual: int, totalComing: int)

  // ----- the lines -----

  function BudgetOf(w: Wallet, id: int, cells: seq<Slot>): int {
    if id in w.budgets then Total(w.budgets[id], cells) else 0
  }

  /** The categories with a budget in the period. */
  function PlanOf(w: Wallet, cells: seq<Slot>): map<int, int> {
    map id | id in w.meta && !w.meta[id].noBudget && BudgetOf(w, id, cells) != 0 :: BudgetOf(w, id, cells)
  }

  predicate PlanFits(w: Wallet, plan: map<int, int>) {
    forall id :: id in plan ==> id in w.meta && !w.meta[id].noBudget
  }

  /** The line a category counts on: its own when it has a budget, else its parent's if that has one, else its own. */
  function LineOf(w: Wallet, plan: map<int, int>, id: int): Option<int> {
    if id !in w.meta || w.meta[id].noBudget then None
    else if id in plan then Some(id)
    else if w.meta[id].parent.Some? && w.meta[id].parent.value in plan then w.meta[id].parent
    else Some(id)
  }

  /** A line is its own line, and a category that counts. */
  lemma LineIsItsOwnLine(w: Wallet, plan: map<int, int>, id: int)
    requires PlanFits(w, plan) && LineOf(w, plan, id).Some?
    ensures var line := LineOf(w, plan, id).value;
            LineOf(w, plan, line) == Some(line) && line in w.meta && !w.meta[line].noBudget
  {
  }

  function LineOfRow(w: Wallet, plan: map<int, int>, r: Actual): Option<int> {
    if r.category.None? then None else LineOf(w, plan, r.category.value)
  }

  function InBase(w: Wallet, r: Actual): int {
    (w.toBase)(r.amount, r.currency)
  }

  /** What a line takes of the rows; with `after`, only of those dated later. */
  function ActualOf(w: Wallet, plan: map<int, int>, rows: seq<Actual>, after: Option<int>, line: int): int {
    if rows == [] then 0
    else
      var r := rows[|rows| - 1];
      ActualOf(w, plan, rows[..|rows| - 1], after, line)
      + if LineOfRow(w, plan, r) == Some(line) && (after.Some? ==> r.date > after.value) then InBase(w, r) else 0
  }

  // ----- lines paid once a month -----

  const SPAN := 3

  /** A payment on the line, or for income a receipt, in a month of the three before today's. */
  predicate IsPayment(w: Wallet, plan: map<int, int>, today: int, r: Actual, line: int, month: int) {
    && w.monthOf(today) - SPAN <= w.monthOf(r.date) < w.monthOf(today) && w.monthOf(r.date) == month
    && r.amount != 0 && LineOfRow(w, plan, r) == Some(line) && line in w.meta && (r.amount > 0 <==> w.meta[line].isIncome)
  }

  function Payments(w: Wallet, plan: map<int, int>, today: int, rows: seq<Actual>, line: int, month: int): nat {
    if rows == [] then 0
    else
      Payments(w, plan, today, rows[..|rows| - 1], line, month)
      + if IsPayment(w, plan, today, rows[|rows| - 1], line, month) then 1 else 0
  }

  /** At least one payment, and in no month two. */
  ghost predicate PaidOncePerMonth(w: Wallet, plan: map<int, int>, today: int, line: int) {
    && (exists m :: Payments(w, plan, today, w.past, line, m) > 0)
    && (forall m :: Payments(w, plan, today, w.past, line, m) <= 1)
  }

  ghost predicate Counts(payments: map<(int, int), nat>, w: Wallet, plan: map<int, int>, today: int, rows: seq<Actual>) {
    forall line, m :: Payments(w, plan, today, rows, line, m) == if (line, m) in payments then payments[(line, m)] else 0
  }

  lemma NoPayment(w: Wallet, plan: map<int, int>, today: int)
    ensures Counts(map[], w, plan, today, [])
  {
  }

  /** The line and the month of a payment, if the row is one. */
  function PaymentKey(w: Wallet, plan: map<int, int>, today: int, r: Actual): Option<(int, int)> {
    var line := LineOfRow(w, plan, r);
    if !(w.monthOf(today) - SPAN <= w.monthOf(r.date) < w.monthOf(today)) || line.None? || line.value !in w.meta then None
    else if (r.amount > 0) != w.meta[line.value].isIncome || r.amount == 0 then None
    else Some((line.value, w.monthOf(r.date)))
  }

  lemma OnePayment(payments: map<(int, int), nat>, w: Wallet, plan: map<int, int>, today: int, rows: seq<Actual>, k: nat)
    requires k < |rows| && Counts(payments, w, plan, today, rows[..k])
    ensures var key := PaymentKey(w, plan, today, rows[k]);
            var after := if key.None? then payments
                         else payments[key.value := (if key.value in payments then payments[key.value] else 0) + 1];
            Counts(after, w, plan, today, rows[..k + 1])
  {
    hide LineOfRow;
    assert rows[..k + 1][..k] == rows[..k];
    forall line, m
      ensures IsPayment(w, plan, today, rows[k], line, m) <==> PaymentKey(w, plan, today, rows[k]) == Some((line, m))
    {
    }
  }

  /** What the keys seen so far say of each line, whatever their order. */
  ghost predicate OnceSoFar(once: map<int, bool>, payments: map<(int, int), nat>, left: set<(int, int)>) {
    forall line ::
      && (line in once <==> exists m :: (line, m) in payments && (line, m) !in left)
      && (line in once ==> (once[line] <==> forall m :: (line, m) in payments && (line, m) !in left ==> payments[(line, m)] == 1))
  }

  lemma OnceOneMore(once: map<int, bool>, payments: map<(int, int), nat>, left: set<(int, int)>, line: int, m: int)
    requires OnceSoFar(once, payments, left) && (line, m) in left && (line, m) in payments
    ensures var n := payments[(line, m)];
            OnceSoFar(if line !in once || once[line] then once[line := n == 1] else once, payments, left - {(line, m)})
  {
    var after := if line !in once || once[line] then once[line := payments[(line, m)] == 1] else once;
    var rest := left - {(line, m)};
    forall l
      ensures l in after <==> exists k :: (l, k) in payments && (l, k) !in rest
      ensures l in after ==> (after[l] <==> forall k :: (l, k) in payments && (l, k) !in rest ==> payments[(l, k)] == 1)
    {
      assert forall k :: (l, k) in rest <==> (l, k) in left && !(l == line && k == m);
      if l == line {
        assert (l, m) in payments && (l, m) !in rest;
      }
    }
  }

  lemma NothingSeen(payments: map<(int, int), nat>)
    ensures OnceSoFar(map[], payments, payments.Keys)
  {
  }

  ghost predicate OnceOf(once: map<int, bool>, w: Wallet, plan: map<int, int>, today: int) {
    forall line :: line in once && once[line] <==> PaidOncePerMonth(w, plan, today, line)
  }

  lemma OnceIsPaid(once: map<int, bool>, payments: map<(int, int), nat>, w: Wallet, plan: map<int, int>, today: int)
    requires OnceSoFar(once, payments, {}) && Counts(payments, w, plan, today, w.past)
    requires forall key :: key in payments ==> payments[key] > 0
    ensures OnceOf(once, w, plan, today)
  {
    hide Payments;
    forall line
      ensures line in once && once[line] <==> PaidOncePerMonth(w, plan, today, line)
    {
      assert forall m :: Payments(w, plan, today, w.past, line, m) == if (line, m) in payments then payments[(line, m)] else 0;
      assert forall m :: (line, m) in payments ==> payments[(line, m)] > 0;
    }
  }

  /** Which lines were paid once a month, by counting payments by line and month. */
  method OncePerMonth(w: Wallet, plan: map<int, int>, today: int) returns (once: map<int, bool>)
    ensures OnceOf(once, w, plan, today)
  {
    hide *;
    var payments: map<(int, int), nat> := map[];
    NoPayment(w, plan, today);
    assert w.past[..0] == [];
    for k := 0 to |w.past|
      invariant Counts(payments, w, plan, today, w.past[..k])
      invariant forall key :: key in payments ==> payments[key] > 0
    {
      OnePayment(payments, w, plan, today, w.past, k);
      var key := PaymentKey(w, plan, today, w.past[k]);
      if key.Some? {
        payments := payments[key.value := (if key.value in payments then payments[key.value] else 0) + 1];
      }
    }
    assert w.past[..|w.past|] == w.past;
    once := map[];
    NothingSeen(payments);
    var left := payments.Keys;
    while exists key :: key in left
      invariant left <= payments.Keys && OnceSoFar(once, payments, left)
      decreases |left|
    {
      var key :| key in left;
      var line, n := key.0, payments[key];
      OnceOneMore(once, payments, left, line, key.1);
      left := left - {key};
      if line !in once || once[line] {
        once := once[line := n == 1];
      }
    }
    assert left == {};
    OnceIsPaid(once, payments, w, plan, today);
  }

  ghost function RowOf(w: Wallet, plan: map<int, int>, rows: seq<Actual>, today: int, id: int): ReportRow
    requires id in w.meta
  {
    ReportRow(id, w.meta[id].name, w.meta[id].isIncome, id in plan, if id in plan then plan[id] else 0,
              ActualOf(w, plan, rows, None, id), ActualOf(w, plan, rows, Some(today), id), PaidOncePerMonth(w, plan, today, id))
  }

  // ----- the order of the rows -----

  predicate Below(a: string, b: string) {
    b != "" && (a == "" || a[0] < b[0] || (a[0] == b[0] && Below(a[1..], b[1..])))
  }

  /** Income first, then by name. */
  predicate Less(a: ReportRow, b: ReportRow) {
    if a.isIncome != b.isIncome then a.isIncome && !b.isIncome else Below(a.name, b.name)
  }

  ghost predicate Ordered(rows: seq<ReportRow>) {
    forall i, j :: 0 <= i < j < |rows| ==> !Less(rows[j], rows[i])
  }

  lemma {:induction false} NotBelowGoesOn(a: string, b: string, c: string)
    requires !Below(b, a) && !Below(c, b)
    ensures !Below(c, a)
  {
    if a != "" && b != "" && c != "" && c[0] == b[0] && b[0] == a[0] {
      NotBelowGoesOn(a[1..], b[1..], c[1..]);
    }
  }

  lemma NotLessGoesOn(a: ReportRow, b: ReportRow, c: ReportRow)
    requires !Less(b, a) && !Less(c, b)
    ensures !Less(c, a)
  {
    hide Below;
    if a.isIncome == b.isIncome == c.isIncome {
      NotBelowGoesOn(a.name, b.name, c.name);
    }
  }

  /** All in order up to and with i, but that the row at j may belong further in front. */
  ghost predicate OrderedBut(rows: seq<ReportRow>, i: int, j: int) {
    && 0 <= j <= i < |rows|
    && forall p, q :: 0 <= p < q <= i && q != j ==> !Less(rows[q], rows[p])
  }

  lemma SinkOne(rows: seq<ReportRow>, i: int, j: int)
    requires OrderedBut(rows, i, j) && j > 0 && Less(rows[j], rows[j - 1])
    ensures OrderedBut(rows[j := rows[j - 1]][j - 1 := rows[j]], i, j - 1)
  {
    hide Less;
    LessIsOneWay(rows[j], rows[j - 1]);
  }

  lemma LessIsOneWay(a: ReportRow, b: ReportRow)
    requires Less(a, b)
    ensures !Less(b, a)
  {
    hide Below;
    if a.isIncome == b.isIncome {
      BelowIsOneWay(a.name, b.name);
    }
  }

  lemma {:induction false} BelowIsOneWay(a: string, b: string)
    requires Below(a, b)
    ensures !Below(b, a)
  {
    if a != "" && a[0] == b[0] {
      BelowIsOneWay(a[1..], b[1..]);
    }
  }

  /** The first i rows, or all when there are fewer, are in order. */
  ghost predicate SortedTo(rows: seq<ReportRow>, i: nat) {
    Ordered(if i <= |rows| then rows[..i] else rows)
  }

  lemma SunkIsOrdered(rows: seq<ReportRow>, i: int, j: int)
    requires OrderedBut(rows, i, j) && (j > 0 ==> !Less(rows[j], rows[j - 1]))
    ensures SortedTo(rows, i + 1)
  {
    hide Less;
    forall p | 0 <= p < j
      ensures !Less(rows[j], rows[p])
    {
      if p < j - 1 {
        NotLessGoesOn(rows[p], rows[j - 1], rows[j]);
      }
    }
  }

  lemma OneMoreRow(rows: seq<ReportRow>, i: int)
    requires 0 <= i < |rows| && SortedTo(rows, i)
    ensures OrderedBut(rows, i, i)
  {
    hide Less;
    var done := rows[..i];
    assert forall p :: 0 <= p < i ==> rows[p] == done[p];
  }

  method Swap(a: array<ReportRow>, i: int, j: int)
    requires 0 <= i < a.Length && 0 <= j < a.Length
    modifies a
    ensures a[..] == old(a[..])[i := old(a[j])][j := old(a[i])]
  {
    a[i], a[j] := a[j], a[i];
  }

  ghost predicate Reordered(a: seq<ReportRow>, b: seq<ReportRow>) {
    multiset(a) == multiset(b)
  }

  lemma SwapReorders(was: seq<ReportRow>, rows: seq<ReportRow>, i: int, j: int)
    requires Reordered(rows, was) && 0 <= i < |rows| && 0 <= j < |rows|
    ensures Reordered(rows[i := rows[j]][j := rows[i]], was)
  {
  }

  /** Moves row i forward to its place among the rows before it. */
  method Sink(a: array<ReportRow>, i: nat)
    requires i < a.Length && OrderedBut(a[..], i, i)
    modifies a
    ensures SortedTo(a[..], i + 1) && Reordered(a[..], old(a[..]))
  {
    hide *;
    ghost var was := a[..];
    ghost var rows := was;
    var j := i;
    NotReordered(was);
    while j > 0 && Less(a[j], a[j - 1])
      invariant 0 <= j <= i && a[..] == rows && OrderedBut(rows, i, j) && Reordered(rows, was)
    {
      SinkOne(rows, i, j);
      SwapReorders(was, rows, j, j - 1);
      Swap(a, j, j - 1);
      rows := rows[j := rows[j - 1]][j - 1 := rows[j]];
      j := j - 1;
    }
    SunkIsOrdered(rows, i, j);
  }

  /** The insertion sort, in place. */
  method SortRows(a: array<ReportRow>)
    modifies a
    ensures Ordered(a[..]) && Reordered(a[..], old(a[..]))
  {
    hide *;
    var i := 1;
    ghost var was := a[..];
    FewAreOrdered(was);
    NotReordered(was);
    while i < a.Length
      invariant 1 <= i && SortedTo(a[..], i) && Reordered(a[..], was)
    {
      ghost var now := a[..];
      OneMoreRow(now, i);
      Sink(a, i);
      ReorderedTwice(a[..], now, was);
      i := i + 1;
    }
    AllSorted(a[..], i);
  }

  lemma NotReordered(rows: seq<ReportRow>)
    ensures Reordered(rows, rows)
  {
  }

  lemma ReorderedTwice(a: seq<ReportRow>, b: seq<ReportRow>, c: seq<ReportRow>)
    requires Reordered(a, b) && Reordered(b, c)
    ensures Reordered(a, c)
  {
  }

  lemma AllSorted(rows: seq<ReportRow>, i: nat)
    requires SortedTo(rows, i)
    ensures |rows| <= i ==> Ordered(rows)
  {
    assert rows[..|rows|] == rows;
  }

  lemma FewAreOrdered(rows: seq<ReportRow>)
    ensures SortedTo(rows, 1)
  {
  }

  // ----- sums over rows -----

  function Sum(rows: seq<ReportRow>, f: ReportRow -> int): int {
    if rows == [] then 0 else Sum(rows[..|rows| - 1], f) + f(rows[|rows| - 1])
  }

  lemma {:induction false} SumWithout(rows: seq<ReportRow>, f: ReportRow -> int, k: nat)
    requires k < |rows|
    ensures Sum(rows, f) == Sum(rows[..k] + rows[k + 1..], f) + f(rows[k])
  {
    var n := |rows| - 1;
    if k < n {
      SumWithout(rows[..n], f, k);
      assert rows[..n][..k] == rows[..k];
      assert (rows[..k] + rows[k + 1..])[..n - 1] == rows[..k] + rows[..n][k + 1..];
    } else {
      assert rows[..k] + rows[k + 1..] == rows[..n];
    }
  }

  /** A sum does not depend on the order. */
  lemma {:induction false} SumOfPermutation(a: seq<ReportRow>, b: seq<ReportRow>, f: ReportRow -> int)
    requires multiset(a) == multiset(b)
    ensures Sum(a, f) == Sum(b, f)
  {
    if a == [] {
      assert multiset(b) == multiset{};
      EmptyOf(b);
    } else {
      var n := |a| - 1;
      assert a[n] in multiset(b);
      var k :| 0 <= k < |b| && b[k] == a[n];
      SumWithout(b, f, k);
      Removed(a, b, k);
      SumOfPermutation(a[..n], b[..k] + b[k + 1..], f);
    }
  }

  lemma EmptyOf(b: seq<ReportRow>)
    requires multiset(b) == multiset{}
    ensures b == []
  {
    assert |multiset(b)| == |b|;
  }

  lemma Removed(a: seq<ReportRow>, b: seq<ReportRow>, k: nat)
    requires a != [] && k < |b| && b[k] == a[|a| - 1] && multiset(a) == multiset(b)
    ensures multiset(a[..|a| - 1]) == multiset(b[..k] + b[k + 1..])
  {
    var n := |a| - 1;
    assert a == a[..n] + [a[n]];
    assert b == b[..k] + ([b[k]] + b[k + 1..]);
    assert multiset(a) == multiset(a[..n]) + multiset{a[n]};
    assert multiset(b) == multiset(b[..k]) + (multiset{b[k]} + multiset(b[k + 1..]));
    assert multiset(b[..k] + b[k + 1..]) == multiset(b[..k]) + multiset(b[k + 1..]);
    assert multiset(a[..n]) == multiset(a) - multiset{a[n]};
  }

  /** The totals are over the budgeted spending lines. */
  function Spent(r: ReportRow, amount: int): int {
    if r.budgeted && !r.isIncome then amount else 0
  }

  // ----- the report -----

  /** Exactly the lines with a budget or with something spent, each once, in the order of the page. */
  ghost predicate IsReport(w: Wallet, cells: seq<Slot>, rows: seq<Actual>, today: int, rep: Report) {
    var plan := PlanOf(w, cells);
    && Ordered(rep.rows)
    && AreLines(w, plan, rows, today, rep.rows)
    && (forall c :: c in plan || ActualOf(w, plan, rows, None, c) != 0 ==> exists i :: 0 <= i < |rep.rows| && rep.rows[i].category == c)
    && Totals(rep)
  }

  /** Rows of lines, each the line's, no line twice. */
  ghost predicate AreLines(w: Wallet, plan: map<int, int>, rows: seq<Actual>, today: int, out: seq<ReportRow>) {
    && (forall i :: 0 <= i < |out| ==> IsLine(w, plan, rows, today, out[i]))
    && (forall i, j :: 0 <= i < j < |out| ==> out[i].category != out[j].category)
  }

  ghost predicate IsLine(w: Wallet, plan: map<int, int>, rows: seq<Actual>, today: int, row: ReportRow) {
    var id := row.category;
    && id in w.meta && row == RowOf(w, plan, rows, today, id)
    && (id in plan || ActualOf(w, plan, rows, None, id) != 0)
  }

  ghost predicate Totals(rep: Report) {
    && rep.totalBudget == Sum(rep.rows, (r: ReportRow) => Spent(r, r.budget))
    && rep.totalActual == Sum(rep.rows, (r: ReportRow) => Spent(r, r.actual))
    && rep.totalComing == Sum(rep.rows, (r: ReportRow) => Spent(r, r.coming))
  }

  method Plan(w: Wallet, cells: seq<Slot>) returns (plan: map<int, int>)
    ensures plan == PlanOf(w, cells)
  {
    hide Total;
    plan := map[];
    var ids := w.meta.Keys;
    while exists id :: id in ids
      invariant ids <= w.meta.Keys
      invariant forall id :: id in plan <==> id in PlanOf(w, cells) && id !in ids
      invariant forall id :: id in plan ==> plan[id] == BudgetOf(w, id, cells)
      decreases |ids|
    {
      var id :| id in ids;
      ids := ids - {id};
      if !w.meta[id].noBudget {
        var b := 0;
        if id in w.budgets {
          b := BudgetForPeriodYear(w.budgets[id], cells);
        }
        if b != 0 {
          plan := plan[id := b];
        }
      }
    }
    assert forall id :: id in plan <==> id in PlanOf(w, cells);
  }

  function At(m: map<int, int>, k: int): int {
    if k in m then m[k] else 0
  }

  ghost predicate Collected(w: Wallet, plan: map<int, int>, rows: seq<Actual>, after: Option<int>, m: map<int, int>) {
    && (forall line :: At(m, line) == ActualOf(w, plan, rows, after, line))
    && (forall line :: line in m ==> LineOf(w, plan, line) == Some(line))
  }

  lemma CollectOne(w: Wallet, plan: map<int, int>, rows: seq<Actual>, i: nat, after: Option<int>, m: map<int, int>)
    requires i < |rows| && PlanFits(w, plan) && Collected(w, plan, rows[..i], after, m)
    ensures var line := LineOfRow(w, plan, rows[i]);
            Collected(w, plan, rows[..i + 1], after,
                      if line.Some? && (after.Some? ==> rows[i].date > after.value)
                      then m[line.value := At(m, line.value) + InBase(w, rows[i])] else m)
  {
    hide LineOf;
    assert rows[..i + 1][..i] == rows[..i];
    forall line
      ensures ActualOf(w, plan, rows[..i + 1], after, line)
              == ActualOf(w, plan, rows[..i], after, line)
                 + if LineOfRow(w, plan, rows[i]) == Some(line) && (after.Some? ==> rows[i].date > after.value)
                   then InBase(w, rows[i]) else 0
    {
    }
    if LineOfRow(w, plan, rows[i]).Some? {
      LineIsItsOwnLine(w, plan, rows[i].category.value);
    }
  }

  lemma CollectNone(w: Wallet, plan: map<int, int>, after: Option<int>)
    ensures Collected(w, plan, [], after, map[])
  {
  }

  /** The amounts by line, of all rows and of those still to come. */
  method Collect(w: Wallet, plan: map<int, int>, rows: seq<Actual>, today: int)
    returns (actual: map<int, int>, coming: map<int, int>)
    requires PlanFits(w, plan)
    ensures Collected(w, plan, rows, None, actual) && Collected(w, plan, rows, Some(today), coming)
  {
    hide Collected, LineOf;
    actual, coming := map[], map[];
    CollectNone(w, plan, None);
    CollectNone(w, plan, Some(today));
    assert rows[..0] == [];
    for i := 0 to |rows|
      invariant Collected(w, plan, rows[..i], None, actual) && Collected(w, plan, rows[..i], Some(today), coming)
    {
      CollectOne(w, plan, rows, i, None, actual);
      CollectOne(w, plan, rows, i, Some(today), coming);
      var r := rows[i];
      if r.category.None? {
        continue;
      }
      var line := LineOf(w, plan, r.category.value);
      if line.None? {
        continue;
      }
      var amt := (w.toBase)(r.amount, r.currency);
      actual := actual[line.value := At(actual, line.value) + amt];
      if r.date > today {
        coming := coming[line.value := At(coming, line.value) + amt];
      }
    }
    assert rows[..|rows|] == rows;
  }

  ghost predicate AddedSoFar(w: Wallet, plan: map<int, int>, rows: seq<Actual>, today: int, rep: Report, seen: set<int>) {
    AreLines(w, plan, rows, today, rep.rows) && Totals(rep) && Seen(seen, rep.rows)
  }

  function WithRow(rep: Report, row: ReportRow): Report {
    Report(rep.rows + [row], rep.totalBudget + Spent(row, row.budget), rep.totalActual + Spent(row, row.actual),
           rep.totalComing + Spent(row, row.coming))
  }

  lemma SumOneMore(rows: seq<ReportRow>, row: ReportRow, f: ReportRow -> int)
    ensures Sum(rows + [row], f) == Sum(rows, f) + f(row)
  {
    assert (rows + [row])[..|rows|] == rows;
  }

  lemma TotalsMore(rep: Report, row: ReportRow)
    requires Totals(rep)
    ensures Totals(WithRow(rep, row))
  {
    hide Sum, Spent;
    SumOneMore(rep.rows, row, (r: ReportRow) => Spent(r, r.budget));
    SumOneMore(rep.rows, row, (r: ReportRow) => Spent(r, r.actual));
    SumOneMore(rep.rows, row, (r: ReportRow) => Spent(r, r.coming));
  }

  ghost predicate Seen(seen: set<int>, rows: seq<ReportRow>) {
    forall c :: c in seen <==> exists i :: 0 <= i < |rows| && rows[i].category == c
  }

  lemma SeenMore(seen: set<int>, rows: seq<ReportRow>, row: ReportRow)
    requires Seen(seen, rows)
    ensures Seen(seen + {row.category}, rows + [row])
  {
    var next := rows + [row];
    assert next[|rows|] == row;
    forall c
      ensures c in seen + {row.category} <==> exists i :: 0 <= i < |next| && next[i].category == c
    {
      if i :| 0 <= i < |rows| && rows[i].category == c {
        assert next[i].category == c;
      }
    }
  }

  lemma LinesMore(w: Wallet, plan: map<int, int>, rows: seq<Actual>, today: int, out: seq<ReportRow>, seen: set<int>, row: ReportRow)
    requires AreLines(w, plan, rows, today, out) && Seen(seen, out)
    requires IsLine(w, plan, rows, today, row) && row.category !in seen
    ensures AreLines(w, plan, rows, today, out + [row])
  {
    hide IsLine;
  }

  lemma AddOne(w: Wallet, plan: map<int, int>, rows: seq<Actual>, today: int, rep: Report, seen: set<int>, row: ReportRow)
    requires AddedSoFar(w, plan, rows, today, rep, seen)
    requires IsLine(w, plan, rows, today, row) && row.category !in seen
    ensures AddedSoFar(w, plan, rows, today, WithRow(rep, row), seen + {row.category})
  {
    hide IsLine, AreLines, Totals, Seen, Spent;
    TotalsMore(rep, row);
    SeenMore(seen, rep.rows, row);
    LinesMore(w, plan, rows, today, rep.rows, seen, row);
  }

  /** Adds a line, if it is not there yet. */
  method Add(w: Wallet, plan: map<int, int>, ghost rows: seq<Actual>, ghost today: int, actual: map<int, int>,
             coming: map<int, int>, once: map<int, bool>, rep: Report, seen: set<int>, id: int) returns (out: Report, seenAfter: set<int>)
    requires AddedSoFar(w, plan, rows, today, rep, seen)
    requires Collected(w, plan, rows, None, actual) && Collected(w, plan, rows, Some(today), coming)
    requires OnceOf(once, w, plan, today) && id in w.meta && (id in plan || At(actual, id) != 0)
    ensures AddedSoFar(w, plan, rows, today, out, seenAfter) && seenAfter == seen + {id}
  {
    hide AddedSoFar, PaidOncePerMonth;
    if id in seen {
      return rep, seen;
    }
    var m := w.meta[id];
    var row := ReportRow(id, m.name, m.isIncome, id in plan, At(plan, id), At(actual, id), At(coming, id),
                         id in once && once[id]);
    out := WithRow(rep, row);
    seenAfter := seen + {id};
    AddOne(w, plan, rows, today, rep, seen, row);
  }

  lemma StartOfReport(w: Wallet, plan: map<int, int>, rows: seq<Actual>, today: int)
    ensures AddedSoFar(w, plan, rows, today, Report([], 0, 0, 0), {})
  {
  }

  /** Budget against actual, line by line, over the covered months. */
  method MakeReport(w: Wallet, cells: seq<Slot>, rows: seq<Actual>, today: int) returns (rep: Report)
    ensures IsReport(w, cells, rows, today, rep)
  {
    hide AddedSoFar, Collected, ActualOf, Ordered, IsReport, OnceOf;
    var plan := Plan(w, cells);
    var actual, coming := Collect(w, plan, rows, today);
    var once := OncePerMonth(w, plan, today);
    rep := Report([], 0, 0, 0);
    var seen: set<int> := {};
    StartOfReport(w, plan, rows, today);
    var ids := plan.Keys;
    while exists id :: id in ids
      invariant ids <= plan.Keys && AddedSoFar(w, plan, rows, today, rep, seen)
      invariant forall id :: id in plan && id !in ids ==> id in seen
      decreases |ids|
    {
      var id :| id in ids;
      ids := ids - {id};
      rep, seen := Add(w, plan, rows, today, actual, coming, once, rep, seen, id);
    }
    ids := actual.Keys;
    while exists id :: id in ids
      invariant ids <= actual.Keys && AddedSoFar(w, plan, rows, today, rep, seen)
      invariant forall id :: id in plan ==> id in seen
      invariant forall id :: id in actual && id !in ids && actual[id] != 0 ==> id in seen
      decreases |ids|
    {
      var id :| id in ids;
      ids := ids - {id};
      if actual[id] != 0 {
        LineIsKnown(w, plan, rows, actual, id);
        rep, seen := Add(w, plan, rows, today, actual, coming, once, rep, seen, id);
      }
    }
    var a := new ReportRow[|rep.rows|](i requires 0 <= i < |rep.rows| => rep.rows[i]);
    assert a[..] == rep.rows;
    SortRows(a);
    SortedIsReport(w, cells, rows, today, rep, seen, actual, a[..]);
    rep := rep.(rows := a[..]);
  }

  lemma LineIsKnown(w: Wallet, plan: map<int, int>, rows: seq<Actual>, actual: map<int, int>, id: int)
    requires Collected(w, plan, rows, None, actual) && id in actual
    ensures id in w.meta
  {
  }

  lemma SortedAreLines(w: Wallet, plan: map<int, int>, rows: seq<Actual>, today: int, a: seq<ReportRow>, b: seq<ReportRow>)
    requires AreLines(w, plan, rows, today, a) && multiset(a) == multiset(b)
    ensures AreLines(w, plan, rows, today, b)
    ensures forall r :: r in a <==> r in b
  {
    hide IsLine;
    assert forall r :: r in a <==> r in multiset(a);
    assert forall r :: r in b <==> r in multiset(b);
    forall i | 0 <= i < |b|
      ensures IsLine(w, plan, rows, today, b[i])
    {
      assert b[i] in a;
    }
    forall i, j | 0 <= i < j < |b|
      ensures b[i].category != b[j].category
    {
      if b[i].category == b[j].category {
        assert b[i] in a && b[j] in a;
        assert b[i] == b[j];
        Twice(b, i, j);
        OnceEach(a, b[i]);
        assert false;
      }
    }
  }

  lemma Twice(b: seq<ReportRow>, i: int, j: int)
    requires 0 <= i < j < |b| && b[i] == b[j]
    ensures multiset(b)[b[i]] >= 2
  {
    assert b == b[..j] + ([b[j]] + b[j + 1..]);
    assert b[..j][i] in multiset(b[..j]);
  }

  lemma {:induction false} OnceEach(a: seq<ReportRow>, r: ReportRow)
    requires forall i, j :: 0 <= i < j < |a| ==> a[i] != a[j]
    ensures multiset(a)[r] <= 1
  {
    if a != [] {
      var n := |a| - 1;
      assert a == a[..n] + [a[n]];
      OnceEach(a[..n], r);
      assert r == a[n] ==> r !in a[..n];
    }
  }

  lemma SortedIsReport(w: Wallet, cells: seq<Slot>, rows: seq<Actual>, today: int, rep: Report, seen: set<int>,
                       actual: map<int, int>, sorted: seq<ReportRow>)
    requires var plan := PlanOf(w, cells);
             && AddedSoFar(w, plan, rows, today, rep, seen) && Collected(w, plan, rows, None, actual)
             && (forall id :: id in plan ==> id in seen)
             && (forall id :: id in actual && actual[id] != 0 ==> id in seen)
    requires Ordered(sorted) && multiset(sorted) == multiset(rep.rows)
    ensures IsReport(w, cells, rows, today, rep.(rows := sorted))
  {
    hide IsLine, AreLines, Ordered, ActualOf;
    var plan := PlanOf(w, cells);
    SortedAreLines(w, plan, rows, today, rep.rows, sorted);
    SumOfPermutation(sorted, rep.rows, (r: ReportRow) => Spent(r, r.budget));
    SumOfPermutation(sorted, rep.rows, (r: ReportRow) => Spent(r, r.actual));
    SumOfPermutation(sorted, rep.rows, (r: ReportRow) => Spent(r, r.coming));
    forall c | c in plan || ActualOf(w, plan, rows, None, c) != 0
      ensures exists i :: 0 <= i < |sorted| && sorted[i].category == c
    {
      assert At(actual, c) == ActualOf(w, plan, rows, None, c);
      assert c in seen;
      var i :| 0 <= i < |rep.rows| && rep.rows[i].category == c;
      assert rep.rows[i] in sorted;
      var j :| 0 <= j < |sorted| && sorted[j] == rep.rows[i];
    }
  }

  // ----- what the lines add up to -----

  /** What all counted rows come to. */
  function Counted(w: Wallet, plan: map<int, int>, rows: seq<Actual>): int {
    if rows == [] then 0
    else
      var r := rows[|rows| - 1];
      Counted(w, plan, rows[..|rows| - 1]) + if LineOfRow(w, plan, r).Some? then InBase(w, r) else 0
  }

  function SumLines(w: Wallet, plan: map<int, int>, rows: seq<Actual>, lines: seq<int>): int {
    if lines == [] then 0
    else SumLines(w, plan, rows, lines[..|lines| - 1]) + ActualOf(w, plan, rows, None, lines[|lines| - 1])
  }

  ghost predicate NoneTwice(lines: seq<int>) {
    forall i, j :: 0 <= i < j < |lines| ==> lines[i] != lines[j]
  }

  lemma {:induction false} SumLinesOfNone(w: Wallet, plan: map<int, int>, lines: seq<int>)
    ensures SumLines(w, plan, [], lines) == 0
  {
    if lines != [] {
      SumLinesOfNone(w, plan, lines[..|lines| - 1]);
    }
  }

  /** One more row adds to the sum over the lines what it is worth, if its line is among them. */
  lemma {:induction false} SumLinesStep(w: Wallet, plan: map<int, int>, rows: seq<Actual>, lines: seq<int>)
    requires rows != [] && NoneTwice(lines)
    ensures var r := rows[|rows| - 1];
            SumLines(w, plan, rows, lines) == SumLines(w, plan, rows[..|rows| - 1], lines)
                                              + if LineOfRow(w, plan, r).Some? && LineOfRow(w, plan, r).value in lines
                                                then InBase(w, r) else 0
  {
    hide LineOfRow, InBase;
    if lines != [] {
      var n := |lines| - 1;
      SumLinesStep(w, plan, rows, lines[..n]);
      assert lines == lines[..n] + [lines[n]];
    }
  }

  lemma {:induction false} LinesTakeAll(w: Wallet, plan: map<int, int>, rows: seq<Actual>, lines: seq<int>)
    requires NoneTwice(lines)
    requires forall i :: 0 <= i < |rows| && LineOfRow(w, plan, rows[i]).Some? ==> LineOfRow(w, plan, rows[i]).value in lines
    ensures SumLines(w, plan, rows, lines) == Counted(w, plan, rows)
  {
    hide LineOfRow, InBase, NoneTwice;
    if rows == [] {
      SumLinesOfNone(w, plan, lines);
    } else {
      var n := |rows| - 1;
      assert forall i :: 0 <= i < n ==> rows[..n][i] == rows[i];
      LinesTakeAll(w, plan, rows[..n], lines);
      SumLinesStep(w, plan, rows, lines);
    }
  }

  /** Lines that are missing, with nothing on them, change no sum. */
  lemma {:induction false} LinesWithMissing(w: Wallet, plan: map<int, int>, rows: seq<Actual>, k: nat, lines: seq<int>)
    returns (all: seq<int>)
    requires k <= |rows| && NoneTwice(lines)
    requires forall line :: ActualOf(w, plan, rows, None, line) != 0 ==> line in lines
    ensures NoneTwice(all) && SumLines(w, plan, rows, all) == SumLines(w, plan, rows, lines)
    ensures forall line :: line in lines ==> line in all
    ensures forall i :: 0 <= i < k && LineOfRow(w, plan, rows[i]).Some? ==> LineOfRow(w, plan, rows[i]).value in all
  {
    hide LineOfRow, ActualOf;
    if k == 0 {
      all := lines;
    } else {
      all := LinesWithMissing(w, plan, rows, k - 1, lines);
      var line := LineOfRow(w, plan, rows[k - 1]);
      if line.Some? && line.value !in all {
        var more := all + [line.value];
        assert more[..|all|] == all;
        assert ActualOf(w, plan, rows, None, line.value) == 0;
        assert forall x :: x in all ==> x in more;
        all := more;
      }
    }
  }

  lemma {:induction false} SumOfActuals(w: Wallet, plan: map<int, int>, rows: seq<Actual>, today: int, out: seq<ReportRow>,
                                        lines: seq<int>)
    requires AreLines(w, plan, rows, today, out) && |lines| == |out|
    requires forall i :: 0 <= i < |out| ==> lines[i] == out[i].category
    ensures Sum(out, (r: ReportRow) => r.actual) == SumLines(w, plan, rows, lines)
    decreases |out|
  {
    hide ActualOf;
    if out != [] {
      var n := |out| - 1;
      assert IsLine(w, plan, rows, today, out[n]);
      assert AreLines(w, plan, rows, today, out[..n]);
      SumOfActuals(w, plan, rows, today, out[..n], lines[..n]);
    }
  }

  /** Every counted amount is on exactly one line: the lines' actuals add up to the converted amounts of all counted rows. */
  lemma LinesAddUp(w: Wallet, cells: seq<Slot>, rows: seq<Actual>, today: int, rep: Report)
    requires IsReport(w, cells, rows, today, rep)
    ensures Sum(rep.rows, (r: ReportRow) => r.actual) == Counted(w, PlanOf(w, cells), rows)
  {
    hide ActualOf, LineOfRow, Ordered, Totals, IsLine;
    var plan := PlanOf(w, cells);
    var lines := seq(|rep.rows|, i requires 0 <= i < |rep.rows| => rep.rows[i].category);
    SumOfActuals(w, plan, rows, today, rep.rows, lines);
    forall line | ActualOf(w, plan, rows, None, line) != 0
      ensures line in lines
    {
      var i :| 0 <= i < |rep.rows| && rep.rows[i].category == line;
      assert lines[i] == line;
    }
    assert NoneTwice(lines);
    var all := LinesWithMissing(w, plan, rows, |rows|, lines);
    LinesTakeAll(w, plan, rows, all);
  }

  /** Whatever the order the maps were walked in, two reports of the same data are the same but for the order of equal names. */
  lemma ReportIsOne(w: Wallet, cells: seq<Slot>, rows: seq<Actual>, today: int, a: Report, b: Report)
    requires IsReport(w, cells, rows, today, a) && IsReport(w, cells, rows, today, b)
    ensures multiset(a.rows) == multiset(b.rows)
    ensures a.totalBudget == b.totalBudget && a.totalActual == b.totalActual && a.totalComing == b.totalComing
  {
    hide Ordered, ActualOf, IsLine;
    var plan := PlanOf(w, cells);
    RowsWithin(w, plan, rows, today, a.rows, b.rows);
    RowsWithin(w, plan, rows, today, b.rows, a.rows);
    SameRows(a.rows, b.rows);
    SumOfPermutation(a.rows, b.rows, (r: ReportRow) => Spent(r, r.budget));
    SumOfPermutation(a.rows, b.rows, (r: ReportRow) => Spent(r, r.actual));
    SumOfPermutation(a.rows, b.rows, (r: ReportRow) => Spent(r, r.coming));
  }

  lemma SameRows(a: seq<ReportRow>, b: seq<ReportRow>)
    requires forall i, j :: 0 <= i < j < |a| ==> a[i].category != a[j].category
    requires forall i, j :: 0 <= i < j < |b| ==> b[i].category != b[j].category
    requires forall r :: r in a <==> r in b
    ensures multiset(a) == multiset(b)
  {
    forall r
      ensures multiset(a)[r] == multiset(b)[r]
    {
      OnceEach(a, r);
      OnceEach(b, r);
      assert r in a <==> r in multiset(a);
      assert r in b <==> r in multiset(b);
    }
  }

  lemma RowsWithin(w: Wallet, plan: map<int, int>, rows: seq<Actual>, today: int, a: seq<ReportRow>, b: seq<ReportRow>)
    requires AreLines(w, plan, rows, today, a) && AreLines(w, plan, rows, today, b)
    requires forall c :: c in plan || ActualOf(w, plan, rows, None, c) != 0 ==> exists i :: 0 <= i < |b| && b[i].category == c
    ensures forall r :: r in a ==> r in b
  {
    hide ActualOf;
    forall r | r in a
      ensures r in b
    {
      var i :| 0 <= i < |a| && a[i] == r;
      assert IsLine(w, plan, rows, today, a[i]);
      var j :| 0 <= j < |b| && b[j].category == r.category;
      assert IsLine(w, plan, rows, today, b[j]);
      assert b[j] == r;
    }
  }
}
