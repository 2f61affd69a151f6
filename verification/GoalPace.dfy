/** The savings goals' arithmetic (server/internal/goal/pace.go). */
module GoalPace {
  import opened Division
  import opened Decimal

  /** A civil date; the source keeps it as YYYY-MM-DD text, which sorts the same way. */
  datatype Date = Date(year: nat, month: nat, day: nat)

  datatype Contribution = Contribution(date: Date, amount: int)

  datatype Goal = Goal(targetAmount: int, saved: int, targetDate: Date)

  function MonthIndex(d: Date): int {
    d.year * 12 + d.month - 1
  }

  predicate Before(a: Date, b: Date) {
    a.year < b.year || (a.year == b.year && (a.month < b.month || (a.month == b.month && a.day < b.day)))
  }

  function Max(a: int, b: int): int {
    if a > b then a else b
  }

  method UnitOf(frac: int) returns (unit: nat)
    ensures unit == Pow10(Max(0, frac))
  {
    unit := 1;
    var i := 0;
    while i < frac
      invariant 0 <= i <= Max(0, frac) && unit == Pow10(i)
    {
      unit := unit * 10;
      i := i + 1;
    }
  }

  predicate Counts(c: Contribution, now: int) {
    now - 3 <= MonthIndex(c.date) < now
  }

  /** What went in over the three full months before the month `now`. */
  function ThreeMonths(moves: seq<Contribution>, now: int): int {
    if moves == [] then 0
    else
      var last := moves[|moves| - 1];
      ThreeMonths(moves[..|moves| - 1], now) + (if Counts(last, now) then last.amount else 0)
  }

  /** The month's order of the contributions does not matter, nor do those outside the three months. */
  lemma {:induction false} ThreeMonthsConcat(a: seq<Contribution>, b: seq<Contribution>, now: int)
    ensures ThreeMonths(a + b, now) == ThreeMonths(a, now) + ThreeMonths(b, now)
    ensures (forall c :: c in b ==> !Counts(c, now)) ==> ThreeMonths(b, now) == 0
  {
    if b == [] {
      assert a + b == a;
    } else {
      var p := b[..|b| - 1];
      assert (a + b)[..|a + b| - 1] == a + p && b == p + [b[|b| - 1]];
      ThreeMonthsConcat(a, p, now);
    }
  }

  /** r is the multiple of `unit` nearest to sum / 3, the higher one of two as near. */
  ghost predicate NearestToThird(r: int, sum: int, unit: nat) {
    (exists k: nat :: r == Times(k, unit)) && 6 * r - 3 * unit <= 2 * sum < 6 * r + 3 * unit
  }

  lemma RoundedThird(sum: nat, unit: nat)
    requires unit >= 1
    ensures NearestToThird(Times((Quotient(sum * 2 / 3, unit) + 1) / 2, unit), sum, unit)
  {
    var third := sum * 2 / 3;
    var q := Quotient(third, unit);
    var k := (q + 1) / 2;
    Divides(third, unit);
    Sum(k, k, unit);
    if q == 2 * k {
    } else {
      assert q + 1 == 2 * k;
      Sum(q, 1, unit);
      One(unit);
    }
  }

  /** No other whole-unit amount is as near. */
  lemma NearestIsUnique(r: int, s: int, sum: int, unit: nat)
    requires unit >= 1 && NearestToThird(r, sum, unit) && NearestToThird(s, sum, unit)
    ensures r == s
  {
    var j: nat :| r == Times(j, unit);
    var k: nat :| s == Times(k, unit);
    if j < k {
      Monotone(j, k, unit);
    } else if k < j {
      Monotone(k, j, unit);
    }
  }

  /** What went in a month, rounded to the whole unit; nothing when more was taken out than put in. */
  method Pace(moves: seq<Contribution>, today: Date, frac: int) returns (pace: nat)
    ensures var sum := ThreeMonths(moves, MonthIndex(today));
            if sum <= 0 then pace == 0 else NearestToThird(pace, sum, Pow10(Max(0, frac)))
  {
    var unit := UnitOf(frac);
    var now := MonthIndex(today);
    var sum := 0;
    for i := 0 to |moves|
      invariant sum == ThreeMonths(moves[..i], now)
    {
      assert moves[..i + 1][..i] == moves[..i];
      var m := MonthIndex(moves[i].date);
      if m >= now - 3 && m < now {
        sum := sum + moves[i].amount;
      }
    }
    assert moves[..|moves|] == moves;
    if sum <= 0 {
      return 0;
    }
    RoundedThird(sum, unit);
    pace := Times((Quotient(sum * 2 / 3, unit) + 1) / 2, unit);
  }

  // ----- the share still needed -----

  function Ceiling(n: nat, d: nat): nat
    requires d >= 1
  {
    Quotient(n + d - 1, d)
  }

  function MonthlyUnit(distance: int, unit: nat): (d: nat)
    requires unit >= 1
    ensures d >= 1
  {
    var months := if distance < 1 then 1 else distance;
    Monotone(1, months, unit);
    One(unit);
    Times(months, unit)
  }

  /** The share for what is left, the target's month being `distance` months away. */
  function Share(left: nat, distance: int, unit: nat): nat
    requires unit >= 1
  {
    Times(Ceiling(left, MonthlyUnit(distance, unit)), unit)
  }

  /** What a goal still lacks. */
  function Left(g: Goal): nat {
    if g.targetAmount < g.saved then 0 else g.targetAmount - g.saved
  }

  method ShareAndPace(g: Goal, moves: seq<Contribution>, today: Date, frac: int) returns (need: nat, pace: nat)
    ensures need == if Before(g.targetDate, today) then Left(g)
                    else Share(Left(g), MonthIndex(g.targetDate) - MonthIndex(today), Pow10(Max(0, frac)))
    ensures var sum := ThreeMonths(moves, MonthIndex(today));
            if sum <= 0 then pace == 0 else NearestToThird(pace, sum, Pow10(Max(0, frac)))
  {
    var unit := UnitOf(frac);
    pace := Pace(moves, today, frac);
    var left: nat := if g.targetAmount - g.saved > 0 then g.targetAmount - g.saved else 0;
    if Before(g.targetDate, today) {
      return left, pace;
    }
    var months := if MonthIndex(g.targetDate) - MonthIndex(today) > 1 then MonthIndex(g.targetDate) - MonthIndex(today) else 1;
    Monotone(1, months, unit);
    One(unit);
    need := Times(Quotient(left + Times(months, unit) - 1, Times(months, unit)), unit);
  }

  lemma CeilingIsLeast(n: nat, d: nat, j: nat)
    requires d >= 1
    ensures Times(j, d) >= n <==> j >= Ceiling(n, d)
  {
    var k := Ceiling(n, d);
    Divides(n + d - 1, d);
    Sum(k, 1, d);
    One(d);
    if j >= k {
      Monotone(k, j, d);
    } else {
      Monotone(j, k, d);
    }
  }

  /** The share is the least whole-unit amount that, paid in each month left, covers what is left. */
  lemma ShareIsLeast(left: nat, distance: int, unit: nat, j: nat)
    requires unit >= 1
    ensures var months := Max(1, distance);
            Times(months, Times(j, unit)) >= left <==> Times(j, unit) >= Share(left, distance, unit)
  {
    var months: nat := Max(1, distance);
    var d := MonthlyUnit(distance, unit);
    var k := Ceiling(left, d);
    CeilingIsLeast(left, d, j);
    Regroup(j, months, unit);
    Commute(j, months);
    Regroup(months, j, unit);
    if j >= k {
      Monotone(k, j, unit);
    } else {
      Monotone(j, k, unit);
    }
  }

  /** What is left once this month's share is paid. */
  function Paid(left: nat, distance: int, unit: nat): nat
    requires unit >= 1
  {
    var share := Share(left, distance, unit);
    if share >= left then 0 else left - share
  }

  /** What is left after paying the recomputed share in each of n months. */
  function LeftAfter(left: nat, distance: int, unit: nat, n: nat): nat
    requires unit >= 1
    decreases n
  {
    if n == 0 then left else LeftAfter(Paid(left, distance, unit), distance - 1, unit, n - 1)
  }

  /** Paying the share never makes the next one larger. */
  lemma ShareNeverRises(left: nat, distance: int, unit: nat)
    requires unit >= 1
    ensures Share(Paid(left, distance, unit), distance - 1, unit) <= Share(left, distance, unit)
  {
    var k := Ceiling(left, MonthlyUnit(distance, unit));
    var share := Share(left, distance, unit);
    var months: nat := Max(1, distance);
    ShareIsLeast(left, distance, unit, k);
    assert Times(months, share) >= left;
    Sum(months - 1, 1, share);
    One(share);
    if months == 1 {
      Zero(share);
      ShareIsLeast(0, distance - 1, unit, k);
    } else {
      ShareIsLeast(Paid(left, distance, unit), distance - 1, unit, k);
    }
  }

  /** With the target's month `distance` months away, that many payments, and at least one, reach it. */
  lemma {:induction false} SharesReachTheTarget(left: nat, distance: int, unit: nat, n: nat)
    requires unit >= 1 && n >= Max(1, distance)
    ensures LeftAfter(left, distance, unit, n) == 0
    decreases n
  {
    var next := Paid(left, distance, unit);
    if distance <= 1 {
      var k := Ceiling(left, MonthlyUnit(distance, unit));
      ShareIsLeast(left, distance, unit, k);
      One(Share(left, distance, unit));
      NothingLeft(distance - 1, unit, n - 1);
    } else {
      SharesReachTheTarget(next, distance - 1, unit, n - 1);
    }
  }

  lemma {:induction false} NothingLeft(distance: int, unit: nat, n: nat)
    requires unit >= 1
    ensures LeftAfter(0, distance, unit, n) == 0
    decreases n
  {
    if n > 0 {
      NothingLeft(distance - 1, unit, n - 1);
    }
  }

  // ----- the months and the days meant -----

  /** A contribution counts when it is of one of the three months before today's. */
  lemma ThreeMonthsBefore(c: Contribution, today: Date)
    ensures Counts(c, MonthIndex(today))
            <==> 1 <= (12 * today.year + today.month) - (12 * c.date.year + c.date.month) <= 3
    ensures ThreeMonths([c], MonthIndex(today)) == if Counts(c, MonthIndex(today)) then c.amount else 0
  {
    assert [c][..0] == [];
  }

  /** A date is before another when fewer days, counted in months of at most 31, have gone by. */
  lemma BeforeIsEarlier(a: Date, b: Date)
    requires 1 <= a.month <= 12 && 1 <= a.day <= 31 && 1 <= b.month <= 12 && 1 <= b.day <= 31
    ensures Before(a, b) <==> 372 * a.year + 31 * a.month + a.day < 372 * b.year + 31 * b.month + b.day
  {
  }

  /** Of 900.00 left, five months before the target, 180.00 a month; once the date has gone by, all of it. */
  lemma FiveMonthsLeft()
    ensures Left(Goal(120_000, 30_000, Date(2027, 4, 30))) == 90_000 && Left(Goal(1, 2, Date(2027, 4, 30))) == 0
    ensures MonthIndex(Date(2027, 4, 30)) - MonthIndex(Date(2026, 11, 1)) == 5
    ensures Pow10(2) == 100 && Share(90_000, 5, 100) == 18_000
    ensures !Before(Date(2027, 4, 30), Date(2026, 11, 1)) && Before(Date(2026, 10, 1), Date(2026, 11, 1))
  {
    assert Pow10(2) == 10 * Pow10(1) && Pow10(1) == 10 * Pow10(0);
    Product(5, 100);
    var d := MonthlyUnit(5, 100);
    IsDivision(90_000 + d - 1, d);
    Product(180, 100);
  }
}
