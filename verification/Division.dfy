/**
 * Whole-number products and quotients, defined by repeated addition and subtraction so that the
 * modules that use them reason with the laws below and never with non-linear arithmetic.
 */
module Division {
  function Times(a: nat, b: nat): nat {
    if b == 0 then 0 else a + Times(a, b - 1)
  }

  function Quotient(n: nat, d: nat): nat
    requires d >= 1
  {
    if n < d then 0 else 1 + Quotient(n - d, d)
  }

  function Remainder(n: nat, d: nat): nat
    requires d >= 1
  {
    if n < d then n else Remainder(n - d, d)
  }

  /** Times is the product. */
  lemma {:induction false} Product(a: nat, b: nat)
    ensures Times(a, b) == a * b
  {
    if b > 0 {
      Product(a, b - 1);
    }
  }

  /** Quotient and Remainder are the division's, as the languages of the source compute it. */
  lemma {:induction false} IsDivision(n: nat, d: nat)
    requires d >= 1
    ensures Quotient(n, d) == n / d && Remainder(n, d) == n % d
  {
    if n >= d {
      IsDivision(n - d, d);
      DivisionStep(n, d);
    }
  }

  lemma DivisionStep(n: int, d: int)
    requires 1 <= d <= n
    ensures n / d == 1 + (n - d) / d && n % d == (n - d) % d
  {
    var q, r := (n - d) / d, (n - d) % d;
    assert n - d == q * d + r;
    assert n == q * d + d + r;
    SameDivision(n, d, q + 1, r);
  }

  lemma SameDivision(n: int, d: int, q: int, r: int)
    requires d >= 1 && n == q * d + r && 0 <= r < d
    ensures q == n / d && r == n % d
  {
    var p := n / d - q;
    assert n == (n / d) * d + n % d;
    assert p * d == r - n % d;
    assert p >= 1 ==> p * d >= d;
    assert p <= -1 ==> p * d <= -d;
  }

  // ----- products -----

  lemma {:induction false} Sum(a: nat, b: nat, d: nat)
    ensures Times(a + b, d) == Times(a, d) + Times(b, d)
  {
    if d > 0 {
      Sum(a, b, d - 1);
    }
  }

  lemma {:induction false} Zero(d: nat)
    ensures Times(0, d) == 0
  {
    if d > 0 {
      Zero(d - 1);
    }
  }

  lemma {:induction false} One(a: nat)
    ensures Times(1, a) == a && Times(a, 1) == a
  {
    assert Times(a, 1) == a + Times(a, 0);
    if a > 0 {
      One(a - 1);
    }
  }

  lemma {:induction false} Commute(a: nat, b: nat)
    ensures Times(a, b) == Times(b, a)
  {
    if b == 0 {
      Zero(a);
    } else {
      Commute(a, b - 1);
      Sum(b - 1, 1, a);
      One(a);
    }
  }

  lemma {:induction false} Regroup(a: nat, b: nat, c: nat)
    ensures Times(Times(a, b), c) == Times(a, Times(b, c))
  {
    if c > 0 {
      Regroup(a, b, c - 1);
      Commute(a, b + Times(b, c - 1));
      Sum(b, Times(b, c - 1), a);
      Commute(a, b);
      Commute(a, Times(b, c - 1));
    }
  }

  lemma Monotone(a: nat, b: nat, d: nat)
    requires a <= b
    ensures Times(a, d) <= Times(b, d)
    ensures a < b ==> Times(a, d) + d <= Times(b, d)
  {
    Sum(a, b - a, d);
    if a < b {
      Sum(1, b - a - 1, d);
      One(d);
    }
  }

  lemma {:induction false} ScaleRight(c: nat, x: nat, p: nat)
    ensures c * Times(x, p) == Times(x, c * p)
  {
    Product(x, p);
    Product(x, c * p);
    Reorder(c, x, p);
  }

  lemma Reorder(c: int, x: int, p: int)
    ensures c * (x * p) == x * (c * p)
  {
  }

  // ----- quotients -----

  lemma {:induction false} Divides(n: nat, d: nat)
    requires d >= 1
    ensures n == Times(Quotient(n, d), d) + Remainder(n, d) && Remainder(n, d) < d
  {
    if n < d {
      Zero(d);
    } else {
      Divides(n - d, d);
      Sum(Quotient(n - d, d), 1, d);
      One(d);
    }
  }

  /** The quotient and the remainder are the only ones that fit. */
  lemma Unique(n: nat, d: nat, q: nat, r: nat)
    requires d >= 1 && n == Times(q, d) + r && r < d
    ensures q == Quotient(n, d) && r == Remainder(n, d)
  {
    Divides(n, d);
    if Quotient(n, d) > q {
      Monotone(q, Quotient(n, d), d);
    } else if Quotient(n, d) < q {
      Monotone(Quotient(n, d), q, d);
    }
  }

  lemma Cancel(x: nat, y: nat, a: nat)
    requires y >= 1 && a >= 1
    ensures Times(y, a) >= 1 && Quotient(Times(x, a), Times(y, a)) == Quotient(x, y)
  {
    var q, r := Quotient(x, y), Remainder(x, y);
    Divides(x, y);
    Sum(Times(q, y), r, a);
    Regroup(q, y, a);
    Monotone(r, y, a);
    Unique(Times(x, a), Times(y, a), q, Times(r, a));
  }

  lemma Double(x: nat, b: nat, a: nat)
    ensures 2 * Times(x, a) + Times(b, a) == Times(2 * x + b, a)
    ensures 2 * Times(b, a) == Times(2 * b, a)
  {
    Sum(x, x, a);
    Sum(2 * x, b, a);
    Sum(b, b, a);
  }

  /** The nearest whole number to n / b, a half upwards, by looking at the rest. */
  lemma HalfUp(n: nat, b: nat, hi: nat, lo: nat)
    requires n == Times(hi, b) + lo && lo < b
    ensures Quotient(2 * n + b, 2 * b) == if 2 * lo < b then hi else hi + 1
  {
    ScaleRight(2, hi, b);
    if 2 * lo < b {
      Unique(2 * n + b, 2 * b, hi, 2 * lo + b);
    } else {
      Sum(hi, 1, 2 * b);
      One(2 * b);
      Unique(2 * n + b, 2 * b, hi + 1, 2 * lo - b);
    }
  }

  lemma Exact(n: nat, p: nat, b: nat)
    requires b >= 1
    ensures Quotient(2 * Times(n, Times(p, b)) + b, 2 * b) == Times(n, p)
  {
    Regroup(n, p, b);
    HalfUp(Times(n, Times(p, b)), b, Times(n, p), 0);
  }

  lemma Nearest(x: nat, b: nat)
    requires b >= 1
    ensures var q := Quotient(2 * x + b, 2 * b);
            2 * Times(q, b) - b <= 2 * x < 2 * Times(q, b) + b
  {
    var q := Quotient(2 * x + b, 2 * b);
    Divides(2 * x + b, 2 * b);
    ScaleRight(2, q, b);
  }
}
