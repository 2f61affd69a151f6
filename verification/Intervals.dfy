/** Counting the moments of an ascending list that fall in one half-open interval. */
module Intervals {
  ghost predicate Ascending(ts: seq<int>) {
    forall i, j :: 0 <= i <= j < |ts| ==> ts[i] <= ts[j]
  }

  /** Any n + 1 moments in a row span at least `length`. */
  ghost predicate Spread(ts: seq<int>, n: nat, length: int) {
    forall i, j :: 0 <= i && j == i + n && j < |ts| ==> ts[j] - ts[i] >= length
  }

  /** The places of the moments in [from, from + length). */
  function During(ts: seq<int>, from: int, length: int): set<nat> {
    set i: nat | i < |ts| && from <= ts[i] < from + length
  }

  function Range(lo: nat, n: nat): (r: set<nat>)
    ensures |r| == n
    ensures forall i: nat :: i in r <==> lo <= i < lo + n
  {
    if n == 0 then {} else Range(lo, n - 1) + {lo + n - 1}
  }

  lemma SubsetSize<T>(a: set<T>, b: set<T>)
    requires a <= b
    ensures |a| <= |b|
  {
    assert b == a + (b - a);
  }

  lemma {:induction false} Least(d: set<nat>, some: nat) returns (first: nat)
    requires some in d
    ensures first in d && forall i :: i in d ==> first <= i
    decreases some
  {
    if i :| i in d && i < some {
      first := Least(d, i);
    } else {
      first := some;
    }
  }

  /** Spread moments fill an interval with at most n of them. */
  lemma FewDuring(ts: seq<int>, n: nat, from: int, length: int)
    requires Ascending(ts) && Spread(ts, n, length)
    ensures |During(ts, from, length)| <= n
  {
    var d := During(ts, from, length);
    if some :| some in d {
      var first := Least(d, some);
      forall i | i in d
        ensures i < first + n
      {
        var j := first + n;
        assert j < |ts| ==> ts[j] - ts[first] >= length;
      }
      SubsetSize(d, Range(first, n));
    }
  }
}
