/** A stable sort by a strict order. */
module StableSort {
  /** What may be sorted by: nothing stands both before and behind, and not standing before goes on. */
  ghost predicate Orders<T(!new)>(before: (T, T) -> bool) {
    && (forall a, b :: before(a, b) ==> !before(b, a))
    && (forall a, b, c :: !before(b, a) && !before(c, b) ==> !before(c, a))
  }

  ghost predicate InOrder<T>(ts: seq<T>, before: (T, T) -> bool) {
    forall i, j :: 0 <= i < j < |ts| ==> !before(ts[j], ts[i])
  }

  ghost predicate Reordered<T>(a: seq<T>, b: seq<T>) {
    multiset(a) == multiset(b)
  }

  /** The place behind all that the element does not stand before. */
  ghost predicate IsPlace<T>(ts: seq<T>, t: T, before: (T, T) -> bool, k: nat) {
    k <= |ts| && (forall i :: 0 <= i < k ==> !before(t, ts[i])) && (k < |ts| ==> before(t, ts[k]))
  }

  lemma InsertedInOrder<T(!new)>(ts: seq<T>, t: T, before: (T, T) -> bool, k: nat)
    requires Orders(before) && InOrder(ts, before) && IsPlace(ts, t, before, k)
    ensures InOrder(ts[..k] + [t] + ts[k..], before)
  {
    var all := ts[..k] + [t] + ts[k..];
    forall j | k <= j < |ts|
      ensures !before(ts[j], t)
    {
      assert !before(ts[k], t);
      assert j > k ==> !before(ts[j], ts[k]);
    }
    forall i, j | 0 <= i < j < |all|
      ensures !before(all[j], all[i])
    {
      assert i < k ==> all[i] == ts[i];
      assert i > k ==> all[i] == ts[i - 1];
      assert j < k ==> all[j] == ts[j];
      assert j > k ==> all[j] == ts[j - 1];
    }
  }

  lemma InsertedReorders<T>(ts: seq<T>, done: seq<T>, t: T, k: nat)
    requires k <= |ts| && Reordered(ts, done)
    ensures Reordered(ts[..k] + [t] + ts[k..], done + [t])
  {
    assert ts == ts[..k] + ts[k..];
  }

  lemma NothingInOrder<T>(before: (T, T) -> bool)
    ensures InOrder([], before) && Reordered<T>([], [])
  {
  }

  method Place<T>(ts: seq<T>, t: T, before: (T, T) -> bool) returns (k: nat)
    ensures IsPlace(ts, t, before, k)
  {
    k := 0;
    while k < |ts| && !before(t, ts[k])
      invariant 0 <= k <= |ts| && forall i :: 0 <= i < k ==> !before(t, ts[i])
    {
      k := k + 1;
    }
  }

  /** The same elements, none in front of one that stands before it. */
  method Sort<T(!new)>(ts: seq<T>, before: (T, T) -> bool) returns (sorted: seq<T>)
    requires Orders(before)
    ensures InOrder(sorted, before) && Reordered(sorted, ts)
  {
    hide *;
    sorted := [];
    NothingInOrder(before);
    assert ts[..0] == [];
    for i := 0 to |ts|
      invariant InOrder(sorted, before) && Reordered(sorted, ts[..i])
    {
      var k := Place(sorted, ts[i], before);
      assert k <= |sorted| by { PlaceIsIn(sorted, ts[i], before, k); }
      InsertedInOrder(sorted, ts[i], before, k);
      InsertedReorders(sorted, ts[..i], ts[i], k);
      assert ts[..i + 1] == ts[..i] + [ts[i]];
      sorted := sorted[..k] + [ts[i]] + sorted[k..];
    }
    assert ts[..|ts|] == ts;
  }

  lemma PlaceIsIn<T>(ts: seq<T>, t: T, before: (T, T) -> bool, k: nat)
    requires IsPlace(ts, t, before, k)
    ensures k <= |ts|
  {
  }

  lemma SameElements<T>(a: seq<T>, b: seq<T>, x: T)
    requires Reordered(a, b)
    ensures x in a <==> x in b
  {
    assert x in multiset(a) <==> x in multiset(b);
  }
}
