/** The sliding window of demo starts, filtered in place (server/internal/demo/service.go). */
module DemoWindow {
  /** A slice of a backing array: its first `len` elements. */
  datatype Slice = Slice(data: array<int>, len: nat)

  /** The times still within the period. */
  function Recent(times: seq<int>, now: int, period: int): seq<int> {
    if times == [] then []
    else
      var t := times[|times| - 1];
      Recent(times[..|times| - 1], now, period) + (if now - t < period then [t] else [])
  }

  function Times(seen: map<string, seq<int>>, key: string): seq<int> {
    if key in seen then seen[key] else []
  }

  function AfterRecent(seen: map<string, seq<int>>, key: string, now: int, period: int): map<string, seq<int>> {
    var kept := Recent(Times(seen, key), now, period);
    if kept == [] then seen - {key} else seen[key := kept]
  }

  function AfterRecord(seen: map<string, seq<int>>, key: string, now: int, period: int): map<string, seq<int>> {
    seen[key := Recent(Times(seen, key), now, period) + [now]]
  }

  function AfterPrune(seen: map<string, seq<int>>, now: int, period: int): map<string, seq<int>> {
    map k | k in seen && Recent(seen[k], now, period) != [] :: Recent(seen[k], now, period)
  }

  /** Filters the first n elements, writing the kept ones over the front of the same array. */
  method FilterInPlace(data: array<int>, n: nat, now: int, period: int) returns (kept: nat)
    requires n <= data.Length
    modifies data
    ensures kept <= n && data[..kept] == Recent(old(data[..n]), now, period)
  {
    kept := 0;
    ghost var was := data[..n];
    for i := 0 to n
      invariant 0 <= kept <= i && data[..kept] == Recent(was[..i], now, period)
      invariant forall j :: i <= j < n ==> data[j] == was[j]
    {
      assert was[..i + 1][..i] == was[..i];
      var t := data[i];
      if now - t < period {
        data[kept] := t;
        kept := kept + 1;
        assert data[..kept] == data[..kept - 1] + [t];
      }
    }
    assert was[..n] == was;
  }

  /** What is left to do of a prune: the keys of `pending` are still as they were. */
  function Pruning(seen: map<string, seq<int>>, pending: set<string>, now: int, period: int): map<string, seq<int>> {
    map k | k in seen && (k in pending || Recent(seen[k], now, period) != []) ::
      if k in pending then seen[k] else Recent(seen[k], now, period)
  }

  lemma PruneOne(seen: map<string, seq<int>>, pending: set<string>, k: string, now: int, period: int)
    requires k in pending && pending <= seen.Keys
    ensures AfterRecent(Pruning(seen, pending, now, period), k, now, period) == Pruning(seen, pending - {k}, now, period)
  {
  }

  lemma RecentThenAppend(seen: map<string, seq<int>>, key: string, now: int, period: int)
    ensures var kept := AfterRecent(seen, key, now, period);
            kept[key := Times(kept, key) + [now]] == AfterRecord(seen, key, now, period)
  {
    hide Recent;
  }

  /** The front of the slice's array is the list. */
  ghost predicate Holds(s: Slice, times: seq<int>)
    reads s.data
  {
    s.len <= s.data.Length && s.data[..s.len] == times
  }

  /** A copy with room for more. */
  method Grown(data: array<int>, n: nat) returns (copy: array<int>)
    requires n <= data.Length
    ensures fresh(copy) && copy.Length > n && copy[..n] == data[..n]
  {
    copy := new int[2 * n + 1];
    for i := 0 to n
      invariant forall j :: 0 <= j < i ==> copy[j] == data[j]
    {
      copy[i] := data[i];
    }
  }

  class Window {
    const period: int
    var seen: map<string, Slice>
    /** The times each key holds. */
    ghost var view: map<string, seq<int>>
    /** The key each backing array belongs to. */
    ghost var owner: map<array<int>, string>

    constructor (period: int)
      ensures Valid() && view == map[] && this.period == period && Arrays() == {}
    {
      this.period := period;
      seen := map[];
      view := map[];
      owner := map[];
    }

    ghost function Arrays(): set<array<int>>
      reads this
    {
      set k | k in seen :: seen[k].data
    }

    /** Every key has its own backing array, and the front of it is what the key holds. */
    ghost predicate Valid()
      reads this, Arrays()
    {
      && seen.Keys == view.Keys && Owned()
      && (forall k :: k in seen ==> Holds(seen[k], view[k]))
    }

    ghost predicate Owned()
      reads this
    {
      forall k :: k in seen ==> seen[k].data in owner && owner[seen[k].data] == k
    }

    /** Valid, except for what is written at the front of the key's own array. */
    ghost predicate ValidBeside(key: string)
      reads this, Arrays()
    {
      && seen.Keys == view.Keys && Owned()
      && (forall k :: k in seen && k != key ==> Holds(seen[k], view[k]))
    }

    /** Keeps the first `kept` elements of the key's array, or forgets the key when there are none. */
    method Settle(key: string, kept: nat)
      requires ValidBeside(key) && key in seen && kept <= seen[key].data.Length
      modifies this
      ensures Valid() && Arrays() <= old(Arrays())
      ensures view == if kept == 0 then old(view) - {key} else old(view)[key := old(seen[key].data[..kept])]
    {
      if kept == 0 {
        seen, view := seen - {key}, view - {key};
      } else {
        view := view[key := seen[key].data[..kept]];
        seen := seen[key := Slice(seen[key].data, kept)];
      }
    }

    method KeepRecent(key: string, now: int) returns (kept: nat)
      requires Valid()
      modifies this, if key in seen then {seen[key].data} else {}
      ensures Valid() && Arrays() <= old(Arrays())
      ensures view == AfterRecent(old(view), key, now, period)
      ensures kept == |Recent(Times(old(view), key), now, period)|
    {
      hide Recent;
      if key !in seen {
        NothingRecent(now, period);
        assert view - {key} == view;
        return 0;
      }
      kept := FilterInPlace(seen[key].data, seen[key].len, now, period);
      Settle(key, kept);
    }

    method Allow(key: string, limit: int, now: int) returns (ok: bool)
      requires Valid()
      modifies this, Arrays()
      ensures Valid() && Arrays() <= old(Arrays())
      ensures view == AfterRecent(old(view), key, now, period)
      ensures ok == (|Recent(Times(old(view), key), now, period)| < limit)
    {
      var kept := KeepRecent(key, now);
      ok := kept < limit;
    }

    /** Writes behind the n first elements of an array no other key uses. */
    method Write(key: string, data: array<int>, n: nat, now: int)
      requires Valid() && n < data.Length && Apart(key, data)
      modifies data
      ensures ValidBeside(key) && data[..n + 1] == old(data[..n]) + [now]
    {
      data[n] := now;
      assert data[..n + 1] == old(data[..n]) + [now];
    }

    ghost predicate Apart(key: string, data: array<int>)
      reads this
    {
      && (forall k :: k in seen && k != key ==> seen[k].data != data)
      && (data in owner ==> owner[data] == key || forall k :: k in seen ==> seen[k].data != data)
    }

    /** The key holds the front of the array. */
    method Take(key: string, data: array<int>, n: nat)
      requires ValidBeside(key) && n <= data.Length && Apart(key, data)
      modifies this
      ensures Valid() && Arrays() <= old(Arrays()) + {data}
      ensures view == old(view)[key := data[..n]]
    {
      seen, view, owner := seen[key := Slice(data, n)], view[key := data[..n]], owner[data := key];
    }

    /** Writes one more time behind the n a key holds, in its array or in a copy nothing else uses. */
    method Put(key: string, data: array<int>, n: nat, now: int)
      requires Valid() && n < data.Length
      requires data in Arrays() ==> key in seen && data == seen[key].data
      modifies this, data
      ensures Valid() && Arrays() <= old(Arrays()) + {data}
      ensures view == old(view)[key := old(data[..n]) + [now]]
    {
      assert Apart(key, data);
      hide Valid, ValidBeside;
      Write(key, data, n, now);
      Take(key, data, n + 1);
    }

    /** Appends in place when the array has room, in a larger copy when it has not. */
    method Append(key: string, now: int)
      requires Valid()
      modifies this, if key in seen then {seen[key].data} else {}
      ensures Valid() && fresh(Arrays() - old(Arrays()))
      ensures view == old(view)[key := Times(old(view), key) + [now]]
    {
      var data;
      var n := 0;
      if key !in seen {
        data := new int[1];
      } else {
        data, n := seen[key].data, seen[key].len;
        if n == data.Length {
          data := Grown(data, n);
        }
      }
      Put(key, data, n, now);
    }

    method Record(key: string, now: int)
      requires Valid()
      modifies this, Arrays()
      ensures Valid() && fresh(Arrays() - old(Arrays()))
      ensures view == AfterRecord(old(view), key, now, period)
    {
      hide Recent, AfterRecent, AfterRecord, Valid, Times;
      RecentThenAppend(view, key, now, period);
      var kept := KeepRecent(key, now);
      Append(key, now);
    }

    method Prune(now: int)
      requires Valid()
      modifies this, Arrays()
      ensures Valid() && Arrays() <= old(Arrays())
      ensures view == AfterPrune(old(view), now, period)
    {
      hide Recent, AfterRecent;
      var keys := seen.Keys;
      ghost var start := view;
      assert Pruning(start, keys, now, period) == start;
      while keys != {}
        invariant Valid() && Arrays() <= old(Arrays()) && keys <= start.Keys
        invariant view == Pruning(start, keys, now, period)
        decreases keys
      {
        var k :| k in keys;
        PruneOne(start, keys, k, now, period);
        var kept := KeepRecent(k, now);
        keys := keys - {k};
      }
    }
  }

  lemma NothingRecent(now: int, period: int)
    ensures Recent([], now, period) == []
  {
  }
}
