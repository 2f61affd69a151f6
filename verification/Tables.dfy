/** Tables of rows under increasing ids, and copying a wallet's rows under fresh ones. */
module Tables {
  import opened Options

  datatype Row<+D> = Row(wallet: int, data: D)

  /** Ids are given out in order and never again. */
  datatype Table<+D> = Table(rows: map<int, Row<D>>, next: int)

  ghost predicate Fits<D(!new)>(t: Table<D>) {
    0 < t.next && forall i :: i in t.rows ==> 0 < i < t.next
  }

  /** All rows are of wallets numbered below this. */
  ghost predicate Below<D(!new)>(t: Table<D>, wallet: int) {
    forall i :: i in t.rows ==> t.rows[i].wallet < wallet
  }

  ghost predicate Sits<D(!new)>(t: Table<D>, wallet: int) {
    Fits(t) && Below(t, wallet)
  }

  predicate Owns<D>(t: Table<D>, wallet: int, i: int) {
    i in t.rows && t.rows[i].wallet == wallet
  }

  ghost predicate Unused<D>(t: Table<D>, wallet: int) {
    forall i :: !Owns(t, wallet, i)
  }

  function Inserted<D>(t: Table<D>, wallet: int, d: D): Table<D> {
    Table(t.rows[t.next := Row(wallet, d)], t.next + 1)
  }

  /** The next n ids. */
  function Fresh(next: int, n: nat): (ids: set<int>)
    ensures forall i :: i in ids <==> next <= i < next + n
  {
    if n == 0 then {} else Fresh(next, n - 1) + {next + n - 1}
  }

  function NewRows<D>(next: int, wallet: int, news: seq<D>): map<int, Row<D>> {
    map i | i in Fresh(next, |news|) :: Row(wallet, news[i - next])
  }

  /** The table with the rows inserted one after the other. */
  function Appended<D>(t: Table<D>, wallet: int, news: seq<D>): Table<D> {
    Table(t.rows + NewRows(t.next, wallet, news), t.next + |news|)
  }

  lemma AppendNone<D>(t: Table<D>, wallet: int)
    ensures Appended(t, wallet, []) == t
  {
    assert NewRows<D>(t.next, wallet, []) == map[];
  }

  lemma AppendOne<D>(t: Table<D>, wallet: int, news: seq<D>, d: D)
    ensures Appended(t, wallet, news + [d]) == Inserted(Appended(t, wallet, news), wallet, d)
  {
    var a, b := NewRows(t.next, wallet, news), NewRows(t.next, wallet, news + [d]);
    assert forall i :: i in b <==> i in a || i == t.next + |news|;
    assert forall i :: i in a ==> b[i] == a[i];
    assert Appended(t, wallet, news + [d]).rows == Inserted(Appended(t, wallet, news), wallet, d).rows;
  }

  // ----- ids of a document -----

  /** A document's entry under the id it had. */
  datatype Entry<+E> = Entry(id: int, data: E)

  function Ids<E>(es: seq<Entry<E>>): (r: seq<int>)
    ensures |r| == |es| && forall k :: 0 <= k < |es| ==> r[k] == es[k].id
  {
    seq(|es|, k requires 0 <= k < |es| => es[k].id)
  }

  predicate NoRepeats(ids: seq<int>) {
    forall j, k :: 0 <= j < k < |ids| ==> ids[j] != ids[k]
  }

  /** From a document's ids to those given out from `base` on; of two entries under one id the last counts. */
  function IdMap(ids: seq<int>, base: int): map<int, int> {
    if ids == [] then map[] else IdMap(ids[..|ids| - 1], base)[ids[|ids| - 1] := base + |ids| - 1]
  }

  lemma IdMapStep(ids: seq<int>, k: nat, base: int)
    requires k < |ids|
    ensures IdMap(ids[..k + 1], base) == IdMap(ids[..k], base)[ids[k] := base + k]
  {
    assert ids[..k + 1][..k] == ids[..k];
  }

  lemma {:induction false} IdMapAt(ids: seq<int>, base: int, k: nat)
    requires NoRepeats(ids) && k < |ids|
    ensures ids[k] in IdMap(ids, base) && IdMap(ids, base)[ids[k]] == base + k
  {
    if k < |ids| - 1 {
      IdMapAt(ids[..|ids| - 1], base, k);
    }
  }

  lemma {:induction false} IdMapKeys(ids: seq<int>, base: int)
    ensures forall i :: i in IdMap(ids, base) <==> i in ids
    ensures forall i :: i in IdMap(ids, base) ==> base <= IdMap(ids, base)[i] < base + |ids|
  {
    if ids != [] {
      var n := |ids| - 1;
      IdMapKeys(ids[..n], base);
      assert ids == ids[..n] + [ids[n]];
      assert forall i :: i in ids <==> i in ids[..n] || i == ids[n];
    }
  }

  predicate Injective(f: map<int, int>) {
    forall i, j :: i in f && j in f && i != j ==> f[i] != f[j]
  }

  lemma IdMapIsInjective(ids: seq<int>, base: int)
    requires NoRepeats(ids)
    ensures Injective(IdMap(ids, base))
  {
    IdMapKeys(ids, base);
    var f := IdMap(ids, base);
    forall i, j | i in f && j in f && i != j
      ensures f[i] != f[j]
    {
      var a :| 0 <= a < |ids| && ids[a] == i;
      var b :| 0 <= b < |ids| && ids[b] == j;
      IdMapAt(ids, base, a);
      IdMapAt(ids, base, b);
    }
  }

  // ----- inserting a document's entries -----

  /** The rows the entries become; None is a row the database refuses, for a reference to nothing. */
  function Made<E, D>(es: seq<Entry<E>>, make: E -> Option<D>): (r: seq<D>)
    requires forall k :: 0 <= k < |es| ==> make(es[k].data).Some?
    ensures |r| == |es| && forall k :: 0 <= k < |es| ==> r[k] == make(es[k].data).value
  {
    seq(|es|, k requires 0 <= k < |es| => make(es[k].data).value)
  }

  ghost predicate AllMade<E, D>(es: seq<Entry<E>>, make: E -> Option<D>) {
    forall k :: 0 <= k < |es| ==> make(es[k].data).Some?
  }

  /** No two rows that a unique index would refuse in one wallet. */
  ghost predicate Apart<D>(news: seq<D>, clash: (D, D) -> bool) {
    forall j, k :: 0 <= j < k < |news| ==> !clash(news[j], news[k])
  }

  ghost predicate AllFit<E, D>(es: seq<Entry<E>>, make: E -> Option<D>, clash: (D, D) -> bool) {
    AllMade(es, make) && Apart(Made(es, make), clash)
  }

  /** The unique index finds a row of the wallet that clashes. */
  predicate Taken<D>(t: Table<D>, wallet: int, d: D, clash: (D, D) -> bool) {
    exists i | i in t.rows :: t.rows[i].wallet == wallet && clash(t.rows[i].data, d)
  }

  lemma TakenAmongNew<D>(t: Table<D>, wallet: int, news: seq<D>, d: D, clash: (D, D) -> bool)
    requires Unused(t, wallet)
    ensures Taken(Appended(t, wallet, news), wallet, d, clash) <==> exists j :: 0 <= j < |news| && clash(news[j], d)
  {
    var after := Appended(t, wallet, news);
    assert forall i :: i in t.rows ==> !Owns(t, wallet, i);
    forall j | 0 <= j < |news|
      ensures t.next + j in after.rows && after.rows[t.next + j] == Row(wallet, news[j])
    {
    }
    if i :| i in after.rows && after.rows[i].wallet == wallet && clash(after.rows[i].data, d) {
      assert i in NewRows(t.next, wallet, news);
      assert clash(news[i - t.next], d);
    }
  }

  lemma ApartMore<D>(news: seq<D>, d: D, clash: (D, D) -> bool)
    ensures Apart(news + [d], clash) <==> Apart(news, clash) && !exists j :: 0 <= j < |news| && clash(news[j], d)
  {
    var all := news + [d];
    assert forall j :: 0 <= j < |news| ==> all[j] == news[j];
    assert all[|news|] == d;
  }

  /** The first k entries are in. */
  ghost predicate InsertedSoFar<E, D>(t0: Table<D>, wallet: int, es: seq<Entry<E>>, k: nat, make: E -> Option<D>,
                                      clash: (D, D) -> bool, t: Table<D>, ids: map<int, int>)
  {
    && k <= |es| && AllFit(es[..k], make, clash)
    && t == Appended(t0, wallet, Made(es[..k], make)) && ids == IdMap(Ids(es[..k]), t0.next)
  }

  lemma NoneInserted<E, D>(t: Table<D>, wallet: int, es: seq<Entry<E>>, make: E -> Option<D>, clash: (D, D) -> bool)
    ensures InsertedSoFar(t, wallet, es, 0, make, clash, t, map[])
  {
    AppendNone(t, wallet);
    assert es[..0] == [];
    assert Made(es[..0], make) == [];
  }

  lemma OneInserted<E, D>(t0: Table<D>, wallet: int, es: seq<Entry<E>>, k: nat, make: E -> Option<D>,
                          clash: (D, D) -> bool, t: Table<D>, ids: map<int, int>)
    requires Unused(t0, wallet) && k < |es| && InsertedSoFar(t0, wallet, es, k, make, clash, t, ids)
    requires make(es[k].data).Some? && !Taken(t, wallet, make(es[k].data).value, clash)
    ensures t.next == t0.next + k
    ensures InsertedSoFar(t0, wallet, es, k + 1, make, clash, Inserted(t, wallet, make(es[k].data).value), ids[es[k].id := t.next])
  {
    var news, d := Made(es[..k], make), make(es[k].data).value;
    TakenAmongNew(t0, wallet, news, d, clash);
    AppendOne(t0, wallet, news, d);
    assert es[..k + 1] == es[..k] + [es[k]];
    assert Made(es[..k + 1], make) == news + [d];
    assert Ids(es[..k + 1]) == Ids(es)[..k + 1] && Ids(es[..k]) == Ids(es)[..k];
    IdMapStep(Ids(es), k, t0.next);
  }

  lemma Stuck<E, D>(t0: Table<D>, wallet: int, es: seq<Entry<E>>, k: nat, make: E -> Option<D>,
                    clash: (D, D) -> bool, t: Table<D>, ids: map<int, int>)
    requires Unused(t0, wallet) && k < |es| && InsertedSoFar(t0, wallet, es, k, make, clash, t, ids)
    requires make(es[k].data).None? || Taken(t, wallet, make(es[k].data).value, clash)
    ensures !AllFit(es, make, clash)
  {
    if AllMade(es, make) {
      var news, d := Made(es[..k], make), make(es[k].data).value;
      TakenAmongNew(t0, wallet, news, d, clash);
      var j :| 0 <= j < |news| && clash(news[j], d);
      assert Made(es, make)[j] == news[j] && Made(es, make)[k] == d;
    }
  }

  /** Inserts the entries one by one and notes the ids they get; stops at the first one the database refuses. */
  method InsertAll<E, D>(t0: Table<D>, wallet: int, es: seq<Entry<E>>, make: E -> Option<D>, clash: (D, D) -> bool)
    returns (ok: bool, t: Table<D>, ids: map<int, int>)
    requires Unused(t0, wallet)
    ensures ok <==> AllFit(es, make, clash)
    ensures ok ==> t == Appended(t0, wallet, Made(es, make)) && ids == IdMap(Ids(es), t0.next)
  {
    hide *;
    ok, t, ids := true, t0, map[];
    NoneInserted(t0, wallet, es, make, clash);
    for k := 0 to |es|
      invariant InsertedSoFar(t0, wallet, es, k, make, clash, t, ids)
    {
      var made := make(es[k].data);
      if made.None? || Taken(t, wallet, made.value, clash) {
        Stuck(t0, wallet, es, k, make, clash, t, ids);
        return false, t0, map[];
      }
      OneInserted(t0, wallet, es, k, make, clash, t, ids);
      ids := ids[es[k].id := t.next];
      t := Insert(t, wallet, made.value);
    }
    AllInserted(t0, wallet, es, make, clash, t, ids);
  }

  method Insert<D>(t: Table<D>, wallet: int, d: D) returns (after: Table<D>)
    ensures after == Inserted(t, wallet, d)
  {
    after := Table(t.rows[t.next := Row(wallet, d)], t.next + 1);
  }

  lemma AllInserted<E, D>(t0: Table<D>, wallet: int, es: seq<Entry<E>>, make: E -> Option<D>, clash: (D, D) -> bool,
                          t: Table<D>, ids: map<int, int>)
    requires InsertedSoFar(t0, wallet, es, |es|, make, clash, t, ids)
    ensures AllFit(es, make, clash) && t == Appended(t0, wallet, Made(es, make)) && ids == IdMap(Ids(es), t0.next)
  {
    assert es[..|es|] == es;
  }

  // ----- listing rows -----

  ghost predicate Lists<D>(ids: seq<int>, t: Table<D>, p: Row<D> -> bool) {
    NoRepeats(ids) && forall i :: i in ids <==> i in t.rows && p(t.rows[i])
  }

  /** The ids of the rows that meet a condition, in some order. */
  method Select<D>(t: Table<D>, p: Row<D> -> bool) returns (ids: seq<int>)
    ensures Lists(ids, t, p)
  {
    ids := [];
    var left := t.rows.Keys;
    while exists i :: i in left
      invariant left <= t.rows.Keys && NoRepeats(ids)
      invariant forall i :: i in ids <==> i in t.rows && i !in left && p(t.rows[i])
      decreases |left|
    {
      var i :| i in left;
      left := left - {i};
      if p(t.rows[i]) {
        NoRepeatsMore(ids, i);
        ids := ids + [i];
      }
    }
  }

  lemma NoRepeatsMore(ids: seq<int>, i: int)
    requires NoRepeats(ids) && i !in ids
    ensures NoRepeats(ids + [i])
  {
  }

  // ----- copies -----

  ghost predicate Reaches(f: map<int, int>, j: int) {
    exists i :: i in f && f[i] == j
  }

  /** The map names exactly the wallet's rows. */
  ghost predicate NamesRows<D(!new)>(f: map<int, int>, t: Table<D>, w: int) {
    Injective(f) && forall i :: i in f <==> Owns(t, w, i)
  }

  ghost predicate RowsCopied<D(!new)>(before: Table<D>, after: Table<D>, copy: int, f: map<int, int>, rename: D -> D) {
    forall i :: i in f ==> i in before.rows && Owns(after, copy, f[i]) && after.rows[f[i]].data == rename(before.rows[i].data)
  }

  ghost predicate AllReached<D(!new)>(after: Table<D>, copy: int, f: map<int, int>) {
    forall j :: Owns(after, copy, j) ==> Reaches(f, j)
  }

  /** All rows there were stay, and there are no new ones but the copy's. */
  ghost predicate OthersStay<D(!new)>(before: Table<D>, after: Table<D>, copy: int) {
    && (forall i :: i in before.rows ==> i in after.rows && after.rows[i] == before.rows[i])
    && (forall i :: i in after.rows && i !in before.rows ==> after.rows[i].wallet == copy)
  }

  /** f takes the wallet's rows one to one onto the copy's; each copy is its original, renamed; nothing else changes. */
  ghost predicate IsCopy<D(!new)>(before: Table<D>, after: Table<D>, wallet: int, copy: int, f: map<int, int>, rename: D -> D) {
    && NamesRows(f, before, wallet) && RowsCopied(before, after, copy, f, rename) && AllReached(after, copy, f)
    && OthersStay(before, after, copy)
  }

  lemma AppendedRows<D>(t: Table<D>, wallet: int, news: seq<D>)
    requires forall i :: i in t.rows ==> i < t.next
    ensures var after := Appended(t, wallet, news);
            && (forall i :: i in after.rows <==> i in t.rows || t.next <= i < t.next + |news|)
            && (forall i :: i in t.rows ==> after.rows[i] == t.rows[i])
            && (forall i :: t.next <= i < t.next + |news| ==> i in after.rows && after.rows[i] == Row(wallet, news[i - t.next]))
  {
  }

  lemma NextIsUnused<D(!new)>(t: Table<D>, wallet: int)
    requires Sits(t, wallet)
    ensures Fits(t) && Unused(t, wallet)
  {
  }

  /** With rows of the next wallet the table is ready for the one after. */
  lemma AppendedSits<D(!new)>(t: Table<D>, wallet: int, news: seq<D>)
    requires Sits(t, wallet)
    ensures Sits(Appended(t, wallet, news), wallet + 1)
  {
    AppendedRows(t, wallet, news);
    assert Appended(t, wallet, news).next == t.next + |news|;
  }

  lemma CopyOfId(ids: seq<int>, base: int, i: int) returns (k: nat)
    requires NoRepeats(ids) && i in IdMap(ids, base)
    ensures k < |ids| && ids[k] == i && IdMap(ids, base)[i] == base + k
  {
    IdMapKeys(ids, base);
    k :| k < |ids| && ids[k] == i;
    IdMapAt(ids, base, k);
  }

  lemma NewRowIsCopy<D(!new)>(before: Table<D>, wallet: int, copy: int, ids: seq<int>, news: seq<D>, rename: D -> D, i: int)
    requires Fits(before) && NoRepeats(ids) && i in IdMap(ids, before.next) && |news| == |ids|
    requires forall k :: 0 <= k < |ids| ==> Owns(before, wallet, ids[k]) && news[k] == rename(before.rows[ids[k]].data)
    ensures var after, j := Appended(before, copy, news), IdMap(ids, before.next)[i];
            i in before.rows && Owns(after, copy, j) && j in after.rows && after.rows[j].data == rename(before.rows[i].data)
  {
    hide Appended, IdMap, NoRepeats;
    AppendedRows(before, copy, news);
    var k := CopyOfId(ids, before.next, i);
  }

  lemma NewRowIsReached<D(!new)>(before: Table<D>, copy: int, ids: seq<int>, news: seq<D>, j: int)
    requires Fits(before) && Unused(before, copy) && NoRepeats(ids) && |news| == |ids|
    requires Owns(Appended(before, copy, news), copy, j)
    ensures Reaches(IdMap(ids, before.next), j)
  {
    hide Appended, IdMap, NoRepeats, Reaches;
    AppendedRows(before, copy, news);
    assert !Owns(before, copy, j);
    NewIdIsReached(ids, before.next, j);
  }

  /** Appending the renamed rows, in any order they were listed, makes a copy. */
  lemma AppendedIsCopy<D(!new)>(before: Table<D>, wallet: int, copy: int, ids: seq<int>, news: seq<D>, rename: D -> D)
    requires Fits(before) && Unused(before, copy)
    requires NoRepeats(ids) && forall i :: i in ids <==> Owns(before, wallet, i)
    requires |news| == |ids| && forall k :: 0 <= k < |ids| ==> Owns(before, wallet, ids[k]) && news[k] == rename(before.rows[ids[k]].data)
    ensures IsCopy(before, Appended(before, copy, news), wallet, copy, IdMap(ids, before.next), rename)
  {
    hide *;
    var f, after := IdMap(ids, before.next), Appended(before, copy, news);
    OldRowsNamed(before, wallet, ids);
    NewRowsCopied(before, wallet, copy, ids, news, rename);
    NewRowsReached(before, copy, ids, news);
    OldRowsStay(before, copy, news);
    assert IsCopy(before, after, wallet, copy, f, rename) by {
      CopyOfParts(before, after, wallet, copy, f, rename);
    }
  }

  lemma CopyOfParts<D(!new)>(before: Table<D>, after: Table<D>, wallet: int, copy: int, f: map<int, int>, rename: D -> D)
    requires NamesRows(f, before, wallet) && RowsCopied(before, after, copy, f, rename) && AllReached(after, copy, f)
    requires OthersStay(before, after, copy)
    ensures IsCopy(before, after, wallet, copy, f, rename)
  {
    hide NamesRows, RowsCopied, AllReached, OthersStay;
  }

  lemma OldRowsNamed<D(!new)>(before: Table<D>, wallet: int, ids: seq<int>)
    requires NoRepeats(ids) && forall i :: i in ids <==> Owns(before, wallet, i)
    ensures NamesRows(IdMap(ids, before.next), before, wallet)
  {
    hide IdMap, NoRepeats, Injective;
    IdMapKeys(ids, before.next);
    IdMapIsInjective(ids, before.next);
  }

  lemma NewRowsCopied<D(!new)>(before: Table<D>, wallet: int, copy: int, ids: seq<int>, news: seq<D>, rename: D -> D)
    requires Fits(before) && NoRepeats(ids) && |news| == |ids|
    requires forall k :: 0 <= k < |ids| ==> Owns(before, wallet, ids[k]) && news[k] == rename(before.rows[ids[k]].data)
    ensures RowsCopied(before, Appended(before, copy, news), copy, IdMap(ids, before.next), rename)
  {
    hide Appended, IdMap, NoRepeats, Owns, Fits;
    var f, after := IdMap(ids, before.next), Appended(before, copy, news);
    forall i | i in f
      ensures i in before.rows && Owns(after, copy, f[i]) && f[i] in after.rows && after.rows[f[i]].data == rename(before.rows[i].data)
    {
      NewRowIsCopy(before, wallet, copy, ids, news, rename, i);
    }
  }

  lemma NewRowsReached<D(!new)>(before: Table<D>, copy: int, ids: seq<int>, news: seq<D>)
    requires Fits(before) && Unused(before, copy) && NoRepeats(ids) && |news| == |ids|
    ensures AllReached(Appended(before, copy, news), copy, IdMap(ids, before.next))
  {
    hide Appended, IdMap, NoRepeats, Reaches, Owns, Fits, Unused;
    forall j | Owns(Appended(before, copy, news), copy, j)
      ensures Reaches(IdMap(ids, before.next), j)
    {
      NewRowIsReached(before, copy, ids, news, j);
    }
  }

  lemma OldRowsStay<D(!new)>(before: Table<D>, copy: int, news: seq<D>)
    requires Fits(before)
    ensures OthersStay(before, Appended(before, copy, news), copy)
  {
    hide Appended;
    AppendedRows(before, copy, news);
  }

  lemma NewIdIsReached(ids: seq<int>, base: int, j: int)
    requires NoRepeats(ids) && base <= j < base + |ids|
    ensures Reaches(IdMap(ids, base), j)
  {
    IdMapAt(ids, base, j - base);
    assert ids[j - base] in IdMap(ids, base);
  }

  // ----- from a table to a document and back -----

  /** The rows that meet a condition, each as an entry under its id. */
  ghost predicate Listed<D, E>(es: seq<Entry<E>>, t: Table<D>, p: Row<D> -> bool, conv: D -> E) {
    && Lists(Ids(es), t, p)
    && forall k :: 0 <= k < |es| ==> es[k].id in t.rows && es[k].data == conv(t.rows[es[k].id].data)
  }

  method ListEntries<D, E>(t: Table<D>, p: Row<D> -> bool, conv: D -> E) returns (es: seq<Entry<E>>)
    ensures Listed(es, t, p, conv)
  {
    var ids := Select(t, p);
    es := [];
    for k := 0 to |ids|
      invariant |es| == k
      invariant forall j :: 0 <= j < k ==> ids[j] in t.rows && es[j] == Entry(ids[j], conv(t.rows[ids[j]].data))
    {
      var id := ids[k];
      assert id in ids;
      es := es + [Entry(id, conv(t.rows[id].data))];
    }
    assert Ids(es) == ids;
  }

  function OfWallet<D>(wallet: int): Row<D> -> bool {
    (r: Row<D>) => r.wallet == wallet
  }

  /** Rows that a unique index keeps apart. */
  ghost predicate Unique<D(!new)>(t: Table<D>, wallet: int, clash: (D, D) -> bool) {
    forall i, j :: Owns(t, wallet, i) && Owns(t, wallet, j) && i != j ==> !clash(t.rows[i].data, t.rows[j].data)
  }

  ghost predicate MakesRenamed<D(!new), E>(t: Table<D>, wallet: int, conv: D -> E, make: E -> Option<D>, rename: D -> D) {
    forall i :: Owns(t, wallet, i) ==> make(conv(t.rows[i].data)) == Some(rename(t.rows[i].data))
  }

  ghost predicate UniqueRenamed<D(!new)>(t: Table<D>, wallet: int, clash: (D, D) -> bool, rename: D -> D) {
    forall i, j :: Owns(t, wallet, i) && Owns(t, wallet, j) && i != j ==>
                     !clash(rename(t.rows[i].data), rename(t.rows[j].data))
  }

  ghost predicate PicksWallet<D(!new)>(t: Table<D>, wallet: int, p: Row<D> -> bool) {
    forall i :: i in t.rows ==> (p(t.rows[i]) <==> t.rows[i].wallet == wallet)
  }

  lemma EntryIsOwned<D(!new), E>(es: seq<Entry<E>>, t: Table<D>, wallet: int, p: Row<D> -> bool, conv: D -> E, k: nat)
    requires Listed(es, t, p, conv) && PicksWallet(t, wallet, p) && k < |es|
    ensures Owns(t, wallet, es[k].id) && es[k].data == conv(t.rows[es[k].id].data)
  {
    assert Ids(es)[k] in Ids(es);
  }

  lemma EntriesOwned<D(!new), E>(es: seq<Entry<E>>, t: Table<D>, wallet: int, p: Row<D> -> bool, conv: D -> E)
    requires Listed(es, t, p, conv) && PicksWallet(t, wallet, p)
    ensures NoRepeats(Ids(es)) && forall i :: i in Ids(es) <==> Owns(t, wallet, i)
  {
  }

  /** Entries listed from a wallet fit the new one and make a copy, when each is made into its row renamed. */
  lemma CopyFromEntries<D(!new), E>(t: Table<D>, wallet: int, copy: int, es: seq<Entry<E>>, p: Row<D> -> bool, conv: D -> E,
                                    make: E -> Option<D>, clash: (D, D) -> bool, rename: D -> D)
    requires Fits(t) && Unused(t, copy) && Listed(es, t, p, conv) && PicksWallet(t, wallet, p)
    requires MakesRenamed(t, wallet, conv, make, rename) && UniqueRenamed(t, wallet, clash, rename)
    ensures AllFit(es, make, clash)
    ensures IsCopy(t, Appended(t, copy, Made(es, make)), wallet, copy, IdMap(Ids(es), t.next), rename)
  {
    hide IsCopy, Appended, IdMap, Fits, Unused, Lists, Listed, PicksWallet;
    EntriesOwned(es, t, wallet, p, conv);
    forall k | 0 <= k < |es|
      ensures Owns(t, wallet, es[k].id) && make(es[k].data) == Some(rename(t.rows[es[k].id].data))
    {
      EntryIsOwned(es, t, wallet, p, conv, k);
    }
    var news := Made(es, make);
    forall j, k | 0 <= j < k < |es|
      ensures !clash(news[j], news[k])
    {
      assert Ids(es)[j] != Ids(es)[k];
    }
    AppendedIsCopy(t, wallet, copy, Ids(es), news, rename);
  }
}
