/** The demo wallet's seeder: amounts nudged apart, transfers with two legs (server/internal/demo/seed.go). */
module DemoSeed {
  /** The review page calls equal amounts this close look-alikes. */
  const LOOK_ALIKE_DAYS := 14

  const CHECKING := 1
  const CARD := 3

  /** Dates as day numbers. A transfer's legs share a key; 0 is none. */
  datatype Operation = Operation(date: int, account: int, cents: int, to: int, key: nat, parts: seq<int>)

  type Bookings = map<int, map<int, seq<int>>>

  predicate Near(d: int, other: int) {
    -LOOK_ALIKE_DAYS - 1 < d - other < LOOK_ALIKE_DAYS + 1
  }

  function DatesOf(booked: Bookings, account: int, cents: int): seq<int> {
    if account in booked && cents in booked[account] then booked[account][cents] else []
  }

  function AmountsOf(booked: Bookings, account: int): set<int> {
    if account in booked then booked[account].Keys else {}
  }

  function BookedUpTo(booked: Bookings, account: int, cents: int): set<int> {
    set c | c in AmountsOf(booked, account) && c <= cents
  }

  function BookedFrom(booked: Bookings, account: int, cents: int): set<int> {
    set c | c in AmountsOf(booked, account) && c >= cents
  }

  ghost predicate Clashes(booked: Bookings, account: int, d: int, cents: int) {
    exists k :: 0 <= k < |DatesOf(booked, account, cents)| && Near(d, DatesOf(booked, account, cents)[k])
  }

  function Booked(booked: Bookings, account: int, d: int, cents: int): Bookings {
    var amounts := if account in booked then booked[account] else map[];
    booked[account := amounts[cents := DatesOf(booked, account, cents) + [d]]]
  }

  lemma BookedDates(booked: Bookings, account: int, d: int, cents: int, a: int, c: int)
    ensures DatesOf(Booked(booked, account, d, cents), a, c)
            == DatesOf(booked, a, c) + if a == account && c == cents then [d] else []
  {
    assert DatesOf(booked, a, c) + [] == DatesOf(booked, a, c);
  }

  /** The dates of the operations of one amount on one account. */
  function DatesIn(ops: seq<Operation>, account: int, cents: int): seq<int> {
    if ops == [] then []
    else
      var o := ops[|ops| - 1];
      DatesIn(ops[..|ops| - 1], account, cents) + if o.account == account && o.cents == cents then [o.date] else []
  }

  /** The operations are booked, and nothing else is. */
  ghost predicate AllBooked(ops: seq<Operation>, booked: Bookings) {
    forall a, c :: DatesOf(booked, a, c) == DatesIn(ops, a, c)
  }

  /** One of the operations has the amount on the account, at most fourteen days away. */
  ghost predicate LookAlike(ops: seq<Operation>, account: int, d: int, cents: int) {
    exists i :: 0 <= i < |ops| && ops[i].account == account && ops[i].cents == cents && -14 <= d - ops[i].date <= 14
  }

  lemma DatesInMore(ops: seq<Operation>, o: Operation, a: int, c: int)
    ensures DatesIn(ops + [o], a, c) == DatesIn(ops, a, c) + if o.account == a && o.cents == c then [o.date] else []
  {
    assert (ops + [o])[..|ops|] == ops;
  }

  predicate IsOn(o: Operation, a: int, c: int, d: int) {
    o.account == a && o.cents == c && o.date == d
  }

  lemma {:induction false} DateIsIn(ops: seq<Operation>, a: int, c: int, d: int)
    ensures d in DatesIn(ops, a, c) <==> exists i :: 0 <= i < |ops| && IsOn(ops[i], a, c, d)
  {
    hide DatesIn;
    if ops == [] {
      NoDatesIn(a, c);
    } else {
      var n := |ops| - 1;
      var front, o := ops[..n], ops[n];
      DateIsIn(front, a, c, d);
      assert ops == front + [o];
      DatesInMore(front, o, a, c);
      if i :| 0 <= i < |front| && IsOn(front[i], a, c, d) {
        assert IsOn(ops[i], a, c, d);
      }
      if i :| 0 <= i < n && IsOn(ops[i], a, c, d) {
        assert IsOn(front[i], a, c, d);
      }
    }
  }

  lemma NoDatesIn(a: int, c: int)
    ensures DatesIn([], a, c) == []
  {
  }

  /** What clashes is what has a look-alike among the operations. */
  lemma ClashIsLookAlike(ops: seq<Operation>, booked: Bookings, account: int, d: int, cents: int)
    requires AllBooked(ops, booked)
    ensures Clashes(booked, account, d, cents) <==> LookAlike(ops, account, d, cents)
  {
    hide DatesIn, DatesOf;
    var dates := DatesOf(booked, account, cents);
    assert dates == DatesIn(ops, account, cents);
    if Clashes(booked, account, d, cents) {
      var k :| 0 <= k < |dates| && Near(d, dates[k]);
      assert dates[k] in dates;
      DateIsIn(ops, account, cents, dates[k]);
      var i :| 0 <= i < |ops| && IsOn(ops[i], account, cents, dates[k]);
    }
    if i :| 0 <= i < |ops| && ops[i].account == account && ops[i].cents == cents && -14 <= d - ops[i].date <= 14 {
      assert IsOn(ops[i], account, cents, ops[i].date);
      DateIsIn(ops, account, cents, ops[i].date);
      var k :| 0 <= k < |dates| && dates[k] == ops[i].date;
    }
  }

  /** The amount nudged in steps to the first one without a look-alike on the day. */
  ghost predicate IsFirstClear(ops: seq<Operation>, account: int, d: int, cents: int, r: int) {
    exists steps: nat :: r == cents - 7 * steps && !LookAlike(ops, account, d, r)
                         && forall k :: 0 <= k < steps ==> LookAlike(ops, account, d, cents - 7 * k)
  }

  lemma FirstClearFound(ops: seq<Operation>, booked: Bookings, account: int, d: int, cents: int, r: int, steps: nat)
    requires AllBooked(ops, booked) && r == cents - 7 * steps && !Clashes(booked, account, d, r)
    requires forall k :: 0 <= k < steps ==> Clashes(booked, account, d, cents - 7 * k)
    ensures IsFirstClear(ops, account, d, cents, r)
  {
    hide AllBooked, Clashes, LookAlike;
    ClashIsLookAlike(ops, booked, account, d, r);
    forall k | 0 <= k < steps
      ensures LookAlike(ops, account, d, cents - 7 * k)
    {
      ClashIsLookAlike(ops, booked, account, d, cents - 7 * k);
    }
  }

  /** A transfer's amount nudged up to the first at which neither leg has a look-alike. */
  ghost predicate IsFirstClearPair(ops: seq<Operation>, from: int, to: int, d: int, cents: int, r: int) {
    exists steps: nat :: r == cents + 7 * steps && !LookAlike(ops, from, d, 0 - r) && !LookAlike(ops, to, d, r)
                         && forall k :: 0 <= k < steps ==>
                              LookAlike(ops, from, d, 0 - (cents + 7 * k)) || LookAlike(ops, to, d, cents + 7 * k)
  }

  lemma FirstClearPairFound(ops: seq<Operation>, booked: Bookings, from: int, to: int, d: int, cents: int, r: int, steps: nat)
    requires AllBooked(ops, booked) && r == cents + 7 * steps && !Clashes(booked, from, d, 0 - r) && !Clashes(booked, to, d, r)
    requires forall k :: 0 <= k < steps ==> Clashes(booked, from, d, 0 - (cents + 7 * k)) || Clashes(booked, to, d, cents + 7 * k)
    ensures IsFirstClearPair(ops, from, to, d, cents, r)
  {
    hide AllBooked, Clashes, LookAlike;
    ClashIsLookAlike(ops, booked, from, d, 0 - r);
    ClashIsLookAlike(ops, booked, to, d, r);
    forall k | 0 <= k < steps
      ensures LookAlike(ops, from, d, 0 - (cents + 7 * k)) || LookAlike(ops, to, d, cents + 7 * k)
    {
      ClashIsLookAlike(ops, booked, from, d, 0 - (cents + 7 * k));
      ClashIsLookAlike(ops, booked, to, d, cents + 7 * k);
    }
  }

  /** Equal amounts on one account are at least fifteen days apart. */
  ghost predicate NoLookAlikes(ops: seq<Operation>) {
    forall i, j :: 0 <= i < j < |ops| && ops[i].account == ops[j].account && ops[i].cents == ops[j].cents ==>
                     !Near(ops[i].date, ops[j].date)
  }

  /** What the transfers come to. */
  function Transferred(ops: seq<Operation>): int {
    if ops == [] then 0
    else Transferred(ops[..|ops| - 1]) + if ops[|ops| - 1].key != 0 then ops[|ops| - 1].cents else 0
  }

  /** Each transfer is two legs, one after the other, of opposite amounts between the same two accounts. */
  ghost predicate LegsPair(ops: seq<Operation>, kxfer: nat) {
    && (forall i :: 0 <= i < |ops| ==> ops[i].key <= kxfer)
    && (forall i :: 0 <= i < |ops| && ops[i].key != 0 ==> HasOtherLeg(ops, i))
  }

  ghost predicate HasOtherLeg(ops: seq<Operation>, i: int)
    requires 0 <= i < |ops|
  {
    exists j :: 0 <= j < |ops| && (j == i + 1 || j == i - 1) && IsOtherLeg(ops[i], ops[j])
  }

  predicate IsOtherLeg(a: Operation, b: Operation) {
    b.key == a.key && b.date == a.date && b.cents == 0 - a.cents && b.account == a.to && b.to == a.account
  }

  predicate PartsAddUp(o: Operation) {
    o.parts == [] || (|o.parts| == 2 && o.parts[0] + o.parts[1] == o.cents)
  }

  ghost predicate Sound(ops: seq<Operation>, booked: Bookings, kxfer: nat, today: int) {
    && AllBooked(ops, booked) && NoLookAlikes(ops) && Transferred(ops) == 0 && LegsPair(ops, kxfer)
    && (forall i :: 0 <= i < |ops| ==> ops[i].date <= today && PartsAddUp(ops[i]))
  }

  lemma Books(ops: seq<Operation>, booked: Bookings, kxfer: nat, today: int)
    requires Sound(ops, booked, kxfer, today)
    ensures AllBooked(ops, booked)
  {
  }

  lemma BookingKeeps(ops: seq<Operation>, booked: Bookings, o: Operation)
    requires AllBooked(ops, booked)
    ensures AllBooked(ops + [o], Booked(booked, o.account, o.date, o.cents))
  {
    hide Booked, DatesOf, DatesIn;
    forall a, c
      ensures DatesOf(Booked(booked, o.account, o.date, o.cents), a, c) == DatesIn(ops + [o], a, c)
    {
      BookedDates(booked, o.account, o.date, o.cents, a, c);
      DatesInMore(ops, o, a, c);
    }
  }

  /** An amount that clashed with nothing, booked and appended. */
  lemma OneMore(ops: seq<Operation>, booked: Bookings, o: Operation)
    requires AllBooked(ops, booked) && NoLookAlikes(ops) && !Clashes(booked, o.account, o.date, o.cents)
    ensures AllBooked(ops + [o], Booked(booked, o.account, o.date, o.cents)) && NoLookAlikes(ops + [o])
  {
    hide Booked, AllBooked, Clashes;
    BookingKeeps(ops, booked, o);
    ClashIsLookAlike(ops, booked, o.account, o.date, o.cents);
  }

  lemma TransferredMore(ops: seq<Operation>, o: Operation)
    ensures Transferred(ops + [o]) == Transferred(ops) + if o.key != 0 then o.cents else 0
  {
    assert (ops + [o])[..|ops|] == ops;
  }

  lemma LegsStay(ops: seq<Operation>, more: seq<Operation>, kxfer: nat, i: int)
    requires LegsPair(ops, kxfer) && 0 <= i < |ops| && ops[i].key != 0
    ensures HasOtherLeg(ops + more, i)
  {
    assert HasOtherLeg(ops, i);
    var j :| 0 <= j < |ops| && (j == i + 1 || j == i - 1) && IsOtherLeg(ops[i], ops[j]);
    assert (ops + more)[j] == ops[j];
  }

  /** A plain operation, on top of all. */
  lemma PlainIsSound(ops: seq<Operation>, booked: Bookings, kxfer: nat, today: int, o: Operation)
    requires Sound(ops, booked, kxfer, today) && !Clashes(booked, o.account, o.date, o.cents)
    requires o.date <= today && o.key == 0 && PartsAddUp(o)
    ensures Sound(ops + [o], Booked(booked, o.account, o.date, o.cents), kxfer, today)
  {
    hide Booked, AllBooked, NoLookAlikes, Clashes, Transferred, PartsAddUp, HasOtherLeg;
    OneMore(ops, booked, o);
    TransferredMore(ops, o);
    forall i | 0 <= i < |ops + [o]| && (ops + [o])[i].key != 0
      ensures HasOtherLeg(ops + [o], i)
    {
      LegsStay(ops, [o], kxfer, i);
    }
  }

  /** A transfer's two legs, on top of all. */
  lemma LegsAreSound(ops: seq<Operation>, booked: Bookings, kxfer: nat, today: int, d: int, from: int, to: int, cents: int)
    requires Sound(ops, booked, kxfer, today) && d <= today && cents > 0
    requires !Clashes(booked, from, d, 0 - cents) && !Clashes(booked, to, d, cents)
    ensures var out, back := Operation(d, from, 0 - cents, to, kxfer + 1, []), Operation(d, to, cents, from, kxfer + 1, []);
            Sound(ops + [out] + [back], Booked(Booked(booked, from, d, 0 - cents), to, d, cents), kxfer + 1, today)
  {
    hide Booked, AllBooked, NoLookAlikes, Clashes, Transferred;
    var out, back := Operation(d, from, 0 - cents, to, kxfer + 1, []), Operation(d, to, cents, from, kxfer + 1, []);
    OneMore(ops, booked, out);
    OtherAmountIsClear(booked, from, d, 0 - cents, to, cents);
    OneMore(ops + [out], Booked(booked, from, d, 0 - cents), back);
    TransferredMore(ops, out);
    TransferredMore(ops + [out], back);
    var all, n := ops + [out] + [back], |ops|;
    assert all == ops + [out, back] && all[n] == out && all[n + 1] == back;
    forall i | 0 <= i < |all| && all[i].key != 0
      ensures HasOtherLeg(all, i)
    {
      if i < n {
        LegsStay(ops, [out, back], kxfer, i);
      } else if i == n {
        assert IsOtherLeg(all[i], all[n + 1]);
      } else {
        assert IsOtherLeg(all[i], all[n]);
      }
    }
  }

  lemma OtherAmountIsClear(booked: Bookings, account: int, d: int, cents: int, other: int, amount: int)
    requires amount != cents && !Clashes(booked, other, d, amount)
    ensures !Clashes(Booked(booked, account, d, cents), other, d, amount)
  {
    hide Booked, DatesOf;
    BookedDates(booked, account, d, cents, other, amount);
    assert DatesOf(booked, other, amount) + [] == DatesOf(booked, other, amount);
  }

  lemma ClashIsBooked(booked: Bookings, account: int, d: int, cents: int)
    requires Clashes(booked, account, d, cents)
    ensures cents in AmountsOf(booked, account)
  {
  }

  // ----- what the card spent, month by month -----

  predicate IsPurchase(o: Operation, m: int, month: int -> int) {
    o.account == CARD && o.key == 0 && month(o.date) == m
  }

  /** What the card's purchases of a month come to. */
  function Purchases(ops: seq<Operation>, m: int, month: int -> int): int {
    if ops == [] then 0
    else Purchases(ops[..|ops| - 1], m, month) + if IsPurchase(ops[|ops| - 1], m, month) then ops[|ops| - 1].cents else 0
  }

  function SpentIn(cardSpend: map<int, int>, m: int): int {
    if m in cardSpend then cardSpend[m] else 0
  }

  ghost predicate SpendIsKept(ops: seq<Operation>, cardSpend: map<int, int>, month: int -> int) {
    forall m :: SpentIn(cardSpend, m) == Purchases(ops, m, month)
  }

  lemma OneMoreSpent(ops: seq<Operation>, cardSpend: map<int, int>, month: int -> int, o: Operation)
    requires SpendIsKept(ops, cardSpend, month)
    ensures var m := month(o.date);
            var after := if o.account == CARD && o.key == 0 then cardSpend[m := SpentIn(cardSpend, m) + o.cents] else cardSpend;
            SpendIsKept(ops + [o], after, month)
  {
    hide IsPurchase;
    var mo := month(o.date);
    var after := if o.account == CARD && o.key == 0 then cardSpend[mo := SpentIn(cardSpend, mo) + o.cents] else cardSpend;
    forall m
      ensures SpentIn(after, m) == Purchases(ops + [o], m, month)
    {
      assert (ops + [o])[..|ops|] == ops;
      PurchaseMeans(o, m, month);
    }
  }

  lemma PurchaseMeans(o: Operation, m: int, month: int -> int)
    ensures IsPurchase(o, m, month) <==> o.account == CARD && o.key == 0 && month(o.date) == m
  {
  }

  class Seeder {
    const today: int
    /** The month of a day. */
    const month: int -> int
    var cardSpend: map<int, int>
    var booked: Bookings
    var ops: seq<Operation>
    var kxfer: nat

    ghost predicate Valid()
      reads this
    {
      Sound(ops, booked, kxfer, today) && SpendIsKept(ops, cardSpend, month)
    }

    constructor (today: int, month: int -> int)
      ensures Valid() && this.today == today && this.month == month && ops == []
    {
      this.today, this.month, booked, ops, kxfer, cardSpend := today, month, map[], [], 0, map[];
    }

    method Clash(account: int, d: int, cents: int) returns (r: bool)
      ensures r <==> Clashes(booked, account, d, cents)
    {
      var dates := DatesOf(booked, account, cents);
      for k := 0 to |dates|
        invariant forall j :: 0 <= j < k ==> !Near(d, dates[j])
      {
        var gap := d - dates[k];
        if gap > -LOOK_ALIKE_DAYS - 1 && gap < LOOK_ALIKE_DAYS + 1 {
          return true;
        }
      }
      r := false;
    }

    method EitherClashes(d: int, from: int, to: int, cents: int) returns (r: bool)
      ensures r <==> Clashes(booked, from, d, 0 - cents) || Clashes(booked, to, d, cents)
    {
      r := Clash(from, d, 0 - cents);
      if !r {
        r := Clash(to, d, cents);
      }
    }

    method Book(account: int, d: int, cents: int)
      modifies this`booked
      ensures booked == Booked(old(booked), account, d, cents)
    {
      if account !in booked {
        booked := booked[account := map[]];
      }
      var dates := if cents in booked[account] then booked[account][cents] else [];
      booked := booked[account := booked[account][cents := dates + [d]]];
      assert booked == Booked(old(booked), account, d, cents);
    }

    /** Down in steps of seven to the first amount that is clear, which it books. Each step passes an amount that is booked. */
    method Unique(account: int, d: int, cents: int) returns (r: int, ghost steps: nat)
      modifies this`booked
      ensures r == cents - 7 * steps && forall k :: 0 <= k < steps ==> Clashes(old(booked), account, d, cents - 7 * k)
      ensures !Clashes(old(booked), account, d, r) && booked == Booked(old(booked), account, d, r)
    {
      hide Clashes, Booked, AmountsOf;
      r, steps := cents, 0;
      var clash := Clash(account, d, r);
      while clash
        invariant booked == old(booked) && (clash <==> Clashes(booked, account, d, r))
        invariant r == cents - 7 * steps && forall k :: 0 <= k < steps ==> Clashes(booked, account, d, cents - 7 * k)
        decreases BookedUpTo(booked, account, r), clash
      {
        ClashIsBooked(booked, account, d, r);
        assert r in BookedUpTo(booked, account, r);
        r, steps := r - 7, steps + 1;
        clash := Clash(account, d, r);
      }
      Book(account, d, r);
    }

    /** An operation up to today, its amount nudged clear of its look-alikes; the card's are added up by month. */
    method Add(date: int, account: int, cents: int)
      requires Valid()
      modifies this`booked, this`ops, this`cardSpend
      ensures Valid()
      ensures date > today ==> ops == old(ops)
      ensures date <= today ==>
                |ops| == |old(ops)| + 1 && ops[..|old(ops)|] == old(ops)
                && var o := ops[|old(ops)|];
                   o == Operation(date, account, o.cents, 0, 0, []) && IsFirstClear(old(ops), account, date, cents, o.cents)
    {
      hide Sound, Clashes, Booked, SpendIsKept;
      if date > today {
        return;
      }
      var c, steps := Unique(account, date, cents);
      FirstClearFound(ops, old(booked), account, date, cents, c, steps) by {
        Books(ops, old(booked), kxfer, today);
      }
      OneMoreSpent(ops, cardSpend, month, Operation(date, account, c, 0, 0, []));
      if account == CARD {
        cardSpend := cardSpend[month(date) := SpentIn(cardSpend, month(date)) + c];
      }
      PlainIsSound(ops, old(booked), kxfer, today, Operation(date, account, c, 0, 0, []));
      ops := ops + [Operation(date, account, c, 0, 0, [])];
    }

    /** Both legs move together, in steps of seven, until both are clear. */
    method Transfer(d: int, from: int, to: int, amount: int)
      requires Valid()
      modifies this`booked, this`ops, this`kxfer
      ensures Valid()
      ensures d > today || amount <= 0 ==> ops == old(ops)
      ensures d <= today && amount > 0 ==>
                |ops| == |old(ops)| + 2 && ops[..|old(ops)|] == old(ops) && kxfer == old(kxfer) + 1
                && var out, back := ops[|old(ops)|], ops[|old(ops)| + 1];
                   && out.account == from && out.date == d && back.account == to && out.key == kxfer && IsOtherLeg(out, back)
                   && IsFirstClearPair(old(ops), from, to, d, amount, back.cents)
    {
      hide Sound, Clashes, Booked, AmountsOf, SpendIsKept;
      if d > today || amount <= 0 {
        return;
      }
      var cents := amount;
      ghost var steps: nat := 0;
      var clash := EitherClashes(d, from, to, cents);
      while clash
        invariant booked == old(booked) && ops == old(ops) && kxfer == old(kxfer) && cents == amount + 7 * steps
        invariant forall k :: 0 <= k < steps ==>
                    Clashes(booked, from, d, 0 - (amount + 7 * k)) || Clashes(booked, to, d, amount + 7 * k)
        invariant clash <==> Clashes(booked, from, d, 0 - cents) || Clashes(booked, to, d, cents)
        decreases BookedUpTo(booked, from, 0 - cents), BookedFrom(booked, to, cents), clash
      {
        if Clashes(booked, from, d, 0 - cents) {
          ClashIsBooked(booked, from, d, 0 - cents);
          assert 0 - cents in BookedUpTo(booked, from, 0 - cents);
        } else {
          ClashIsBooked(booked, to, d, cents);
          assert cents in BookedFrom(booked, to, cents);
        }
        cents, steps := cents + 7, steps + 1;
        clash := EitherClashes(d, from, to, cents);
      }
      Books(ops, booked, kxfer, today);
      FirstClearPairFound(ops, booked, from, to, d, amount, cents, steps);
      LegsAreSound(ops, booked, kxfer, today, d, from, to, cents);
      Book(from, d, 0 - cents);
      Book(to, d, cents);
      kxfer := kxfer + 1;
      OneMoreSpent(ops, cardSpend, month, Operation(d, from, 0 - cents, to, kxfer, []));
      ops := ops + [Operation(d, from, 0 - cents, to, kxfer, [])];
      OneMoreSpent(ops, cardSpend, month, Operation(d, to, cents, from, kxfer, []));
      ops := ops + [Operation(d, to, cents, from, kxfer, [])];
    }

    /** One receipt in two parts; a nudge goes to the first. */
    method Split(d: int, food: int, house: int)
      requires Valid()
      modifies this`booked, this`ops
      ensures Valid()
      ensures d > today ==> ops == old(ops)
      ensures d <= today ==>
                |ops| == |old(ops)| + 1 && ops[..|old(ops)|] == old(ops)
                && var o := ops[|old(ops)|];
                   && o.date == d && o.account == CHECKING && o.key == 0 && o.parts == [o.cents + house, 0 - house]
                   && IsFirstClear(old(ops), CHECKING, d, 0 - (food + house), o.cents)
    {
      hide Sound, Clashes, Booked, SpendIsKept;
      if d > today {
        return;
      }
      var total, steps := Unique(CHECKING, d, 0 - (food + house));
      FirstClearFound(ops, old(booked), CHECKING, d, 0 - (food + house), total, steps) by {
        Books(ops, old(booked), kxfer, today);
      }
      var rest := 0 - total - house;
      var o := Operation(d, CHECKING, 0 - (rest + house), 0, 0, [0 - rest, 0 - house]);
      PlainIsSound(ops, old(booked), kxfer, today, o);
      OneMoreSpent(ops, cardSpend, month, o);
      ops := ops + [o];
    }
  }

  /** At any time equal amounts on one account are at least fifteen days apart. */
  lemma EqualAmountsAreApart(s: Seeder, i: int, j: int)
    requires s.Valid() && 0 <= i < j < |s.ops|
    requires s.ops[i].account == s.ops[j].account && s.ops[i].cents == s.ops[j].cents
    ensures s.ops[i].date - s.ops[j].date >= 15 || s.ops[j].date - s.ops[i].date >= 15
  {
    hide AllBooked, LegsPair, SpendIsKept;
    assert !Near(s.ops[i].date, s.ops[j].date);
  }

  /** At any time the transfers come to nothing, and the months' card spending is what the card's purchases come to. */
  lemma SeededAddsUp(s: Seeder, m: int)
    requires s.Valid()
    ensures Transferred(s.ops) == 0 && SpentIn(s.cardSpend, m) == Purchases(s.ops, m, s.month)
  {
  }
}
