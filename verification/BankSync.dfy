/** Background bank sync: when a connection is due, and from when it fetches (server/internal/banksync/service.go). */
module BankSync {
  import opened Options

  // ----- the weekday mask -----

  function Bit(day: nat): (b: bv8)
    requires day <= 6
  {
    match day
    case 0 => 1
    case 1 => 2
    case 2 => 4
    case 3 => 8
    case 4 => 16
    case 5 => 32
    case _ => 64
  }

  /** 0 is Sunday. */
  predicate HasDay(mask: bv8, day: nat)
    requires day <= 6
  {
    mask & Bit(day) != 0
  }

  const ALL_DAYS: bv8 := 127

  lemma BitIsAdded(mask: bv8, day: nat, d: nat)
    requires day <= 6 && d <= 6
    ensures HasDay(mask | Bit(day), d) <==> d == day || HasDay(mask, d)
  {
    var m := mask;
    assert ((m | 1) & 1 != 0) && ((m | 2) & 2 != 0) && ((m | 4) & 4 != 0) && ((m | 8) & 8 != 0)
           && ((m | 16) & 16 != 0) && ((m | 32) & 32 != 0) && ((m | 64) & 64 != 0);
    if d != day {
      BitsAreApart(day, d);
      AndOverOr(m, Bit(day), Bit(d));
    }
  }

  lemma AndOverOr(m: bv8, b: bv8, e: bv8)
    ensures (m | b) & e == (m & e) | (b & e)
  {
  }

  lemma BitsAreApart(c: nat, d: nat)
    requires c <= 6 && d <= 6 && c != d
    ensures Bit(c) & Bit(d) == 0
  {
  }

  lemma NoDayInZero()
    ensures forall d :: InRange(d) ==> !HasDay(0, d)
  {
  }

  lemma EveryDayInAll()
    ensures forall d :: InRange(d) ==> HasDay(ALL_DAYS, d)
  {
  }

  predicate InRange(day: int) {
    0 <= day <= 6
  }

  /** The mask holds the days of the list, out-of-range entries left out. */
  ghost predicate MaskOf(mask: bv8, days: seq<int>) {
    && (forall d :: InRange(d) ==> (HasDay(mask, d) <==> d in days))
    && (mask == 0 <==> forall d :: d in days ==> !InRange(d))
  }

  lemma DayAdded(mask: bv8, days: seq<int>, day: int)
    requires MaskOf(mask, days)
    ensures MaskOf(if InRange(day) then mask | Bit(day) else mask, days + [day])
  {
    hide HasDay, Bit;
    if InRange(day) {
      forall d | InRange(d)
        ensures HasDay(mask | Bit(day), d) <==> d in days + [day]
      {
        BitIsAdded(mask, day, d);
      }
      OrIsNotZero(mask, day);
      assert day in days + [day];
    }
  }

  method MaskFromDays(days: seq<int>) returns (mask: bv8)
    ensures MaskOf(mask, days)
  {
    hide HasDay;
    mask := 0;
    NoDayInZero();
    for i := 0 to |days|
      invariant MaskOf(mask, days[..i])
    {
      assert days[..i + 1] == days[..i] + [days[i]];
      DayAdded(mask, days[..i], days[i]);
      if 0 <= days[i] <= 6 {
        mask := mask | Bit(days[i]);
      }
    }
    assert days[..|days|] == days;
  }

  lemma OrIsNotZero(mask: bv8, day: nat)
    requires day <= 6
    ensures mask | Bit(day) != 0
  {
    BitIsAdded(mask, day, day);
    NoDayInZero();
    assert HasDay(mask | Bit(day), day);
  }

  ghost predicate Ascending(days: seq<int>) {
    forall i, j :: 0 <= i < j < |days| ==> days[i] < days[j]
  }

  /** The mask's days, in order. */
  method DaysFromMask(mask: bv8) returns (days: seq<int>)
    ensures Ascending(days)
    ensures forall d :: d in days <==> InRange(d) && HasDay(mask, d)
  {
    hide HasDay, Bit;
    days := [];
    for d := 0 to 7
      invariant Ascending(days)
      invariant forall e :: e in days <==> 0 <= e < d && HasDay(mask, e)
    {
      if mask & Bit(d) != 0 {
        assert HasDay(mask, d) by { Flag(mask, d); }
        assert forall i :: 0 <= i < |days| ==> days[i] in days;
        days := days + [d];
      } else {
        assert !HasDay(mask, d) by { Flag(mask, d); }
      }
    }
  }

  lemma Flag(mask: bv8, day: nat)
    requires day <= 6
    ensures HasDay(mask, day) <==> mask & Bit(day) != 0
  {
  }

  // ----- when a connection is due -----

  /** Times in milliseconds since 1970, in UTC. */
  const HOUR: int := 3_600_000
  const DAY: int := 24 * HOUR
  const LOOKBACK: int := 90 * DAY
  const OVERLAP: int := 3 * DAY

  function DayOf(t: int): int {
    t / DAY
  }

  /** 1970 began on a Thursday. */
  function WeekdayOf(day: int): (d: nat)
    ensures d <= 6
  {
    (day + 4) % 7
  }

  /** 1 January 1970 was a Thursday, and after each day comes the next weekday, after Saturday Sunday. */
  lemma WeekdaysGoOn(day: int)
    ensures WeekdayOf(0) == 4
    ensures WeekdayOf(day + 1) == if WeekdayOf(day) == 6 then 0 else WeekdayOf(day) + 1
  {
  }

  function HourOf(t: int): (h: int)
    ensures 0 <= h < 24
  {
    HourInDay(t);
    t % DAY / HOUR
  }

  lemma HourInDay(t: int)
    ensures 0 <= t % DAY / HOUR < 24
  {
  }

  /** The instant of a day's slot. */
  function SlotOf(day: int, hour: int): int {
    day * DAY + hour * HOUR
  }

  predicate ScheduleDue(now: int, hour: int, days: bv8, last: Option<int>) {
    if !HasDay(days, WeekdayOf(DayOf(now))) then false
    else if HourOf(now) < hour then false
    else if last.Some? && last.value >= SlotOf(DayOf(now), hour) then false
    else true
  }

  /** The day's slot has come. */
  lemma PastTheHour(now: int, hour: int)
    requires 0 <= hour < 24
    ensures HourOf(now) >= hour <==> now >= SlotOf(DayOf(now), hour)
    ensures DayOf(now) * DAY <= now < (DayOf(now) + 1) * DAY
  {
    var rest := now % DAY;
    assert now == DayOf(now) * DAY + rest;
    assert rest == rest / HOUR * HOUR + rest % HOUR;
  }

  /** A connection is due when the day's weekday is chosen, its hour has come, and the anchor is from before that hour. */
  lemma DueMeans(now: int, day: int, hour: int, days: bv8, last: Option<int>)
    requires 0 <= hour < 24 && day * 86_400_000 <= now < (day + 1) * 86_400_000
    ensures var slot := day * 86_400_000 + hour * 3_600_000;
            ScheduleDue(now, hour, days, last)
            <==> HasDay(days, WeekdayOf(day)) && slot <= now && (last == None || last.value < slot)
  {
    hide HasDay, WeekdayOf, HourOf;
    SameDayOf(now, day);
    PastTheHour(now, hour);
  }

  lemma SameDayOf(now: int, day: int)
    requires day * 86_400_000 <= now < (day + 1) * 86_400_000
    ensures DayOf(now) == day
  {
  }

  /** Day d of the mask is bit d. */
  lemma BitIsShift(day: nat)
    requires day <= 6
    ensures Bit(day) == (1 as bv8) << day
  {
  }

  /**
   * A sync of a connection as it went: when it began, when the provider answered, when it was over; which accounts
   * were fetched, whose rows were imported, and whether all of that, and the stamp, was saved.
   */
  datatype Course = Course(begun: int, fetched: int, over: int, accounts: set<string>, imported: set<string>, saved: bool)

  ghost predicate Sound(c: Course) {
    c.begun <= c.fetched <= c.over && c.imported <= c.accounts && (c.saved ==> c.imported == c.accounts)
  }

  /** The sync moves the anchor: an account was fetched, and nothing failed after that. */
  predicate Stamps(c: Course) {
    c.accounts != {} && c.saved
  }

  /** From when a sync fetches. */
  function FetchFrom(last: Option<int>, begun: int): int {
    if last.Some? then last.value - OVERLAP else begun - LOOKBACK
  }

  /** At first ninety days back, later three days before the anchor. */
  lemma FetchedFrom(anchor: int, begun: int)
    ensures FetchFrom(None, begun) == begun - 7_776_000_000 && FetchFrom(Some(anchor), begun) == anchor - 259_200_000
  {
  }

  class Connection {
    var hour: int
    var days: bv8
    var autoSync: bool
    var last: Option<int>

    predicate Valid()
      reads this
    {
      0 <= hour < 24
    }

    /** Out-of-range hours are cut, out-of-range days left out; no day means every day. */
    method SetSchedule(hour: int, days: seq<int>)
      modifies this`hour, this`days
      ensures Valid()
      ensures this.hour == if hour < 0 then 0 else if hour > 23 then 23 else hour
      ensures forall d :: InRange(d) ==> (HasDay(this.days, d) <==> d in days || forall e :: e in days ==> !InRange(e))
    {
      hide HasDay, InRange;
      var h := hour;
      if h < 0 {
        h := 0;
      }
      if h > 23 {
        h := 23;
      }
      var mask := MaskFromDays(days);
      if mask == 0 {
        mask := ALL_DAYS;
        EveryDayInAll();
      }
      this.hour, this.days := h, mask;
    }

    /** Fetches from the anchor; moves it unless no account was fetched, or an import or the stamp failed. */
    method SyncOnce(c: Course) returns (from: int)
      requires Sound(c)
      modifies this`last
      ensures from == FetchFrom(old(last), c.begun)
      ensures last == if c.accounts != {} && c.saved then Some(c.over) else old(last)
    {
      from := c.begun - LOOKBACK;
      if last.Some? {
        from := last.value - OVERLAP;
      }
      if !c.saved {
        return;
      }
      if c.accounts != {} {
        last := Some(c.over);
      }
    }
  }

  /** Syncs every connection that is due, one after the other; the schedules are read once, before the first. */
  method SyncDue(rows: seq<Connection>, now: int, courses: seq<Course>) returns (synced: set<nat>)
    requires |courses| == |rows| && forall i :: 0 <= i < |rows| ==> Sound(courses[i])
    requires forall i, j :: 0 <= i < j < |rows| ==> rows[i] != rows[j]
    modifies set i | 0 <= i < |rows| :: rows[i]`last
    ensures forall i: nat :: i in synced <==>
                               i < |rows| && old(rows[i].autoSync)
                               && old(ScheduleDue(now, rows[i].hour, rows[i].days, rows[i].last))
    ensures forall i: nat :: i < |rows| ==>
                               rows[i].last == if i in synced && Stamps(courses[i]) then Some(courses[i].over)
                                               else old(rows[i].last)
  {
    hide ScheduleDue;
    synced := {};
    for i := 0 to |rows|
      invariant forall j: nat :: j in synced <==>
                                   j < i && old(rows[j].autoSync)
                                   && old(ScheduleDue(now, rows[j].hour, rows[j].days, rows[j].last))
      invariant forall j: nat :: j < i ==>
                                   rows[j].last == if j in synced && Stamps(courses[j]) then Some(courses[j].over)
                                                   else old(rows[j].last)
      invariant forall j: nat :: i <= j < |rows| ==> rows[j].last == old(rows[j].last)
    {
      if rows[i].autoSync && ScheduleDue(now, rows[i].hour, rows[i].days, rows[i].last) {
        synced := synced + {i};
        var _ := rows[i].SyncOnce(courses[i]);
      }
    }
  }

  // ----- the anchor over a run -----

  datatype Setting = Setting(hour: int, days: bv8)

  ghost predicate InADay(s: Setting) {
    0 <= s.hour < 24
  }

  /** What can happen to a connection: someone syncs it by hand, or the background job looks at it. */
  datatype Event = Manual(course: Course) | Look(now: int, course: Course)

  /** The anchor the syncs so far leave, at first none. */
  function Anchor(runs: seq<Course>): Option<int> {
    if runs == [] then None
    else if Stamps(runs[|runs| - 1]) then Some(runs[|runs| - 1].over)
    else Anchor(runs[..|runs| - 1])
  }

  predicate Goes(e: Event, last: Option<int>, s: Setting) {
    e.Manual? || ScheduleDue(e.now, s.hour, s.days, last)
  }

  /** The syncs that are made; a look at which nothing is due makes none. */
  function Ran(es: seq<Event>, s: Setting): seq<Course> {
    if es == [] then []
    else
      var so := Ran(es[..|es| - 1], s);
      if Goes(es[|es| - 1], Anchor(so), s) then so + [es[|es| - 1].course] else so
  }

  /** The anchor the i-th event finds. */
  function Found(es: seq<Event>, i: nat, s: Setting): Option<int>
    requires i <= |es|
  {
    Anchor(Ran(es[..i], s))
  }

  ghost predicate Going(es: seq<Event>, i: nat, s: Setting)
    requires i < |es|
  {
    Goes(es[i], Found(es, i, s), s)
  }

  function Start(e: Event): int {
    if e.Look? then e.now else e.course.begun
  }

  /** Events come one after the other; a look that syncs takes as long as the sync. */
  ghost predicate InTurn(es: seq<Event>, s: Setting) {
    && (forall i :: 0 <= i < |es| ==> Sound(es[i].course) && Start(es[i]) <= es[i].course.begun)
    && (forall i, j :: 0 <= i < j < |es| ==> Start(es[i]) <= Start(es[j]))
    && (forall i, j :: 0 <= i < j < |es| && Going(es, i, s) ==> es[i].course.over <= Start(es[j]))
  }

  /** The event syncs, and the sync moves the anchor. */
  ghost predicate Saves(es: seq<Event>, i: nat, s: Setting)
    requires i < |es|
  {
    Going(es, i, s) && Stamps(es[i].course)
  }

  lemma FoundNext(es: seq<Event>, i: nat, s: Setting)
    requires i < |es|
    ensures Found(es, i + 1, s) == if Saves(es, i, s) then Some(es[i].course.over) else Found(es, i, s)
  {
    hide Goes, Stamps;
    assert es[..i + 1][..i] == es[..i];
    AnchorNext(Ran(es[..i], s), es[i].course);
  }

  lemma AnchorNext(runs: seq<Course>, c: Course)
    ensures Anchor(runs + [c]) == if Stamps(c) then Some(c.over) else Anchor(runs)
  {
    assert (runs + [c])[..|runs|] == runs;
  }

  /** From one event to another the anchor stays, or is moved past the first one's start. */
  lemma {:induction false} FoundSince(es: seq<Event>, i: nat, j: nat, s: Setting)
    requires InTurn(es, s) && i <= j <= |es| && i < |es|
    ensures if exists k: nat :: i <= k < j && Saves(es, k, s)
            then Found(es, j, s).Some? && Found(es, j, s).value >= Start(es[i])
            else Found(es, j, s) == Found(es, i, s)
  {
    hide Found, Saves;
    if i < j {
      FoundSince(es, i, j - 1, s);
      FoundNext(es, j - 1, s);
      if Saves(es, j - 1, s) {
        OverAfterStart(es, i, j - 1, s);
      }
    }
  }

  lemma OverAfterStart(es: seq<Event>, i: nat, j: nat, s: Setting)
    requires InTurn(es, s) && i <= j < |es|
    ensures es[j].course.over >= Start(es[i])
  {
    hide Going;
    if i < j {
      assert Start(es[i]) <= Start(es[j]);
    }
  }

  // ----- one background sync a slot -----

  /** At a look of a day whose slot has come, all that counts is whether the anchor has passed it. */
  lemma DueInSlot(now: int, hour: int, days: bv8, last: Option<int>, before: int, found: Option<int>)
    requires 0 <= hour < 24 && ScheduleDue(before, hour, days, found)
    requires before <= now && DayOf(before) == DayOf(now)
    ensures before >= SlotOf(DayOf(now), hour)
    ensures ScheduleDue(now, hour, days, last) <==> !(last.Some? && last.value >= SlotOf(DayOf(now), hour))
  {
    hide HasDay, DayOf, HourOf;
    PastTheHour(before, hour);
    PastTheHour(now, hour);
  }

  ghost predicate SameDay(es: seq<Event>, i: nat, j: nat) {
    i < j < |es| && es[i].Look? && es[j].Look? && DayOf(es[i].now) == DayOf(es[j].now)
  }

  /** After a look that found the connection due, another look of that day does so exactly when no sync was saved since. */
  lemma DueAgain(es: seq<Event>, i: nat, j: nat, s: Setting)
    requires InADay(s) && InTurn(es, s) && SameDay(es, i, j) && Going(es, i, s)
    ensures Going(es, j, s) <==> !exists k: nat :: i <= k < j && Saves(es, k, s)
  {
    hide ScheduleDue, Found, Saves, DayOf, SlotOf;
    FoundSince(es, i, j, s);
    assert Start(es[i]) <= Start(es[j]);
    DueInSlot(es[j].now, s.hour, s.days, Found(es, j, s), es[i].now, Found(es, i, s));
    DueInSlot(es[j].now, s.hour, s.days, Found(es, i, s), es[i].now, Found(es, i, s));
    DueInSlot(es[i].now, s.hour, s.days, Found(es, i, s), es[i].now, Found(es, i, s));
  }

  /** A background sync that fetched an account. */
  ghost predicate Fetches(es: seq<Event>, i: nat, s: Setting)
    requires i < |es|
  {
    es[i].Look? && Going(es, i, s) && es[i].course.accounts != {}
  }

  /** Two background syncs of a slot that both fetched something. */
  ghost predicate Twice(es: seq<Event>, i: nat, j: nat, s: Setting) {
    SameDay(es, i, j) && Fetches(es, i, s) && Fetches(es, j, s)
  }

  /**
   * A fetching sync is made again: it was not saved, nor was any other up to a later look of the day at which the
   * provider gives something.
   */
  ghost predicate MadeAgain(es: seq<Event>, i: nat, j: nat, s: Setting) {
    && SameDay(es, i, j) && Fetches(es, i, s) && es[j].course.accounts != {}
    && !es[i].course.saved && forall k: nat :: i < k < j ==> !Saves(es, k, s)
  }

  /** A slot has two background syncs that fetched something exactly when the first failed and was made again. */
  lemma TwiceIfMadeAgain(es: seq<Event>, i: nat, j: nat, s: Setting)
    requires InADay(s) && InTurn(es, s)
    ensures Twice(es, i, j, s) <==> MadeAgain(es, i, j, s)
  {
    hide Going, InTurn;
    if SameDay(es, i, j) && Fetches(es, i, s) {
      DueAgain(es, i, j, s);
      assert Saves(es, i, s) <==> es[i].course.saved;
    }
  }

  /**
   * Whatever is synced by hand in between, no slot has two background syncs that were saved; and none has two that
   * fetched something exactly when no fetching one fails and is made again.
   */
  lemma OneSyncPerSlot(es: seq<Event>, s: Setting)
    requires InADay(s) && InTurn(es, s)
    ensures forall i: nat, j: nat :: SameDay(es, i, j) && Saves(es, i, s) ==> !Going(es, j, s)
    ensures (forall i: nat, j: nat :: !Twice(es, i, j, s)) <==> (forall i: nat, j: nat :: !MadeAgain(es, i, j, s))
  {
    hide Going, InTurn, Twice, MadeAgain;
    forall i: nat, j: nat | SameDay(es, i, j) && Saves(es, i, s)
      ensures !Going(es, j, s)
    {
      DueAgain(es, i, j, s);
    }
    forall i: nat, j: nat
      ensures Twice(es, i, j, s) <==> MadeAgain(es, i, j, s)
    {
      TwiceIfMadeAgain(es, i, j, s);
    }
  }

  /** An import that fails at five past midnight is made again five minutes later, in the same slot. */
  lemma AFailedImportIsMadeAgain()
    ensures var minute, s := 60_000, Setting(0, ALL_DAYS);
            var failed := Course(5 * minute, 5 * minute, 5 * minute, {"account"}, {}, false);
            var again := Course(10 * minute, 10 * minute, 10 * minute, {"account"}, {"account"}, true);
            var es := [Look(5 * minute, failed), Look(10 * minute, again)];
            InADay(s) && InTurn(es, s) && Twice(es, 0, 1, s)
  {
    var minute, s := 60_000, Setting(0, ALL_DAYS);
    var failed := Course(5 * minute, 5 * minute, 5 * minute, {"account"}, {}, false);
    var again := Course(10 * minute, 10 * minute, 10 * minute, {"account"}, {"account"}, true);
    var es := [Look(5 * minute, failed), Look(10 * minute, again)];
    EveryDayInAll();
    assert es[..0] == [];
    assert Going(es, 0, s);
    assert InTurn(es, s);
    assert MadeAgain(es, 0, 1, s);
    TwiceIfMadeAgain(es, 0, 1, s);
  }

  /** A background sync leaves the connection due for the rest of the day exactly when nothing was fetched or saved. */
  lemma UnsavedStaysDue(last: Option<int>, now: int, c: Course, later: int, s: Setting)
    requires InADay(s) && Sound(c) && ScheduleDue(now, s.hour, s.days, last) && now <= c.begun
    requires now <= later && DayOf(later) == DayOf(now)
    ensures var left := if Stamps(c) then Some(c.over) else last;
            ScheduleDue(later, s.hour, s.days, left) <==> c.accounts == {} || !c.saved
  {
    hide HasDay, DayOf, ScheduleDue, SlotOf;
    var left := if Stamps(c) then Some(c.over) else last;
    DueInSlot(later, s.hour, s.days, left, now, last);
    DueInSlot(now, s.hour, s.days, last, now, last);
  }

  // ----- no gap between the windows -----

  /** What a sync asked the provider for: [from, to). */
  datatype Window = Window(from: int, to: int)

  predicate Covers(w: Window, t: int) {
    w.from <= t < w.to
  }

  function WindowOf(runs: seq<Course>, i: nat): Window
    requires i < |runs|
  {
    Window(FetchFrom(Anchor(runs[..i]), runs[i].begun), runs[i].fetched)
  }

  ghost predicate OneAfterTheOther(runs: seq<Course>) {
    && (forall i :: 0 <= i < |runs| ==> Sound(runs[i]))
    && (forall i, j :: 0 <= i < j < |runs| ==> runs[i].over <= runs[j].begun)
  }

  /** One of the runs that count asked for the instant. */
  ghost predicate Covered(runs: seq<Course>, counts: Course -> bool, t: int) {
    exists i: nat :: i < |runs| && counts(runs[i]) && Covers(WindowOf(runs, i), t)
  }

  /** From any run that counts to a later one, every instant is in the window of a run that counts. */
  ghost predicate NoGap(runs: seq<Course>, counts: Course -> bool) {
    forall i: nat, j: nat, t ::
      i <= j < |runs| && counts(runs[i]) && counts(runs[j]) && Covers(Window(WindowOf(runs, i).from, WindowOf(runs, j).to), t)
      ==> Covered(runs, counts, t)
  }

  /** Run j is the next that counts after run i. */
  ghost predicate Next(runs: seq<Course>, counts: Course -> bool, i: nat, j: nat) {
    i < j < |runs| && counts(runs[i]) && counts(runs[j]) && forall k :: i < k < j ==> !counts(runs[k])
  }

  /** The anchor the later run finds is at most three days past the earlier one's fetch; without one it goes back ninety days. */
  ghost predicate InTime(runs: seq<Course>, i: nat, j: nat)
    requires i < j < |runs|
  {
    match Anchor(runs[..j])
    case Some(stamp) => stamp - runs[i].fetched <= OVERLAP
    case None => runs[j].begun - runs[i].fetched <= LOOKBACK
  }

  lemma AnchorStep(runs: seq<Course>, i: nat)
    requires i < |runs|
    ensures Anchor(runs[..i + 1]) == if Stamps(runs[i]) then Some(runs[i].over) else Anchor(runs[..i])
  {
    assert runs[..i + 1] == runs[..i] + [runs[i]];
    AnchorNext(runs[..i], runs[i]);
  }

  /** A window begins before its run does, and no later than the next run's. */
  lemma {:induction false} AnchorIsPast(runs: seq<Course>, i: nat)
    requires OneAfterTheOther(runs) && i < |runs|
    ensures Anchor(runs[..i]).Some? ==> Anchor(runs[..i]).value <= runs[i].begun
  {
    hide Anchor, Stamps;
    if i > 0 {
      AnchorIsPast(runs, i - 1);
      AnchorStep(runs, i - 1);
    } else {
      assert Anchor(runs[..0]) == None by { NoAnchor(runs); }
    }
  }

  lemma NoAnchor(runs: seq<Course>)
    ensures Anchor(runs[..0]) == None
  {
  }

  lemma {:induction false} WindowsGoOn(runs: seq<Course>, i: nat, j: nat)
    requires OneAfterTheOther(runs) && i <= j < |runs|
    ensures WindowOf(runs, i).from <= WindowOf(runs, j).from
    ensures WindowOf(runs, i).to <= WindowOf(runs, j).to
    ensures WindowOf(runs, j).from <= WindowOf(runs, j).to
  {
    hide Anchor, Stamps;
    AnchorIsPast(runs, j);
    if i < j {
      WindowsGoOn(runs, i, j - 1);
      AnchorStep(runs, j - 1);
      AnchorIsPast(runs, j - 1);
    }
  }

  lemma {:induction false} ChainCovers(runs: seq<Course>, counts: Course -> bool, i: nat, j: nat, t: int)
    requires forall p: nat, q: nat :: Next(runs, counts, p, q) ==> WindowOf(runs, q).from <= WindowOf(runs, p).to
    requires i <= j < |runs| && counts(runs[i]) && counts(runs[j])
    requires WindowOf(runs, i).from <= t < WindowOf(runs, j).to
    ensures Covered(runs, counts, t)
    decreases j
  {
    hide WindowOf;
    if WindowOf(runs, j).from <= t {
      assert Covers(WindowOf(runs, j), t);
    } else {
      var p := j - 1;
      while !counts(runs[p])
        invariant i <= p < j && forall k :: p < k < j ==> !counts(runs[k])
        decreases p
      {
        p := p - 1;
      }
      assert Next(runs, counts, p, j);
      ChainCovers(runs, counts, i, p, t);
    }
  }

  /** A window that begins after the end of the one before leaves the instant between them out for good. */
  lemma GapStays(runs: seq<Course>, counts: Course -> bool, i: nat, j: nat)
    requires OneAfterTheOther(runs) && Next(runs, counts, i, j) && WindowOf(runs, i).to < WindowOf(runs, j).from
    ensures !NoGap(runs, counts)
  {
    hide WindowOf, OneAfterTheOther;
    var t := WindowOf(runs, i).to;
    forall k: nat | k < |runs| && counts(runs[k])
      ensures !Covers(WindowOf(runs, k), t)
    {
      if k <= i {
        WindowsGoOn(runs, k, i);
      } else {
        WindowsGoOn(runs, j, k);
      }
    }
    WindowsGoOn(runs, i, i);
    WindowsGoOn(runs, j, j);
    assert !Covered(runs, counts, t);
    assert i <= j && Covers(Window(WindowOf(runs, i).from, WindowOf(runs, j).to), t);
  }

  /** The windows of the runs that count leave no gap exactly when each begins in time for the one before. */
  lemma NoGapIfInTime(runs: seq<Course>, counts: Course -> bool)
    requires OneAfterTheOther(runs)
    ensures NoGap(runs, counts) <==> forall i: nat, j: nat :: Next(runs, counts, i, j) ==> InTime(runs, i, j)
  {
    hide WindowOf, OneAfterTheOther, InTime, Anchor;
    forall i: nat, j: nat | Next(runs, counts, i, j)
      ensures InTime(runs, i, j) <==> WindowOf(runs, j).from <= WindowOf(runs, i).to
    {
      TouchIfInTime(runs, i, j);
    }
    if i: nat, j: nat :| Next(runs, counts, i, j) && !InTime(runs, i, j) {
      GapStays(runs, counts, i, j);
    } else {
      forall i: nat, j: nat, t | i <= j < |runs| && counts(runs[i]) && counts(runs[j])
                                 && Covers(Window(WindowOf(runs, i).from, WindowOf(runs, j).to), t)
        ensures Covered(runs, counts, t)
      {
        ChainCovers(runs, counts, i, j, t);
      }
    }
  }

  lemma TouchIfInTime(runs: seq<Course>, i: nat, j: nat)
    requires i < j < |runs|
    ensures InTime(runs, i, j) <==> WindowOf(runs, j).from <= WindowOf(runs, i).to
  {
  }

  /**
   * One account: its windows leave no gap exactly when, from each run that imported it to the next that did, the
   * anchor has moved at most three days past the earlier one's fetch.
   */
  lemma AccountHasNoGap(runs: seq<Course>, account: string)
    requires OneAfterTheOther(runs)
    ensures var imported := (c: Course) => account in c.imported;
            NoGap(runs, imported) <==> forall i: nat, j: nat :: Next(runs, imported, i, j) ==> InTime(runs, i, j)
  {
    hide NoGap, Next, InTime, OneAfterTheOther;
    NoGapIfInTime(runs, (c: Course) => account in c.imported);
  }

  lemma {:induction false} AnchorOfNext(runs: seq<Course>, i: nat, j: nat)
    requires i < j <= |runs| && Stamps(runs[i]) && forall k :: i < k < j ==> !Stamps(runs[k])
    ensures Anchor(runs[..j]) == Some(runs[i].over)
  {
    hide Anchor, Stamps;
    AnchorStep(runs, j - 1);
    if i < j - 1 {
      AnchorOfNext(runs, i, j - 1);
    }
  }

  lemma {:induction false} NoAnchorYet(runs: seq<Course>, j: nat)
    requires j <= |runs| && forall k :: 0 <= k < j ==> !Stamps(runs[k])
    ensures Anchor(runs[..j]) == None
  {
    hide Anchor, Stamps;
    if j > 0 {
      NoAnchorYet(runs, j - 1);
      AnchorStep(runs, j - 1);
    } else {
      NoAnchor(runs);
    }
  }

  /**
   * The connection: the windows of the runs that were saved leave no gap, from ninety days before the first,
   * exactly when each of these runs but the last took at most the overlap from its fetch to its stamp.
   */
  lemma NoGapIfStampedInTime(runs: seq<Course>)
    requires OneAfterTheOther(runs)
    ensures forall j: nat :: j < |runs| && Stamps(runs[j]) && (forall k :: 0 <= k < j ==> !Stamps(runs[k]))
                             ==> WindowOf(runs, j).from == runs[j].begun - LOOKBACK
    ensures NoGap(runs, Stamps)
            <==> forall i: nat, j: nat :: Next(runs, Stamps, i, j) ==> runs[i].over - runs[i].fetched <= OVERLAP
  {
    hide Anchor, Stamps, NoGap, OneAfterTheOther;
    NoGapIfInTime(runs, Stamps);
    forall i: nat, j: nat | Next(runs, Stamps, i, j)
      ensures InTime(runs, i, j) <==> runs[i].over - runs[i].fetched <= OVERLAP
    {
      AnchorOfNext(runs, i, j);
    }
    forall j: nat | j < |runs| && Stamps(runs[j]) && (forall k :: 0 <= k < j ==> !Stamps(runs[k]))
      ensures WindowOf(runs, j).from == runs[j].begun - LOOKBACK
    {
      NoAnchorYet(runs, j);
    }
  }

  ghost predicate AllOver(runs: seq<Course>, t: int) {
    forall i :: 0 <= i < |runs| ==> runs[i].over <= t
  }

  lemma RanNext(es: seq<Event>, i: nat, s: Setting)
    requires i < |es|
    ensures Ran(es[..i + 1], s) == if Going(es, i, s) then Ran(es[..i], s) + [es[i].course] else Ran(es[..i], s)
  {
    hide Goes, Anchor;
    assert es[..i + 1][..i] == es[..i];
  }

  lemma OneMore(runs: seq<Course>, c: Course)
    requires OneAfterTheOther(runs) && AllOver(runs, c.begun) && Sound(c)
    ensures OneAfterTheOther(runs + [c])
  {
  }

  /** The runs of any course of events come one after the other. */
  lemma {:induction false} RanInTurn(es: seq<Event>, n: nat, s: Setting)
    requires InTurn(es, s) && n <= |es|
    ensures OneAfterTheOther(Ran(es[..n], s))
    ensures forall m :: n <= m < |es| ==> AllOver(Ran(es[..n], s), Start(es[m]))
  {
    hide Going, OneAfterTheOther, Ran;
    if n == 0 {
      assert Ran(es[..0], s) == [] && OneAfterTheOther([]) by { NothingRan(es, s); }
    } else {
      var e := es[n - 1];
      RanInTurn(es, n - 1, s);
      RanNext(es, n - 1, s);
      if Going(es, n - 1, s) {
        var before := Ran(es[..n - 1], s);
        assert AllOver(before, Start(e));
        OneMore(before, e.course);
        forall m | n <= m < |es|
          ensures AllOver(before + [e.course], Start(es[m]))
        {
          assert AllOver(before, Start(es[m]));
          assert e.course.over <= Start(es[m]);
        }
      }
    }
  }

  lemma NothingRan(es: seq<Event>, s: Setting)
    ensures Ran(es[..0], s) == [] && OneAfterTheOther([])
  {
  }
}
