/** A sync schedule in the user's own time: to UTC, into the weekday mask, and back (web/src/schedule.ts). */
module ScheduleZones {
  import opened BankSync

  datatype Schedule = Schedule(hour: int, days: seq<int>)

  function Mod(n: int, m: int): (r: int)
    requires m > 0
    ensures 0 <= r < m
  {
    n % m
  }

  function Insert(d: int, days: seq<int>): seq<int> {
    if days == [] || d <= days[0] then [d] + days else [days[0]] + Insert(d, days[1..])
  }

  function Sorted(days: seq<int>): seq<int> {
    if days == [] then [] else Insert(days[0], Sorted(days[1..]))
  }

  function Shifted(days: seq<int>, delta: int): seq<int> {
    seq(|days|, i requires 0 <= i < |days| => Mod(days[i] + delta, 7))
  }

  /** offset is UTC minus local, in minutes. */
  function LocalToUtc(s: Schedule, offset: int): Schedule {
    var total := s.hour * 60 + offset;
    Schedule(Mod(total / 60, 24), Sorted(Shifted(s.days, total / 1440)))
  }

  function UtcToLocal(s: Schedule, offset: int): Schedule {
    var total := s.hour * 60 - offset;
    Schedule(Mod(total / 60, 24), Sorted(Shifted(s.days, total / 1440)))
  }

  // ----- sorting -----

  predicate NoRepeats(days: seq<int>) {
    forall i, j :: 0 <= i < j < |days| ==> days[i] != days[j]
  }

  lemma FirstIsLess(x: int, rest: seq<int>)
    requires Ascending(rest) && forall e :: e in rest ==> x < e
    ensures Ascending([x] + rest)
  {
    assert forall i :: 0 <= i < |rest| ==> rest[i] in rest;
  }

  lemma {:induction false} InsertKeeps(d: int, days: seq<int>)
    requires Ascending(days) && d !in days
    ensures Ascending(Insert(d, days)) && forall e :: e in Insert(d, days) <==> e == d || e in days
  {
    if days != [] {
      FirstIsLeast(days);
      assert days == [days[0]] + days[1..];
      assert days[0] in days;
      assert forall e :: e in days <==> e == days[0] || e in days[1..];
      if d <= days[0] {
        FirstIsLess(d, days);
      } else {
        InsertKeeps(d, days[1..]);
        FirstIsLess(days[0], Insert(d, days[1..]));
      }
    } else {
      FirstIsLess(d, []);
    }
  }

  /** Without repeats, the sorted list is the ascending one of the same days. */
  lemma {:induction false} SortedOnce(days: seq<int>)
    requires NoRepeats(days)
    ensures Ascending(Sorted(days)) && forall d :: d in Sorted(days) <==> d in days
  {
    if days != [] {
      hide Ascending, Insert;
      SortedOnce(days[1..]);
      assert days == [days[0]] + days[1..];
      InsertKeeps(days[0], Sorted(days[1..]));
      assert forall d :: d in days <==> d == days[0] || d in days[1..];
    }
  }

  lemma SameEmptiness(a: seq<int>, b: seq<int>)
    requires forall d :: d in a <==> d in b
    ensures a == [] <==> b == []
  {
    if a != [] {
      var x := a[0];
      assert x in b;
    }
    if b != [] {
      var x := b[0];
      assert x in a;
    }
  }

  lemma {:induction false} SameAscending(a: seq<int>, b: seq<int>)
    requires Ascending(a) && Ascending(b) && forall d :: d in a <==> d in b
    ensures a == b
  {
    SameEmptiness(a, b);
    if a != [] {
      FirstIsLeast(a);
      FirstIsLeast(b);
      var x, y := a[0], b[0];
      assert x in b && y in a;
      assert x == y;
      assert a == [a[0]] + a[1..] && b == [b[0]] + b[1..];
      forall d
        ensures d in a[1..] <==> d in b[1..]
      {
        assert d in a <==> d == a[0] || d in a[1..];
        assert d in b <==> d == b[0] || d in b[1..];
      }
      SameAscending(a[1..], b[1..]);
    }
  }

  lemma FirstIsLeast(a: seq<int>)
    requires a != [] && Ascending(a)
    ensures Ascending(a[1..]) && forall d :: d in a[1..] ==> a[0] < d
  {
  }

  // ----- the hours and the weekdays -----

  lemma HourOfMinutes(h: int, r: int)
    requires 0 <= r < 60
    ensures (h * 60 + r) / 60 == h && (h * 60 + r) / 1440 == h / 24
  {
    DayOfHours(h / 24, h % 24, r);
  }

  lemma DayOfHours(d: int, h: int, r: int)
    requires 0 <= h < 24 && 0 <= r < 60
    ensures (d * 1440 + h * 60 + r) / 1440 == d
  {
  }

  /** The hour and the day that minutes from the hour h, moved by the offset, fall in. */
  lemma HourOfTotal(h: int, offset: int)
    ensures (h * 60 + offset) / 60 == h + offset / 60
    ensures (h * 60 + offset) / 1440 == (h + offset / 60) / 24
  {
    HourOfMinutes(h + offset / 60, offset % 60);
  }

  /** Sent to UTC and back, the hour is the same, or one less when the offset is no whole number of hours. */
  function HourBack(hour: int, offset: int): int {
    if offset % 60 == 0 then hour else hour - 1
  }

  lemma OffsetBack(offset: int)
    ensures (0 - offset) / 60 == if offset % 60 == 0 then 0 - offset / 60 else 0 - offset / 60 - 1
  {
  }

  lemma DaysMoved(h: int, delta: int)
    ensures (h - 24 * delta) / 24 == h / 24 - delta && (h - 24 * delta) % 24 == h % 24
  {
  }

  lemma ThereAndBack(hour: int, offset: int)
    requires 0 <= hour < 24
    ensures var out := hour * 60 + offset;
            var back := Mod(out / 60, 24) * 60 - offset;
            && Mod(back / 60, 24) == Mod(HourBack(hour, offset), 24)
            && out / 1440 + back / 1440 == HourBack(hour, offset) / 24
  {
    var k := offset / 60;
    HourOfTotal(hour, offset);
    var utc, delta := Mod(hour + k, 24), (hour + k) / 24;
    assert utc == hour + k - 24 * delta;
    OffsetBack(offset);
    HourOfTotal(utc, 0 - offset);
    DaysMoved(HourBack(hour, offset), delta);
  }

  lemma ShiftTwice(d: int, a: int, b: int)
    ensures Mod(Mod(d + a, 7) + b, 7) == Mod(d + a + b, 7)
  {
    WeeksMoved(Mod(d + a, 7) + b, (d + a) / 7);
  }

  lemma WeeksMoved(n: int, weeks: int)
    ensures (n + 7 * weeks) % 7 == n % 7
  {
  }

  // ----- the round trip -----

  predicate IsLocal(s: Schedule) {
    && 0 <= s.hour < 24 && NoRepeats(s.days)
    && forall d :: d in s.days ==> 0 <= d <= 6
  }

  lemma ShiftedHasNoRepeats(days: seq<int>, delta: int)
    requires NoRepeats(days) && forall d :: d in days ==> 0 <= d <= 6
    ensures NoRepeats(Shifted(days, delta))
    ensures forall d :: d in Shifted(days, delta) ==> 0 <= d <= 6
  {
    var t := Shifted(days, delta);
    forall i, j | 0 <= i < j < |days|
      ensures t[i] != t[j]
    {
      assert days[i] in days && days[j] in days;
    }
  }

  lemma InShifted(days: seq<int>, delta: int, e: int)
    ensures e in Shifted(days, delta) <==> exists d :: d in days && e == Mod(d + delta, 7)
  {
    var t := Shifted(days, delta);
    if e in t {
      var i :| 0 <= i < |t| && t[i] == e;
      assert days[i] in days && e == Mod(days[i] + delta, 7);
    }
    if d :| d in days && e == Mod(d + delta, 7) {
      var i :| 0 <= i < |days| && days[i] == d;
      assert t[i] == e;
    }
  }

  /** The days one hour earlier or at the same hour: a day back only from the hour of midnight. */
  function DayBack(d: int, hour: int, offset: int): int {
    Mod(d + HourBack(hour, offset) / 24, 7)
  }

  lemma {:induction false} DaysBack(s: Schedule, offset: int, e: int)
    requires IsLocal(s)
    ensures var u := LocalToUtc(s, offset);
            e in Shifted(u.days, (u.hour * 60 - offset) / 1440)
            <==> exists d :: d in s.days && e == DayBack(d, s.hour, offset)
  {
    hide Sorted, Shifted, Mod, NoRepeats, Ascending, HourBack;
    var a := (s.hour * 60 + offset) / 1440;
    var u := LocalToUtc(s, offset);
    var b := (u.hour * 60 - offset) / 1440;
    ThereAndBack(s.hour, offset);
    assert a + b == HourBack(s.hour, offset) / 24;
    ShiftedHasNoRepeats(s.days, a);
    SortedOnce(Shifted(s.days, a));
    InShifted(u.days, b, e);
    if x :| x in u.days && e == Mod(x + b, 7) {
      InShifted(s.days, a, x);
      var d :| d in s.days && x == Mod(d + a, 7);
      ShiftTwice(d, a, b);
    }
    if d :| d in s.days && e == DayBack(d, s.hour, offset) {
      var x := Mod(d + a, 7);
      InShifted(s.days, a, x);
      ShiftTwice(d, a, b);
      assert x in u.days;
    }
  }

  const EVERY_DAY: seq<int> := [0, 1, 2, 3, 4, 5, 6]

  /** What the page shows of a choice it has sent. */
  function Shown(s: Schedule, offset: int): Schedule {
    var u := LocalToUtc(s, offset);
    UtcToLocal(Schedule(u.hour, if u.days == [] then EVERY_DAY else u.days), offset)
  }

  lemma SentIsInRange(s: Schedule, offset: int)
    requires IsLocal(s)
    ensures var u := LocalToUtc(s, offset);
            && 0 <= u.hour < 24 && Ascending(u.days) && (forall d :: d in u.days ==> InRange(d))
            && (u.days == [] <==> s.days == [])
  {
    hide Ascending, NoRepeats, Sorted, Mod;
    var t := Shifted(s.days, (s.hour * 60 + offset) / 1440);
    ShiftedHasNoRepeats(s.days, (s.hour * 60 + offset) / 1440);
    SortedOnce(t);
    SameEmptiness(t, Sorted(t));
  }

  /** Saved through the connection's schedule, with its weekday mask, and read back. */
  method SaveAndShow(c: Connection, s: Schedule, offset: int) returns (shown: Schedule)
    requires IsLocal(s)
    modifies c
    ensures c.Valid() && shown == Shown(s, offset)
  {
    hide Sorted, Shifted, HasDay, NoRepeats, Ascending, Mod, UtcToLocal, LocalToUtc;
    var u := LocalToUtc(s, offset);
    SentIsInRange(s, offset);
    c.SetSchedule(u.hour, u.days);
    var days := DaysFromMask(c.days);
    StoredDays(u.days, c.days, days);
    shown := UtcToLocal(Schedule(c.hour, days), offset);
  }

  lemma StoredDays(sent: seq<int>, mask: bv8, days: seq<int>)
    requires Ascending(sent) && Ascending(days) && forall d :: d in sent ==> InRange(d)
    requires forall d :: InRange(d) ==> (HasDay(mask, d) <==> d in sent || forall e :: e in sent ==> !InRange(e))
    requires forall d :: d in days <==> InRange(d) && HasDay(mask, d)
    ensures days == if sent == [] then EVERY_DAY else sent
  {
    hide HasDay;
    if sent == [] {
      SameAscending(days, EVERY_DAY);
    } else {
      assert sent[0] in sent;
      SameAscending(days, sent);
    }
  }

  /** The hour that comes back is the chosen one, or the one before it when the offset is no whole number of hours. */
  lemma HourComesBack(s: Schedule, offset: int)
    requires IsLocal(s)
    ensures Shown(s, offset).hour == Mod(HourBack(s.hour, offset), 24)
  {
    hide Sorted, Shifted;
    ThereAndBack(s.hour, offset);
  }

  /** The days that come back are those chosen, or the days before them if that hour is before midnight. */
  lemma DaysComeBack(s: Schedule, offset: int)
    requires IsLocal(s) && s.days != []
    ensures Ascending(Shown(s, offset).days)
    ensures forall e :: e in Shown(s, offset).days <==> exists d :: d in s.days && e == DayBack(d, s.hour, offset)
  {
    hide Sorted, Shifted, NoRepeats, Ascending, DayBack, Mod;
    var u := LocalToUtc(s, offset);
    var b := (u.hour * 60 - offset) / 1440;
    SentIsInRange(s, offset);
    AscendingHasNoRepeats(u.days);
    ShiftedHasNoRepeats(u.days, b);
    SortedOnce(Shifted(u.days, b));
    forall e
      ensures e in Shown(s, offset).days <==> exists d :: d in s.days && e == DayBack(d, s.hour, offset)
    {
      DaysBack(s, offset, e);
    }
  }

  lemma AscendingHasNoRepeats(days: seq<int>)
    requires Ascending(days)
    ensures NoRepeats(days)
  {
  }

  /** A choice of some days comes back as it was, in order, exactly when the offset is a whole number of hours. */
  lemma ComesBackInWholeHours(s: Schedule, offset: int)
    requires IsLocal(s) && s.days != []
    ensures Shown(s, offset) == Schedule(s.hour, Sorted(s.days)) <==> offset % 60 == 0
  {
    hide Sorted, Shown, NoRepeats, Ascending;
    HourComesBack(s, offset);
    if offset % 60 == 0 {
      DaysComeBack(s, offset);
      SortedOnce(s.days);
      forall e
        ensures e in Shown(s, offset).days <==> e in Sorted(s.days)
      {
        if e in s.days {
          assert DayBack(e, s.hour, offset) == e;
        }
        if d :| d in s.days && e == DayBack(d, s.hour, offset) {
          assert d == e;
        }
      }
      SameAscending(Shown(s, offset).days, Sorted(s.days));
    }
  }

  /** A moment of the week: its hour counted from Sunday's midnight. */
  function HourOfWeek(day: int, hour: int): int {
    Mod(24 * day + hour, 168)
  }

  /** With any other offset, each chosen moment of the week comes back one hour earlier, over midnight and Sunday too. */
  lemma OneHourEarlierOtherwise(s: Schedule, offset: int, d: int)
    requires IsLocal(s) && d in s.days && offset % 60 != 0
    ensures var e := DayBack(d, s.hour, offset);
            && e in Shown(s, offset).days
            && HourOfWeek(e, Shown(s, offset).hour) == Mod(HourOfWeek(d, s.hour) - 1, 168)
  {
    hide Shown, NoRepeats, Ascending, Mod, DayBack, HourOfWeek;
    HourComesBack(s, offset);
    DaysComeBack(s, offset);
    OneHourEarlier(d, s.hour, offset);
  }

  lemma OneHourEarlier(d: int, hour: int, offset: int)
    requires 0 <= d <= 6 && 0 <= hour < 24 && offset % 60 != 0
    ensures HourOfWeek(DayBack(d, hour, offset), Mod(HourBack(hour, offset), 24)) == Mod(HourOfWeek(d, hour) - 1, 168)
  {
    hide Mod, HourOfWeek;
    assert HourBack(hour, offset) == hour - 1;
    if hour == 0 {
      BeforeMidnight(d);
    } else {
      SameDay(d, hour);
    }
  }

  lemma BeforeMidnight(d: int)
    requires 0 <= d <= 6
    ensures HourOfWeek(Mod(d + (0 - 1) / 24, 7), Mod(0 - 1, 24)) == Mod(HourOfWeek(d, 0) - 1, 168)
  {
    assert (0 - 1) / 24 == 0 - 1 && Mod(0 - 1, 24) == 23;
    assert Mod(d - 1, 7) == if d == 0 then 6 else d - 1;
  }

  lemma SameDay(d: int, hour: int)
    requires 0 <= d <= 6 && 0 < hour < 24
    ensures HourOfWeek(Mod(d + (hour - 1) / 24, 7), Mod(hour - 1, 24)) == Mod(HourOfWeek(d, hour) - 1, 168)
  {
    assert (hour - 1) / 24 == 0 && Mod(d, 7) == d;
  }

  /** No day chosen comes back as every day. */
  lemma NoDayComesBackAsEveryDay(hour: int, offset: int)
    requires 0 <= hour < 24
    ensures Shown(Schedule(hour, []), offset).days == EVERY_DAY
  {
    hide Ascending, NoRepeats, Mod, Sorted, Shifted;
    var u := LocalToUtc(Schedule(hour, []), offset);
    SentIsInRange(Schedule(hour, []), offset) by {
      NothingRepeats();
    }
    var b := (u.hour * 60 - offset) / 1440;
    AscendingEveryDay();
    AscendingHasNoRepeats(EVERY_DAY);
    ShiftedHasNoRepeats(EVERY_DAY, b);
    SortedOnce(Shifted(EVERY_DAY, b));
    forall e
      ensures e in Sorted(Shifted(EVERY_DAY, b)) <==> e in EVERY_DAY
    {
      InShifted(EVERY_DAY, b, e);
      if e in EVERY_DAY {
        ModIsADay(e, b);
      }
    }
    SameAscending(Sorted(Shifted(EVERY_DAY, b)), EVERY_DAY);
  }

  lemma ModIsADay(e: int, b: int)
    requires e in EVERY_DAY
    ensures Mod(e - b, 7) in EVERY_DAY && Mod(Mod(e - b, 7) + b, 7) == e
  {
    ShiftTwice(e, 0 - b, b);
  }

  lemma NothingRepeats()
    ensures NoRepeats([])
  {
  }

  lemma AscendingEveryDay()
    ensures Ascending(EVERY_DAY)
  {
  }

  // ----- which moments are meant -----

  /** An hour of the week sent to UTC is that hour later by the offset, whole hours counted, around the week. */
  lemma MomentSent(d: int, hour: int, offset: int)
    requires 0 <= d <= 6 && 0 <= hour < 24
    ensures var total := hour * 60 + offset;
            HourOfWeek(Mod(d + total / 1440, 7), Mod(total / 60, 24)) == Mod((HourOfWeek(d, hour) * 60 + offset) / 60, 168)
  {
    var total := hour * 60 + offset;
    var h, days := total / 60, total / 1440;
    HourOfMinutes(h, total - 60 * h);
    assert h / 24 == days;
    LaterInWeek(d, hour, offset);
    AroundTheWeek(24 * d + h, d + days, h - 24 * days);
  }

  lemma LaterInWeek(d: int, hour: int, offset: int)
    requires 0 <= d <= 6 && 0 <= hour < 24
    ensures (HourOfWeek(d, hour) * 60 + offset) / 60 == 24 * d + (hour * 60 + offset) / 60
  {
    var total := hour * 60 + offset;
    var h := total / 60;
    assert HourOfWeek(d, hour) * 60 + offset == (24 * d + h) * 60 + (total - 60 * h);
    HourOfMinutes(24 * d + h, total - 60 * h);
  }

  lemma AroundTheWeek(n: int, days: int, hour: int)
    requires n == 24 * days + hour && 0 <= hour < 24
    ensures Mod(n, 168) == 24 * Mod(days, 7) + hour && Mod(n, 24) == hour
  {
    var weeks := days / 7;
    assert days == 7 * weeks + days % 7;
    assert n == 168 * weeks + (24 * (days % 7) + hour);
  }

  /** One hour of the week is another moved by the offset, in minutes, and cut to the hour. */
  predicate IsSent(d: int, hour: int, e: int, utcHour: int, offset: int) {
    HourOfWeek(e, utcHour) == Mod((HourOfWeek(d, hour) * 60 + offset) / 60, 168)
  }

  /** The schedule in UTC is at exactly the moments chosen, and the one in local time at exactly those stored. */
  lemma MomentsAreSent(s: Schedule, offset: int, e: int)
    requires IsLocal(s)
    ensures var u := LocalToUtc(s, offset);
            && 0 <= u.hour < 24
            && (e in u.days ==> 0 <= e <= 6)
            && (0 <= e <= 6 ==> (e in u.days <==> exists d :: d in s.days && IsSent(d, s.hour, e, u.hour, offset)))
    ensures UtcToLocal(s, offset) == LocalToUtc(s, 0 - offset)
  {
    hide HourOfWeek, Mod, Sorted;
    var u, total := LocalToUtc(s, offset), s.hour * 60 + offset;
    ShiftedHasNoRepeats(s.days, total / 1440);
    SortedOnce(Shifted(s.days, total / 1440));
    InShifted(s.days, total / 1440, e);
    forall d | d in s.days
      ensures 0 <= e <= 6 ==> (IsSent(d, s.hour, e, u.hour, offset) <==> e == Mod(d + total / 1440, 7))
    {
      MomentSent(d, s.hour, offset);
      if 0 <= e <= 6 {
        SameHourSameDay(e, Mod(d + total / 1440, 7), u.hour);
      }
    }
  }

  lemma SameHourSameDay(a: int, b: int, hour: int)
    requires 0 <= a <= 6 && 0 <= b <= 6 && 0 <= hour < 24
    ensures HourOfWeek(a, hour) == HourOfWeek(b, hour) <==> a == b
  {
  }
}
