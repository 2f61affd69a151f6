/** Every question to the model: counted, stamped, purged behind, logged, and only then sent (server/internal/ai/gateway.go). */
module AiGateway {
  import Intervals

  /** A row of the send log of one user; times in milliseconds. */
  datatype Row = Row(stamp: int, confirmed: bool)

  /** How far a call has come. */
  datatype Phase = Counted | Stamped(at: int) | Purged(at: int) | Logged(row: int)

  datatype Process = Process(confirmed: bool, phase: Phase)

  /** `written` is every row there ever was, `requests` the rows whose question went to the provider. */
  datatype State = State(clock: int, log: map<int, Row>, next: int, running: map<int, Process>,
                         written: map<int, Row>, requests: set<int>)

  /** What can happen next: time passes, or a call takes its next step, or ends with an error. */
  datatype Event =
    | Tick(span: nat) | Count(p: int, confirm: bool) | Stamp(p: int) | Purge(p: int) | Write(p: int) | Send(p: int) | Fail(p: int)

  const DAY: int := 86_400_000
  const KEPT: int := 90 * DAY

  /** The first instant of the month a time falls in. No month is longer than 31 days. */
  type Calendar = int -> int

  ghost predicate IsCalendar(start: Calendar) {
    && (forall t :: start(t) <= t < start(t) + 31 * DAY)
    && (forall t, u :: t <= u ==> start(t) <= start(u))
    && (forall t, u :: start(t) <= u <= t ==> start(u) == start(t))
  }

  function Since(log: map<int, Row>, from: int): set<int> {
    set i | i in log && log[i].stamp >= from
  }

  /** What the limit is compared with: all sends of the month, confirmed ones too. */
  function Used(s: State, start: Calendar): nat {
    |Since(s.log, start(s.clock))|
  }

  function Kept(log: map<int, Row>, cutoff: int): map<int, Row> {
    map i | i in log && log[i].stamp >= cutoff :: log[i]
  }

  predicate Refused(s: State, confirm: bool, limit: int, start: Calendar) {
    Used(s, start) >= limit && !confirm
  }

  predicate Enabled(s: State, e: Event) {
    match e
    case Tick(_) => true
    case Count(p, _) => p !in s.running
    case Stamp(p) => p in s.running && s.running[p].phase.Counted?
    case Purge(p) => p in s.running && s.running[p].phase.Stamped?
    case Write(p) => p in s.running && s.running[p].phase.Purged?
    case Send(p) => p in s.running && s.running[p].phase.Logged?
    case Fail(p) => p in s.running
  }

  function At(s: State, p: int, phase: Phase): State
    requires p in s.running
  {
    s.(running := s.running[p := s.running[p].(phase := phase)])
  }

  function Step(s: State, e: Event, limit: int, start: Calendar): State
    requires Enabled(s, e)
  {
    match e
    case Tick(span) => s.(clock := s.clock + span)
    case Count(p, confirm) =>
      if Refused(s, confirm, limit, start) then s else s.(running := s.running[p := Process(confirm, Counted)])
    case Stamp(p) => At(s, p, Stamped(s.clock))
    case Purge(p) =>
      var at := s.running[p].phase.at;
      At(s.(log := Kept(s.log, at - KEPT)), p, Purged(at))
    case Write(p) =>
      var row := Row(s.running[p].phase.at, s.running[p].confirmed);
      At(s.(log := s.log[s.next := row], written := s.written[s.next := row], next := s.next + 1), p, Logged(s.next))
    case Send(p) => s.(requests := s.requests + {s.running[p].phase.row}, running := s.running - {p})
    case Fail(p) => s.(running := s.running - {p})
  }

  ghost predicate Possible(s: State, es: seq<Event>, limit: int, start: Calendar)
    decreases es
  {
    es == [] || (Enabled(s, es[0]) && Possible(Step(s, es[0], limit, start), es[1..], limit, start))
  }

  function Run(s: State, es: seq<Event>, limit: int, start: Calendar): State
    requires Possible(s, es, limit, start)
    decreases es
  {
    if es == [] then s else Run(Step(s, es[0], limit, start), es[1..], limit, start)
  }

  // ----- the bound -----

  /** A call without confirmation between its count and its row. */
  predicate Waits(c: Process) {
    !c.confirmed && !c.phase.Logged?
  }

  function Waiting(s: State): set<int> {
    set p | p in s.running && Waits(s.running[p])
  }

  /** At no time more than k calls wait. */
  ghost predicate AtMostAtOnce(s: State, es: seq<Event>, k: nat, limit: int, start: Calendar)
    requires Possible(s, es, limit, start)
    decreases es
  {
    |Waiting(s)| <= k && (es == [] || AtMostAtOnce(Step(s, es[0], limit, start), es[1..], k, limit, start))
  }

  /** The month's sends without confirmation. */
  function Sent(s: State, month: int, start: Calendar): set<int> {
    set i | i in s.written && !s.written[i].confirmed && start(s.written[i].stamp) == month
  }

  /** The call's row may still be stamped in the month. */
  predicate MayCount(c: Process, clock: int, month: int, start: Calendar) {
    Waits(c) && (if c.phase.Counted? then start(clock) <= month else start(c.phase.at) == month)
  }

  function May(s: State, month: int, start: Calendar): set<int> {
    set p | p in s.running && MayCount(s.running[p], s.clock, month, start)
  }

  /** The clock is ahead of every stamp; only rows past their time are missing from the log. */
  ghost predicate Tidy(s: State) {
    && (forall i :: i in s.written ==> i < s.next && s.written[i].stamp <= s.clock)
    && (forall i :: i in s.log ==> i in s.written && s.written[i] == s.log[i])
    && (forall i :: i in s.written && s.written[i].stamp >= s.clock - KEPT ==> i in s.log)
    && (forall p :: p in s.running && (s.running[p].phase.Stamped? || s.running[p].phase.Purged?) ==>
          s.running[p].phase.at <= s.clock)
    && (forall p :: p in s.running && s.running[p].phase.Logged? ==> s.running[p].phase.row in s.written)
    && s.requests <= s.written.Keys
  }

  ghost predicate Within(s: State, month: int, bound: int, start: Calendar) {
    |Sent(s, month, start)| + |May(s, month, start)| <= bound
  }

  lemma StepIsTidy(s: State, e: Event, limit: int, start: Calendar)
    requires Tidy(s) && Enabled(s, e)
    ensures Tidy(Step(s, e, limit, start))
  {
    hide Refused;
  }

  /** This month's rows without confirmation are among those the limit is compared with. */
  lemma SentAreCounted(s: State, start: Calendar)
    requires Tidy(s) && IsCalendar(start)
    ensures |Sent(s, start(s.clock), start)| <= Used(s, start)
  {
    forall i | i in Sent(s, start(s.clock), start)
      ensures i in Since(s.log, start(s.clock))
    {
      assert start(s.written[i].stamp) <= s.written[i].stamp;
      assert s.clock < start(s.clock) + 31 * DAY;
    }
    Intervals.SubsetSize(Sent(s, start(s.clock), start), Since(s.log, start(s.clock)));
  }

  lemma NoneSentAhead(s: State, month: int, start: Calendar)
    requires Tidy(s) && IsCalendar(start) && start(s.clock) < month
    ensures Sent(s, month, start) == {}
  {
    forall i | i in s.written
      ensures start(s.written[i].stamp) <= start(s.clock)
    {
    }
  }

  lemma CountKeepsWithin(s: State, p: int, confirm: bool, month: int, k: nat, limit: int, start: Calendar)
    requires Tidy(s) && IsCalendar(start) && limit >= 1 && Enabled(s, Count(p, confirm))
    requires Within(s, month, limit + k - 1, start)
    requires |Waiting(Step(s, Count(p, confirm), limit, start))| <= k
    ensures Within(Step(s, Count(p, confirm), limit, start), month, limit + k - 1, start)
  {
    var next := Step(s, Count(p, confirm), limit, start);
    assert Sent(next, month, start) == Sent(s, month, start);
    if Refused(s, confirm, limit, start) {
    } else if confirm || month < start(s.clock) {
      assert May(next, month, start) == May(s, month, start);
    } else {
      assert forall q :: q in May(next, month, start) ==> q in Waiting(next);
      Intervals.SubsetSize(May(next, month, start), Waiting(next));
      if month == start(s.clock) {
        SentAreCounted(s, start);
      } else {
        NoneSentAhead(s, month, start);
      }
    }
  }

  lemma WriteTakesFromMay(s: State, p: int, month: int, limit: int, start: Calendar)
    requires Enabled(s, Write(p))
    ensures May(Step(s, Write(p), limit, start), month, start) == May(s, month, start) - {p}
    ensures p in May(s, month, start) <==> !s.running[p].confirmed && start(s.running[p].phase.at) == month
  {
    var next := Step(s, Write(p), limit, start);
    assert forall q :: q in next.running ==> next.running[q] == if q == p then next.running[p] else s.running[q];
    assert forall q :: q in May(next, month, start) <==> q in May(s, month, start) - {p};
  }

  lemma WriteAddsToSent(s: State, p: int, month: int, limit: int, start: Calendar)
    requires Tidy(s) && Enabled(s, Write(p))
    ensures s.next !in Sent(s, month, start)
    ensures Sent(Step(s, Write(p), limit, start), month, start)
            == Sent(s, month, start)
               + if !s.running[p].confirmed && start(s.running[p].phase.at) == month then {s.next} else {}
  {
    hide Kept;
    var next := Step(s, Write(p), limit, start);
    assert forall i :: i in s.written ==> next.written[i] == s.written[i];
  }

  lemma WriteKeepsWithin(s: State, p: int, month: int, bound: int, limit: int, start: Calendar)
    requires Tidy(s) && Enabled(s, Write(p)) && Within(s, month, bound, start)
    ensures Within(Step(s, Write(p), limit, start), month, bound, start)
  {
    hide Tidy, Step, May, Sent;
    WriteTakesFromMay(s, p, month, limit, start);
    WriteAddsToSent(s, p, month, limit, start);
  }

  lemma OtherKeepsWithin(s: State, e: Event, month: int, bound: int, limit: int, start: Calendar)
    requires IsCalendar(start) && Enabled(s, e) && !e.Count? && !e.Write? && Within(s, month, bound, start)
    ensures Within(Step(s, e, limit, start), month, bound, start)
  {
    var next := Step(s, e, limit, start);
    assert e.Tick? ==> start(s.clock) <= start(next.clock);
    assert Sent(next, month, start) == Sent(s, month, start);
    forall q | q in May(next, month, start)
      ensures q in May(s, month, start)
    {
    }
    Intervals.SubsetSize(May(next, month, start), May(s, month, start));
  }

  lemma StepKeepsWithin(s: State, e: Event, month: int, k: nat, limit: int, start: Calendar)
    requires Tidy(s) && IsCalendar(start) && limit >= 1 && Enabled(s, e)
    requires Within(s, month, limit + k - 1, start) && |Waiting(Step(s, e, limit, start))| <= k
    ensures Within(Step(s, e, limit, start), month, limit + k - 1, start)
  {
    hide Step, Within, Tidy, IsCalendar, Waiting;
    match e
    case Count(p, confirm) => CountKeepsWithin(s, p, confirm, month, k, limit, start);
    case Write(p) => WriteKeepsWithin(s, p, month, limit + k - 1, limit, start);
    case _ => OtherKeepsWithin(s, e, month, limit + k - 1, limit, start);
  }

  lemma {:induction false} RunKeepsWithin(s: State, es: seq<Event>, month: int, k: nat, limit: int, start: Calendar)
    requires Tidy(s) && IsCalendar(start) && limit >= 1 && Within(s, month, limit + k - 1, start)
    requires Possible(s, es, limit, start) && AtMostAtOnce(s, es, k, limit, start)
    ensures Tidy(Run(s, es, limit, start)) && Within(Run(s, es, limit, start), month, limit + k - 1, start)
    decreases es
  {
    hide Tidy, Within, IsCalendar, Step, Waiting;
    if es != [] {
      StepIsTidy(s, es[0], limit, start);
      assert |Waiting(Step(s, es[0], limit, start))| <= k;
      StepKeepsWithin(s, es[0], month, k, limit, start);
      RunKeepsWithin(Step(s, es[0], limit, start), es[1..], month, k, limit, start);
    }
  }

  function Fresh(clock: int): State {
    State(clock, map[], 0, map[], map[], {})
  }

  /**
   * However the calls interleave, with at most k of them between count and row, no month gets more than limit + k - 1
   * sends without confirmation, and each request to the provider has its row written.
   */
  lemma NeverMuchOverTheLimit(clock: int, es: seq<Event>, month: int, k: nat, limit: int, start: Calendar)
    requires IsCalendar(start) && limit >= 1
    requires Possible(Fresh(clock), es, limit, start) && AtMostAtOnce(Fresh(clock), es, k, limit, start)
    ensures var after := Run(Fresh(clock), es, limit, start);
            && |Sent(after, month, start)| <= limit + k - 1
            && after.requests <= after.written.Keys
  {
    assert Waiting(Fresh(clock)) == {};
    assert Sent(Fresh(clock), month, start) == {} && May(Fresh(clock), month, start) == {};
    RunKeepsWithin(Fresh(clock), es, month, k, limit, start);
  }

  /** The rows ever written that were stamped in the month the clock is in. */
  function WrittenThisMonth(s: State, start: Calendar): set<int> {
    set i | i in s.written && start(s.written[i].stamp) == start(s.clock)
  }

  /** A call is refused exactly when it is not confirmed and the rows written this month number the limit or more. */
  lemma RefusedExactly(s: State, confirm: bool, limit: int, start: Calendar)
    requires Tidy(s) && IsCalendar(start)
    ensures Refused(s, confirm, limit, start) <==> !confirm && |WrittenThisMonth(s, start)| >= limit
  {
    var from := start(s.clock);
    forall i
      ensures i in Since(s.log, from) <==> i in WrittenThisMonth(s, start)
    {
      if i in s.written {
        StampsOfMonth(s.written[i].stamp, s.clock, start);
      }
    }
    assert Since(s.log, from) == WrittenThisMonth(s, start);
  }

  lemma StampsOfMonth(stamp: int, clock: int, start: Calendar)
    requires IsCalendar(start) && stamp <= clock
    ensures stamp >= start(clock) <==> start(stamp) == start(clock)
    ensures stamp >= start(clock) ==> stamp >= clock - KEPT
  {
    assert start(stamp) <= stamp && clock < start(clock) + 31 * DAY;
  }

  /** What was sent in months before never refuses a call. */
  lemma MonthsBeforeRefuseNothing(s: State, confirm: bool, limit: int, start: Calendar)
    requires Tidy(s) && IsCalendar(start) && limit >= 1
    requires forall i :: i in s.written ==> start(s.written[i].stamp) < start(s.clock)
    ensures !Refused(s, confirm, limit, start)
  {
    RefusedExactly(s, confirm, limit, start);
    forall i
      ensures i !in WrittenThisMonth(s, start)
    {
      if i in s.written {
        assert start(s.written[i].stamp) < start(s.clock);
      }
    }
    assert WrittenThisMonth(s, start) == {};
  }

  /** After a purge the log has the rows written in the ninety days up to the stamp, and of those before it none it had. */
  lemma PurgedExactly(s: State, p: int, limit: int, start: Calendar)
    requires Tidy(s) && Enabled(s, Purge(p))
    ensures var after, at := Step(s, Purge(p), limit, start), s.running[p].phase.at;
            && (forall i :: i in after.log <==> i in s.log && s.log[i].stamp >= at - 7_776_000_000)
            && (forall i :: i in after.log ==> after.log[i] == s.written[i])
            && (forall i :: i in s.written && s.written[i].stamp >= s.clock - 7_776_000_000 ==> i in after.log)
  {
  }

  /** The purge never takes a row of the month that is being counted. */
  lemma PurgeKeepsTheCount(s: State, p: int, limit: int, start: Calendar)
    requires Tidy(s) && IsCalendar(start) && Enabled(s, Purge(p))
    ensures Used(Step(s, Purge(p), limit, start), start) == Used(s, start)
  {
    var next := Step(s, Purge(p), limit, start);
    assert s.clock < start(s.clock) + 31 * DAY;
    assert Since(next.log, start(s.clock)) == Since(s.log, start(s.clock));
  }

  // ----- one call after the other -----

  datatype Answer = Text | ErrLimit | NotAllowed | Broken

  /** Where a call breaks off with an error, if it does. */
  datatype Trouble = Nowhere | AtCount | AtPurge | AtWrite | AtProvider

  /** The steps of a call that nothing interrupts. The provider fails only after it was asked. */
  function Steps(p: int, confirm: bool, wait: nat, trouble: Trouble): seq<Event> {
    match trouble
    case AtCount => []
    case AtPurge => [Count(p, confirm), Tick(wait), Stamp(p), Fail(p)]
    case AtWrite => [Count(p, confirm), Tick(wait), Stamp(p), Purge(p), Fail(p)]
    case _ => [Count(p, confirm), Tick(wait), Stamp(p), Purge(p), Write(p), Send(p)]
  }

  /** What the steps leave. */
  function Left(s: State, confirm: bool, wait: nat, trouble: Trouble): State {
    var now := s.clock + wait;
    match trouble
    case AtCount => s
    case AtPurge => s.(clock := now)
    case AtWrite => s.(clock := now, log := Kept(s.log, now - KEPT))
    case _ =>
      State(now, Kept(s.log, now - KEPT)[s.next := Row(now, confirm)], s.next + 1, s.running,
            s.written[s.next := Row(now, confirm)], s.requests + {s.next})
  }

  class Gateway {
    var clock: int
    var log: map<int, Row>
    var next: int
    ghost var written: map<int, Row>
    var requests: set<int>
    const limit: int
    const start: Calendar

    ghost function Now(): State
      reads this
    {
      State(clock, log, next, map[], written, requests)
    }

    /** `wait` is how long hiding the numbers takes. */
    method Ask(allowed: bool, confirm: bool, wait: nat, trouble: Trouble) returns (r: Answer)
      modifies this
      ensures if !allowed then r == NotAllowed && Now() == old(Now())
              else if trouble.AtCount? then r == Broken && Now() == old(Now())
              else if Refused(old(Now()), confirm, limit, start) then r == ErrLimit && Now() == old(Now())
              else
                && r == (if trouble.Nowhere? then Text else Broken)
                && Possible(old(Now()), Steps(0, confirm, wait, trouble), limit, start)
                && Now() == Run(old(Now()), Steps(0, confirm, wait, trouble), limit, start)
    {
      hide Run, Possible, Steps, Left, Since, Refused;
      if !allowed {
        return NotAllowed;
      }
      if trouble.AtCount? {
        return Broken;
      }
      RefusedMeans(Now(), confirm, limit, start);
      var from := start(clock);
      var used := |Since(log, from)|;
      if used >= limit && !confirm {
        return ErrLimit;
      }
      StepsLeave(Now(), confirm, wait, trouble, limit, start);
      r := LogAndSend(confirm, wait, trouble);
    }

    /** Stamped by the clock that purges, the row is in the log before the question goes out. */
    method LogAndSend(confirm: bool, wait: nat, trouble: Trouble) returns (r: Answer)
      requires !trouble.AtCount?
      modifies this
      ensures Now() == Left(old(Now()), confirm, wait, trouble)
      ensures r == if trouble.Nowhere? then Text else Broken
    {
      hide Kept;
      clock := clock + wait;
      var now := clock;
      if trouble.AtPurge? {
        return Broken;
      }
      log := Kept(log, now - KEPT);
      if trouble.AtWrite? {
        return Broken;
      }
      var id := next;
      log, next := log[id := Row(now, confirm)], next + 1;
      written := written[id := Row(now, confirm)];
      requests := requests + {id};
      r := if trouble.Nowhere? then Text else Broken;
    }
  }

  lemma RefusedMeans(s: State, confirm: bool, limit: int, start: Calendar)
    ensures Refused(s, confirm, limit, start) <==> |Since(s.log, start(s.clock))| >= limit && !confirm
  {
  }

  /** The first three steps: counted, some time later, stamped. */
  lemma Stamping(s: State, confirm: bool, wait: nat, es: seq<Event>, limit: int, start: Calendar) returns (t: State)
    requires s.running == map[] && !Refused(s, confirm, limit, start)
    ensures t == s.(clock := s.clock + wait, running := map[0 := Process(confirm, Stamped(s.clock + wait))])
    ensures Possible(t, es, limit, start) ==>
              && Possible(s, [Count(0, confirm), Tick(wait), Stamp(0)] + es, limit, start)
              && Run(s, [Count(0, confirm), Tick(wait), Stamp(0)] + es, limit, start) == Run(t, es, limit, start)
  {
    hide Refused, Run, Possible;
    var s1 := Step(s, Count(0, confirm), limit, start);
    var s2 := Step(s1, Tick(wait), limit, start);
    t := Step(s2, Stamp(0), limit, start);
    if Possible(t, es, limit, start) {
      RunStep(s2, Stamp(0), es, limit, start);
      RunStep(s1, Tick(wait), [Stamp(0)] + es, limit, start);
      RunStep(s, Count(0, confirm), [Tick(wait)] + ([Stamp(0)] + es), limit, start);
      assert [Count(0, confirm), Tick(wait), Stamp(0)] + es == [Count(0, confirm)] + ([Tick(wait)] + ([Stamp(0)] + es));
    }
  }

  lemma Purging(t: State, limit: int, start: Calendar) returns (u: State)
    requires t.running.Keys == {0} && t.running[0].phase.Stamped?
    ensures Enabled(t, Purge(0)) && u == Step(t, Purge(0), limit, start)
    ensures u == t.(log := Kept(t.log, t.running[0].phase.at - KEPT), running := map[0 := Process(t.running[0].confirmed, Purged(t.running[0].phase.at))])
  {
    hide Kept;
    u := Step(t, Purge(0), limit, start);
  }

  lemma Ending(t: State, limit: int, start: Calendar)
    requires t.running.Keys == {0}
    ensures Possible(t, [Fail(0)], limit, start) && Run(t, [Fail(0)], limit, start) == t.(running := map[])
  {
    RunNothing(Step(t, Fail(0), limit, start), limit, start);
    RunStep(t, Fail(0), [], limit, start);
    assert t.running - {0} == map[];
  }

  lemma Sending(u: State, limit: int, start: Calendar)
    requires u.running.Keys == {0} && u.running[0].phase.Purged?
    ensures var row := Row(u.running[0].phase.at, u.running[0].confirmed);
            && Possible(u, [Write(0), Send(0)], limit, start)
            && Run(u, [Write(0), Send(0)], limit, start)
               == State(u.clock, u.log[u.next := row], u.next + 1, map[], u.written[u.next := row], u.requests + {u.next})
  {
    hide Run, Possible;
    var v := Step(u, Write(0), limit, start);
    var w := Step(v, Send(0), limit, start);
    RunNothing(w, limit, start);
    RunStep(v, Send(0), [], limit, start);
    assert [Write(0), Send(0)] == [Write(0)] + [Send(0)] && [Send(0)] + [] == [Send(0)];
    RunStep(u, Write(0), [Send(0)], limit, start);
    assert w.running == map[];
  }

  lemma StepsLeave(s: State, confirm: bool, wait: nat, trouble: Trouble, limit: int, start: Calendar)
    requires s.running == map[] && !Refused(s, confirm, limit, start)
    ensures Possible(s, Steps(0, confirm, wait, trouble), limit, start)
    ensures Run(s, Steps(0, confirm, wait, trouble), limit, start) == Left(s, confirm, wait, trouble)
  {
    hide Refused, Run, Possible, Kept, Step, Enabled;
    var es := Steps(0, confirm, wait, trouble);
    if trouble.AtCount? {
      RunNothing(s, limit, start);
    } else {
      var t := Stamping(s, confirm, wait, es[3..], limit, start);
      assert es == [Count(0, confirm), Tick(wait), Stamp(0)] + es[3..];
      if trouble.AtPurge? {
        assert es[3..] == [Fail(0)];
        Ending(t, limit, start);
      } else {
        var u := Purging(t, limit, start);
        if trouble.AtWrite? {
          Ending(u, limit, start);
          RunStep(t, Purge(0), [Fail(0)], limit, start);
          assert es[3..] == [Purge(0)] + [Fail(0)];
        } else {
          Sending(u, limit, start);
          RunStep(t, Purge(0), [Write(0), Send(0)], limit, start);
          assert es[3..] == [Purge(0)] + [Write(0), Send(0)];
        }
      }
    }
  }

  lemma RunNothing(s: State, limit: int, start: Calendar)
    ensures Possible(s, [], limit, start) && Run(s, [], limit, start) == s
  {
  }

  lemma RunStep(s: State, e: Event, es: seq<Event>, limit: int, start: Calendar)
    requires Enabled(s, e) && Possible(Step(s, e, limit, start), es, limit, start)
    ensures Possible(s, [e] + es, limit, start)
    ensures Run(s, [e] + es, limit, start) == Run(Step(s, e, limit, start), es, limit, start)
  {
    assert ([e] + es)[1..] == es;
  }

  /**
   * A call that is let in and meets no trouble before the provider leaves one more row, stamped when the numbers were
   * hidden, marked as confirmed or not, and asked of the provider; rows of the ninety days before stay, older ones go.
   */
  lemma AskedOnce(s: State, confirm: bool, wait: nat, trouble: Trouble, limit: int, start: Calendar)
    requires s.running == map[] && !Refused(s, confirm, limit, start) && (trouble == Nowhere || trouble == AtProvider)
    ensures Possible(s, Steps(0, confirm, wait, trouble), limit, start)
    ensures var after := Run(s, Steps(0, confirm, wait, trouble), limit, start);
            && after.clock == s.clock + wait && after.requests == s.requests + {s.next}
            && s.next in after.log && after.log[s.next] == Row(s.clock + wait, confirm)
            && s.next in after.written && after.written[s.next] == Row(s.clock + wait, confirm)
            && forall i :: i != s.next ==>
                 && (i in after.log <==> i in s.log && s.log[i].stamp >= s.clock + wait - 7_776_000_000)
                 && (i in after.log ==> after.log[i] == s.log[i])
                 && (i in after.written <==> i in s.written) && (i in s.written ==> after.written[i] == s.written[i])
  {
    hide Run, Possible, Steps, Refused;
    StepsLeave(s, confirm, wait, trouble, limit, start);
  }

  /** One that breaks off before the provider is asked leaves no row and no request. */
  lemma BrokenOff(s: State, confirm: bool, wait: nat, trouble: Trouble, limit: int, start: Calendar)
    requires s.running == map[] && !Refused(s, confirm, limit, start) && trouble in {AtCount, AtPurge, AtWrite}
    ensures Possible(s, Steps(0, confirm, wait, trouble), limit, start)
    ensures var after := Run(s, Steps(0, confirm, wait, trouble), limit, start);
            after.requests == s.requests && after.written == s.written && after.log.Keys <= s.log.Keys
  {
    hide Run, Possible, Steps, Refused;
    StepsLeave(s, confirm, wait, trouble, limit, start);
  }
}
