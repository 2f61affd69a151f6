/** The failed-login limiter: a fixed window per key, with garbage collection (server/internal/auth/ratelimit.go). */
module LoginLimiter {
  import opened Options
  import Intervals

  datatype Window = Window(count: nat, start: int)

  datatype Config = Config(window: int, maxAttempts: int, gcEvery: int)

  /** lastGC None is the zero time, further back than any interval. */
  datatype State = State(hits: map<string, Window>, lastGC: Option<int>)

  // ----- what each call does to the state -----

  predicate Expired(w: Window, now: int, cfg: Config) {
    now - w.start >= cfg.window
  }

  predicate Allowed(s: State, key: string, now: int, cfg: Config) {
    key !in s.hits || Expired(s.hits[key], now, cfg) || s.hits[key].count < cfg.maxAttempts
  }

  function AfterAllow(s: State, key: string, now: int, cfg: Config): State {
    if key in s.hits && Expired(s.hits[key], now, cfg) then s.(hits := s.hits - {key}) else s
  }

  function Live(hits: map<string, Window>, now: int, cfg: Config): map<string, Window> {
    map k | k in hits && !Expired(hits[k], now, cfg) :: hits[k]
  }

  function AfterGC(s: State, now: int, cfg: Config): State {
    if s.lastGC.Some? && now - s.lastGC.value < cfg.gcEvery then s
    else State(Live(s.hits, now, cfg), Some(now))
  }

  function Counted(s: State, key: string, now: int, cfg: Config): Window {
    if key in s.hits && !Expired(s.hits[key], now, cfg)
    then Window(s.hits[key].count + 1, s.hits[key].start)
    else Window(1, now)
  }

  function AfterRecord(s: State, key: string, gcNow: int, now: int, cfg: Config): State {
    var c := AfterGC(s, gcNow, cfg);
    c.(hits := c.hits[key := Counted(c, key, now, cfg)])
  }

  class RateLimiter {
    const cfg: Config
    var hits: map<string, Window>
    var lastGC: Option<int>

    constructor (cfg: Config)
      ensures this.cfg == cfg && Abstract() == State(map[], None)
    {
      this.cfg := cfg;
      hits := map[];
      lastGC := None;
    }

    ghost function Abstract(): State
      reads this
    {
      State(hits, lastGC)
    }

    method Allow(key: string, now: int) returns (ok: bool)
      modifies this
      ensures ok == old(Allowed(Abstract(), key, now, cfg))
      ensures Abstract() == old(AfterAllow(Abstract(), key, now, cfg))
    {
      if key !in hits {
        return true;
      }
      var w := hits[key];
      if now - w.start >= cfg.window {
        hits := hits - {key};
        return true;
      }
      ok := w.count < cfg.maxAttempts;
    }

    /** The clock is read twice: once to collect, once to count. */
    method Record(key: string, gcNow: int, now: int)
      modifies this
      ensures Abstract() == old(AfterRecord(Abstract(), key, gcNow, now, cfg))
    {
      GcLocked(gcNow);
      if key !in hits || now - hits[key].start >= cfg.window {
        hits := hits[key := Window(1, now)];
        return;
      }
      hits := hits[key := Window(hits[key].count + 1, hits[key].start)];
    }

    method Reset(key: string)
      modifies this
      ensures Abstract() == old(Abstract()).(hits := old(hits) - {key})
    {
      hits := hits - {key};
    }

    method GcLocked(now: int)
      modifies this
      ensures Abstract() == old(AfterGC(Abstract(), now, cfg))
      ensures if old(lastGC).Some? && now - old(lastGC).value < cfg.gcEvery then hits == old(hits) && lastGC == old(lastGC)
              else
                && lastGC == Some(now)
                && (forall k :: k in hits <==> k in old(hits) && now - old(hits)[k].start < cfg.window)
                && (forall k :: k in hits ==> hits[k] == old(hits)[k])
    {
      if lastGC.Some? && now - lastGC.value < cfg.gcEvery {
        return;
      }
      lastGC := Some(now);
      var keys := hits.Keys;
      while keys != {}
        invariant keys <= old(hits).Keys && lastGC == Some(now)
        invariant hits == map k | k in old(hits) && (k in keys || !Expired(old(hits)[k], now, cfg)) :: old(hits)[k]
        decreases keys
      {
        var k :| k in keys;
        if now - hits[k].start >= cfg.window {
          hits := hits - {k};
        }
        keys := keys - {k};
      }
    }
  }

  // ----- runs -----

  /** The calls, and an attempt that ends without one: it neither failed nor succeeded. */
  datatype Op = Allow(key: string, now: int) | Record(key: string, gcNow: int, now: int) | Reset(key: string) | Leave(key: string)

  /** One call; `gc` says whether the limiter collects its expired windows. */
  function Step(s: State, op: Op, cfg: Config, gc: bool): State {
    match op
    case Allow(key, now) => AfterAllow(s, key, now, cfg)
    case Record(key, gcNow, now) =>
      if gc then AfterRecord(s, key, gcNow, now, cfg)
      else s.(hits := s.hits[key := Counted(s, key, now, cfg)])
    case Reset(key) => s.(hits := s.hits - {key})
    case Leave(_) => s
  }

  function Answer(s: State, op: Op, cfg: Config): bool {
    op.Allow? && Allowed(s, op.key, op.now, cfg)
  }

  function Answers(s: State, ops: seq<Op>, cfg: Config, gc: bool): seq<bool>
    decreases ops
  {
    if ops == [] then [] else [Answer(s, ops[0], cfg)] + Answers(Step(s, ops[0], cfg, gc), ops[1..], cfg, gc)
  }

  /** The clock after a call, never before `clock`. */
  function Clock(op: Op, clock: int): int {
    match op
    case Allow(_, now) => now
    case Record(_, _, now) => now
    case _ => clock
  }

  predicate Onward(op: Op, clock: int) {
    match op
    case Allow(_, now) => clock <= now
    case Record(_, gcNow, now) => clock <= gcNow <= now
    case _ => true
  }

  predicate MonotoneClock(ops: seq<Op>, clock: int)
    decreases ops
  {
    ops == [] || (Onward(ops[0], clock) && MonotoneClock(ops[1..], Clock(ops[0], clock)))
  }

  // ----- garbage collection cannot be seen -----

  /** What the collecting limiter lacks is expired in the other one. */
  ghost predicate Related(collected: State, full: State, clock: int, cfg: Config) {
    && (forall k :: k in collected.hits ==> k in full.hits && collected.hits[k] == full.hits[k])
    && (forall k :: k in full.hits && k !in collected.hits ==> Expired(full.hits[k], clock, cfg))
  }

  lemma {:induction false} CollectionIsInvisible(a: State, b: State, ops: seq<Op>, clock: int, cfg: Config)
    requires Related(a, b, clock, cfg) && MonotoneClock(ops, clock)
    ensures Answers(a, ops, cfg, true) == Answers(b, ops, cfg, false)
    decreases ops
  {
    if ops != [] {
      CollectionIsInvisible(Step(a, ops[0], cfg, true), Step(b, ops[0], cfg, false), ops[1..], Clock(ops[0], clock), cfg);
    }
  }

  /** From the start, the limiter answers every sequence of calls as one that never collects. */
  lemma GCAnswersTheSame(ops: seq<Op>, clock: int, cfg: Config)
    requires MonotoneClock(ops, clock)
    ensures var s := State(map[], None);
            Answers(s, ops, cfg, true) == Answers(s, ops, cfg, false)
  {
    CollectionIsInvisible(State(map[], None), State(map[], None), ops, clock, cfg);
  }

  // ----- how many failures one interval can hold -----

  /** One failure of the key: when, and the window it fell in with its place there. */
  datatype Failure = Failure(time: int, start: int, place: nat)

  /** The limiter followed for one key: the attempts let in that are still under way, and the failures since a reset. */
  datatype Track = Track(state: State, pending: nat, failures: seq<Failure>)

  const Start := Track(State(map[], None), 0, [])

  function Ended(pending: nat): nat {
    if pending == 0 then 0 else pending - 1
  }

  function Follow(t: Track, op: Op, key: string, cfg: Config): Track {
    var s := Step(t.state, op, cfg, true);
    if op.key != key then t.(state := s)
    else match op
      case Allow(_, now) => Track(s, if Allowed(t.state, key, now, cfg) then t.pending + 1 else t.pending, t.failures)
      case Record(_, _, now) =>
        Track(s, Ended(t.pending), t.failures + [Failure(now, s.hits[key].start, s.hits[key].count)])
      case Reset(_) => Track(s, Ended(t.pending), [])
      case Leave(_) => Track(s, Ended(t.pending), t.failures)
  }

  function Run(t: Track, ops: seq<Op>, key: string, cfg: Config): Track
    decreases ops
  {
    if ops == [] then t else Run(Follow(t, ops[0], key, cfg), ops[1..], key, cfg)
  }

  /** Each failure is that of an attempt that was let in, and at most k of the key's attempts are under way at once. */
  predicate Disciplined(t: Track, ops: seq<Op>, key: string, k: nat, cfg: Config)
    decreases ops
  {
    ops == [] ||
    ((ops[0].Record? && ops[0].key == key ==> t.pending > 0)
     && Follow(t, ops[0], key, cfg).pending <= k
     && Disciplined(Follow(t, ops[0], key, cfg), ops[1..], key, k, cfg))
  }

  /** The failures a window can hold when k attempts can be under way at once. */
  function Most(k: nat, cfg: Config): nat
    requires k >= 1
  {
    (if cfg.maxAttempts < 1 then 1 else cfg.maxAttempts) + k - 1
  }

  /** The clock after all the calls. */
  function End(ops: seq<Op>, clock: int): int
    decreases ops
  {
    if ops == [] then clock else End(ops[1..], Clock(ops[0], clock))
  }

  /** The failures fall into windows of at most `Most` each, the windows' starts a window apart. */
  ghost predicate Windows(fs: seq<Failure>, k: nat, cfg: Config)
    requires k >= 1
  {
    && (forall i :: 0 <= i < |fs| ==>
          && 1 <= fs[i].place <= Most(k, cfg) && fs[i].start <= fs[i].time
          && (fs[i].place == 1 ==> fs[i].time == fs[i].start))
    && (forall i, j :: 0 <= i <= j < |fs| ==> fs[i].time <= fs[j].time)
    && (forall i :: 0 < i < |fs| ==>
          if fs[i].place == 1 then fs[i].start >= fs[i - 1].start + cfg.window
          else fs[i].place == fs[i - 1].place + 1 && fs[i].start == fs[i - 1].start)
  }

  ghost predicate Inv(t: Track, key: string, clock: int, k: nat, cfg: Config)
    requires k >= 1
  {
    && Windows(t.failures, k, cfg)
    && (t.failures != [] ==>
          var last := t.failures[|t.failures| - 1];
          && last.time <= clock
          && (if key in t.state.hits then t.state.hits[key] == Window(last.place, last.start)
              else last.start + cfg.window <= clock))
    && (t.failures == [] ==> key !in t.state.hits)
    && t.pending <= k && (key in t.state.hits ==> t.state.hits[key].count + t.pending <= Most(k, cfg))
  }

  lemma OneMoreFailure(fs: seq<Failure>, f: Failure, k: nat, cfg: Config)
    requires k >= 1
    requires Windows(fs, k, cfg) && 1 <= f.place <= Most(k, cfg) && f.start <= f.time
    requires f.place == 1 ==> f.time == f.start
    requires fs != [] ==>
               var last := fs[|fs| - 1];
               && last.time <= f.time
               && (if f.place == 1 then f.start >= last.start + cfg.window
                   else f.place == last.place + 1 && f.start == last.start)
    ensures Windows(fs + [f], k, cfg)
  {
    var gs := fs + [f];
    assert forall i :: 0 <= i < |fs| ==> gs[i] == fs[i];
    forall i, j | 0 <= i <= j < |gs|
      ensures gs[i].time <= gs[j].time
    {
      if i < |fs| && j == |fs| {
        assert fs[i].time <= fs[|fs| - 1].time;
      }
    }
  }

  lemma RecordKeepsInv(t: Track, gcNow: int, now: int, key: string, clock: int, k: nat, cfg: Config)
    requires k >= 1
    requires Inv(t, key, clock, k, cfg) && clock <= gcNow <= now && t.pending > 0
    ensures Inv(Follow(t, Record(key, gcNow, now), key, cfg), key, now, k, cfg)
  {
    var next := Follow(t, Record(key, gcNow, now), key, cfg);
    var f := next.failures[|t.failures|];
    assert next.failures == t.failures + [f];
    assert key in next.state.hits && next.state.hits[key] == Window(f.place, f.start) && f.time == now;
    OneMoreFailure(t.failures, f, k, cfg);
  }

  lemma OtherKeepsInv(t: Track, op: Op, key: string, clock: int, k: nat, cfg: Config)
    requires k >= 1
    requires Inv(t, key, clock, k, cfg) && Onward(op, clock)
    requires (op.key != key || op.Allow? || op.Leave?) && Follow(t, op, key, cfg).pending <= k
    ensures Inv(Follow(t, op, key, cfg), key, Clock(op, clock), k, cfg)
  {
    var next := Follow(t, op, key, cfg);
    assert next.failures == t.failures;
    assert key in next.state.hits ==> key in t.state.hits && next.state.hits[key] == t.state.hits[key];
    assert key in t.state.hits && key !in next.state.hits ==> t.state.hits[key].start + cfg.window <= Clock(op, clock);
  }

  lemma StepKeepsInv(t: Track, op: Op, key: string, clock: int, k: nat, cfg: Config)
    requires k >= 1
    requires Inv(t, key, clock, k, cfg) && Onward(op, clock)
    requires (op.Record? && op.key == key ==> t.pending > 0) && Follow(t, op, key, cfg).pending <= k
    ensures Inv(Follow(t, op, key, cfg), key, Clock(op, clock), k, cfg)
  {
    if op.key != key || op.Allow? || op.Leave? {
      OtherKeepsInv(t, op, key, clock, k, cfg);
    } else if op.Record? {
      RecordKeepsInv(t, op.gcNow, op.now, key, clock, k, cfg);
    }
  }

  lemma {:induction false} RunKeepsInv(t: Track, ops: seq<Op>, key: string, clock: int, k: nat, cfg: Config)
    requires k >= 1
    requires Inv(t, key, clock, k, cfg) && MonotoneClock(ops, clock) && Disciplined(t, ops, key, k, cfg)
    ensures Inv(Run(t, ops, key, cfg), key, End(ops, clock), k, cfg)
    decreases ops
  {
    if ops != [] {
      StepKeepsInv(t, ops[0], key, clock, k, cfg);
      RunKeepsInv(Follow(t, ops[0], key, cfg), ops[1..], key, Clock(ops[0], clock), k, cfg);
    }
  }

  /** A window ends at most `Most - place` failures after any of its failures. */
  lemma {:induction false} NextWindow(fs: seq<Failure>, i: nat, j: nat, k: nat, cfg: Config)
    requires k >= 1
    requires Windows(fs, k, cfg) && i < |fs| && j < |fs| && j == i + Most(k, cfg) + 1 - fs[i].place
    ensures exists h :: i < h <= j && fs[h].place == 1 && fs[h].time >= fs[i].start + cfg.window
    decreases Most(k, cfg) - fs[i].place
  {
    if fs[i + 1].place == 1 {
      assert i < i + 1 <= j;
    } else {
      NextWindow(fs, i + 1, j, k, cfg);
      var h :| i + 1 < h <= j && fs[h].place == 1 && fs[h].time >= fs[i + 1].start + cfg.window;
    }
  }

  /** Any 2 * Most failures in a row span at least a whole window. */
  lemma Spread(fs: seq<Failure>, i: nat, k: nat, cfg: Config)
    requires k >= 1
    requires Windows(fs, k, cfg) && i + 2 * Most(k, cfg) - 1 < |fs|
    ensures fs[i + 2 * Most(k, cfg) - 1].time - fs[i].time >= cfg.window
  {
    var m := Most(k, cfg);
    NextWindow(fs, i, i + m + 1 - fs[i].place, k, cfg);
    var h :| i < h <= i + m + 1 - fs[i].place && fs[h].place == 1 && fs[h].time >= fs[i].start + cfg.window;
    if fs[i].place > 1 {
      NextWindow(fs, h, h + m, k, cfg);
      var g :| h < g <= h + m && fs[g].place == 1 && fs[g].time >= fs[h].start + cfg.window;
      assert fs[g].time >= fs[h].time + cfg.window >= fs[i].time + cfg.window;
    }
  }

  function TimesOf(fs: seq<Failure>): seq<int> {
    seq(|fs|, i requires 0 <= i < |fs| => fs[i].time)
  }

  /** The failures in [from, from + window), by place. */
  function During(fs: seq<Failure>, from: int, cfg: Config): set<nat> {
    Intervals.During(TimesOf(fs), from, cfg.window)
  }

  lemma FewDuring(fs: seq<Failure>, from: int, k: nat, cfg: Config)
    requires k >= 1
    requires Windows(fs, k, cfg)
    ensures |During(fs, from, cfg)| <= 2 * Most(k, cfg) - 1
  {
    var ts, n := TimesOf(fs), 2 * Most(k, cfg) - 1;
    forall i, j | 0 <= i && j == i + n && j < |ts|
      ensures ts[j] - ts[i] >= cfg.window
    {
      Spread(fs, i, k, cfg);
    }
    Intervals.FewDuring(ts, n, from, cfg.window);
  }

  /**
   * However the calls come, with the clock never going back, each failure that of an attempt let in, and at most k
   * attempts of the key under way at once, no interval as long as the window holds more than 2 * (max + k - 1) - 1
   * failures of the key since its reset.
   */
  lemma AtMostTwiceMinusOne(ops: seq<Op>, key: string, clock: int, from: int, k: nat, cfg: Config)
    requires k >= 1 && MonotoneClock(ops, clock) && Disciplined(Start, ops, key, k, cfg)
    ensures |During(Run(Start, ops, key, cfg).failures, from, cfg)| <= 2 * Most(k, cfg) - 1
  {
    RunKeepsInv(Start, ops, key, clock, k, cfg);
    FewDuring(Run(Start, ops, key, cfg).failures, from, k, cfg);
  }

  /** A login is refused exactly when the key's last window still holds and has had the maximum of failures. */
  lemma AnsweredExactly(ops: seq<Op>, key: string, clock: int, now: int, k: nat, cfg: Config)
    requires k >= 1 && MonotoneClock(ops, clock) && Disciplined(Start, ops, key, k, cfg) && End(ops, clock) <= now
    ensures var t := Run(Start, ops, key, cfg);
            !Allowed(t.state, key, now, cfg)
            <==> t.failures != [] && now - t.failures[|t.failures| - 1].start < cfg.window
                 && t.failures[|t.failures| - 1].place >= cfg.maxAttempts
  {
    hide Windows, Run, Disciplined, MonotoneClock, End;
    assert Inv(Start, key, clock, k, cfg) by {
      NoFailureYet(key, clock, k, cfg);
    }
    RunKeepsInv(Start, ops, key, clock, k, cfg);
  }

  lemma NoFailureYet(key: string, clock: int, k: nat, cfg: Config)
    requires k >= 1
    ensures Inv(Start, key, clock, k, cfg)
  {
  }

  // ----- the bound is reached -----

  /** n attempts that are let in, and so stay under way. */
  function Lets(key: string, t: int, n: nat): seq<Op> {
    if n == 0 then [] else [Allow(key, t)] + Lets(key, t, n - 1)
  }

  /** n attempts that fail. */
  function Fails(key: string, t: int, n: nat): seq<Op> {
    if n == 0 then [] else [Record(key, t, t)] + Fails(key, t, n - 1)
  }

  /** n attempts, one after the other. */
  function Attempts(key: string, t: int, n: nat): seq<Op> {
    if n == 0 then [] else [Allow(key, t), Record(key, t, t)] + Attempts(key, t, n - 1)
  }

  function Row(time: int, start: int, place: nat, n: nat): (r: seq<Failure>)
    ensures |r| == n && forall i :: 0 <= i < n ==> r[i] == Failure(time, start, place + i)
    decreases n
  {
    if n == 0 then [] else [Failure(time, start, place)] + Row(time, start, place + 1, n - 1)
  }

  lemma RowsJoin(time: int, start: int, place: nat, n: nat, more: nat)
    ensures Row(time, start, place, n) + Row(time, start, place + n, more) == Row(time, start, place, n + more)
  {
  }

  /** From t the calls and the rest lead where from u the rest does. */
  ghost predicate LeadsTo(t: Track, ops: seq<Op>, u: Track, rest: seq<Op>, key: string, k: nat, cfg: Config) {
    Run(t, ops, key, cfg) == Run(u, rest, key, cfg) && (Disciplined(u, rest, key, k, cfg) ==> Disciplined(t, ops, key, k, cfg))
  }

  lemma OneLeads(t: Track, op: Op, rest: seq<Op>, key: string, k: nat, cfg: Config)
    requires op.Record? && op.key == key ==> t.pending > 0
    requires Follow(t, op, key, cfg).pending <= k
    ensures LeadsTo(t, [op] + rest, Follow(t, op, key, cfg), rest, key, k, cfg)
  {
    hide Follow;
    assert ([op] + rest)[1..] == rest;
  }

  lemma LeadsOn(t: Track, a: seq<Op>, u: Track, b: seq<Op>, v: Track, c: seq<Op>, key: string, k: nat, cfg: Config)
    requires LeadsTo(t, a, u, b, key, k, cfg) && LeadsTo(u, b, v, c, key, k, cfg)
    ensures LeadsTo(t, a, v, c, key, k, cfg)
  {
    hide Run, Disciplined;
  }

  lemma LeadsNowhere(t: Track, ops: seq<Op>, key: string, k: nat, cfg: Config)
    ensures LeadsTo(t, ops, t, ops, key, k, cfg)
  {
  }

  lemma LetIn(t: Track, key: string, now: int, cfg: Config)
    requires Allowed(t.state, key, now, cfg)
    ensures var u := Follow(t, Allow(key, now), key, cfg);
            && u.failures == t.failures && u.pending == t.pending + 1 && Allowed(u.state, key, now, cfg)
            && Counted(u.state, key, now, cfg) == Counted(t.state, key, now, cfg)
  {
  }

  lemma Failed(t: Track, key: string, now: int, cfg: Config)
    requires t.pending > 0
    ensures var u, w := Follow(t, Record(key, now, now), key, cfg), Counted(t.state, key, now, cfg);
            && u.failures == t.failures + [Failure(now, w.start, w.count)] && u.pending == t.pending - 1
            && key in u.state.hits && u.state.hits[key] == w
  {
  }

  /** One failed login at a time at which the key is allowed. */
  lemma OneAttempt(t: Track, key: string, now: int, rest: seq<Op>, k: nat, cfg: Config) returns (u: Track)
    requires Allowed(t.state, key, now, cfg) && t.pending < k
    ensures var w := Counted(t.state, key, now, cfg);
            && u.failures == t.failures + [Failure(now, w.start, w.count)] && u.pending == t.pending
            && key in u.state.hits && u.state.hits[key] == w
    ensures LeadsTo(t, [Allow(key, now), Record(key, now, now)] + rest, u, rest, key, k, cfg)
  {
    hide Follow, LeadsTo, Counted;
    var second := [Record(key, now, now)] + rest;
    var a := Follow(t, Allow(key, now), key, cfg);
    u := Follow(a, Record(key, now, now), key, cfg);
    LetIn(t, key, now, cfg);
    Failed(a, key, now, cfg);
    OneLeads(t, Allow(key, now), second, key, k, cfg);
    OneLeads(a, Record(key, now, now), rest, key, k, cfg);
    assert [Allow(key, now), Record(key, now, now)] + rest == [Allow(key, now)] + second;
    LeadsOn(t, [Allow(key, now)] + second, a, second, u, rest, key, k, cfg);
  }

  lemma {:induction false} LetsRun(t: Track, key: string, now: int, n: nat, rest: seq<Op>, k: nat, cfg: Config)
    returns (u: Track)
    requires Allowed(t.state, key, now, cfg) && t.pending + n <= k
    ensures u.failures == t.failures && u.pending == t.pending + n && Allowed(u.state, key, now, cfg)
    ensures Counted(u.state, key, now, cfg) == Counted(t.state, key, now, cfg)
    ensures LeadsTo(t, Lets(key, now, n) + rest, u, rest, key, k, cfg)
    decreases n
  {
    hide Follow, LeadsTo, Counted, Allowed;
    if n == 0 {
      u := t;
      assert Lets(key, now, n) + rest == rest;
      LeadsNowhere(t, rest, key, k, cfg);
    } else {
      var next := Lets(key, now, n - 1) + rest;
      assert Lets(key, now, n) + rest == [Allow(key, now)] + next;
      var a := Follow(t, Allow(key, now), key, cfg);
      LetIn(t, key, now, cfg);
      OneLeads(t, Allow(key, now), next, key, k, cfg);
      u := LetsRun(a, key, now, n - 1, rest, k, cfg);
      LeadsOn(t, [Allow(key, now)] + next, a, next, u, rest, key, k, cfg);
    }
  }

  lemma OneMoreInRow(fs: seq<Failure>, time: int, start: int, place: nat, n: nat)
    requires n > 0
    ensures (fs + [Failure(time, start, place)]) + Row(time, start, place + 1, n - 1) == fs + Row(time, start, place, n)
  {
  }

  lemma NoRow(fs: seq<Failure>, time: int, start: int, place: nat)
    ensures fs + Row(time, start, place, 0) == fs
  {
  }

  lemma CountedInWindow(s: State, key: string, now: int, cfg: Config)
    requires key in s.hits && !Expired(s.hits[key], now, cfg)
    ensures Counted(s, key, now, cfg) == Window(s.hits[key].count + 1, s.hits[key].start)
    ensures s.hits[key].count < cfg.maxAttempts ==> Allowed(s, key, now, cfg)
  {
  }

  /** n more failures, of attempts under way, at a time the window of the last one still holds. */
  lemma {:induction false} FailsRun(t: Track, key: string, now: int, n: nat, rest: seq<Op>, k: nat, cfg: Config)
    returns (u: Track)
    requires key in t.state.hits && !Expired(t.state.hits[key], now, cfg) && n <= t.pending <= k
    ensures var w := t.state.hits[key];
            && u.failures == t.failures + Row(now, w.start, w.count + 1, n) && u.pending == t.pending - n
            && key in u.state.hits && u.state.hits[key] == Window(w.count + n, w.start)
    ensures LeadsTo(t, Fails(key, now, n) + rest, u, rest, key, k, cfg)
    decreases n
  {
    hide Follow, LeadsTo, Counted, Row, Lets, Attempts;
    if n == 0 {
      u := t;
      NoRow(t.failures, now, t.state.hits[key].start, t.state.hits[key].count + 1);
      assert Fails(key, now, n) + rest == rest;
      LeadsNowhere(t, rest, key, k, cfg);
    } else {
      var w := t.state.hits[key];
      var next := Fails(key, now, n - 1) + rest;
      assert Fails(key, now, n) + rest == [Record(key, now, now)] + next;
      var a := Follow(t, Record(key, now, now), key, cfg);
      CountedInWindow(t.state, key, now, cfg);
      Failed(t, key, now, cfg);
      OneLeads(t, Record(key, now, now), next, key, k, cfg);
      u := FailsRun(a, key, now, n - 1, rest, k, cfg);
      LeadsOn(t, [Record(key, now, now)] + next, a, next, u, rest, key, k, cfg);
      OneMoreInRow(t.failures, now, w.start, w.count + 1, n);
    }
  }

  /** n more failures, each of its own attempt, at a time the window of the last one still holds. */
  lemma {:induction false} AttemptsRun(t: Track, key: string, now: int, n: nat, rest: seq<Op>, k: nat, cfg: Config)
    returns (u: Track)
    requires key in t.state.hits && !Expired(t.state.hits[key], now, cfg) && t.pending < k
    requires t.state.hits[key].count + n <= cfg.maxAttempts
    ensures var w := t.state.hits[key];
            && u.failures == t.failures + Row(now, w.start, w.count + 1, n) && u.pending == t.pending
            && key in u.state.hits && u.state.hits[key] == Window(w.count + n, w.start)
    ensures LeadsTo(t, Attempts(key, now, n) + rest, u, rest, key, k, cfg)
    decreases n
  {
    hide Follow, LeadsTo, Counted, Allowed, Row, Fails;
    if n == 0 {
      u := t;
      NoRow(t.failures, now, t.state.hits[key].start, t.state.hits[key].count + 1);
      assert Attempts(key, now, n) + rest == rest;
      LeadsNowhere(t, rest, key, k, cfg);
    } else {
      var w := t.state.hits[key];
      var next := Attempts(key, now, n - 1) + rest;
      var pair := [Allow(key, now), Record(key, now, now)];
      assert Attempts(key, now, n) + rest == pair + next;
      CountedInWindow(t.state, key, now, cfg);
      var a := OneAttempt(t, key, now, next, k, cfg);
      u := AttemptsRun(a, key, now, n - 1, rest, k, cfg);
      LeadsOn(t, pair + next, a, next, u, rest, key, k, cfg);
      OneMoreInRow(t.failures, now, w.start, w.count + 1, n);
    }
  }

  /** From a moment at which no window holds, k - 1 attempts let in, then one that fails at once. */
  function Opening(key: string, t: int, k: nat): seq<Op>
    requires k >= 1
  {
    Lets(key, t, k - 1) + [Allow(key, t), Record(key, t, t)]
  }

  /** The rest of the window: attempts up to the maximum, then the failures of those under way. */
  function Filling(key: string, t: int, k: nat, cfg: Config): seq<Op>
    requires k >= 1 && cfg.maxAttempts >= 1
  {
    Attempts(key, t, cfg.maxAttempts - 1) + Fails(key, t, k - 1)
  }

  lemma Regroup(a: seq<Op>, b: seq<Op>, c: seq<Op>)
    ensures (a + b) + c == a + (b + c)
  {
  }

  lemma OpeningRun(t: Track, key: string, now: int, rest: seq<Op>, k: nat, cfg: Config) returns (u: Track)
    requires k >= 1 && t.pending == 0 && cfg.maxAttempts >= 1
    requires key !in t.state.hits || Expired(t.state.hits[key], now, cfg)
    ensures u.failures == t.failures + [Failure(now, now, 1)] && u.pending == k - 1
    ensures key in u.state.hits && u.state.hits[key] == Window(1, now)
    ensures LeadsTo(t, Opening(key, now, k) + rest, u, rest, key, k, cfg)
  {
    hide Follow, LeadsTo;
    var pair := [Allow(key, now), Record(key, now, now)];
    Regroup(Lets(key, now, k - 1), pair, rest);
    var a := LetsRun(t, key, now, k - 1, pair + rest, k, cfg);
    u := OneAttempt(a, key, now, rest, k, cfg);
    LeadsOn(t, Opening(key, now, k) + rest, a, pair + rest, u, rest, key, k, cfg);
  }

  lemma FillingRun(t: Track, key: string, now: int, rest: seq<Op>, k: nat, cfg: Config) returns (u: Track)
    requires k >= 1 && t.pending == k - 1 && cfg.maxAttempts >= 1
    requires key in t.state.hits && !Expired(t.state.hits[key], now, cfg) && t.state.hits[key].count == 1
    ensures var w := t.state.hits[key];
            && u.failures == t.failures + Row(now, w.start, 2, Most(k, cfg) - 1) && u.pending == 0
            && key in u.state.hits && u.state.hits[key].start == w.start
    ensures LeadsTo(t, Filling(key, now, k, cfg) + rest, u, rest, key, k, cfg)
  {
    hide Follow, LeadsTo, Attempts, Fails, Row, Allowed, Counted;
    var w, m, last := t.state.hits[key], cfg.maxAttempts, Fails(key, now, k - 1) + rest;
    Regroup(Attempts(key, now, m - 1), Fails(key, now, k - 1), rest);
    var a := AttemptsRun(t, key, now, m - 1, last, k, cfg);
    u := FailsRun(a, key, now, k - 1, rest, k, cfg);
    LeadsOn(t, Filling(key, now, k, cfg) + rest, a, last, u, rest, key, k, cfg);
    RowsJoin(now, w.start, 2, m - 1, k - 1);
    RowsAppended(t.failures, Row(now, w.start, 2, m - 1), Row(now, w.start, m + 1, k - 1));
  }

  lemma RowsAppended(a: seq<Failure>, b: seq<Failure>, c: seq<Failure>)
    ensures (a + b) + c == a + (b + c)
  {
  }

  /** A full window failing late, then the next one failing at once. */
  function Late(key: string, k: nat, cfg: Config): seq<Op>
    requires k >= 1 && cfg.maxAttempts >= 1
  {
    var w := cfg.window;
    Opening(key, 0, k) + (Filling(key, w - 1, k, cfg) + (Opening(key, w, k) + (Filling(key, w, k, cfg) + [])))
  }

  function LateFailures(k: nat, cfg: Config): seq<Failure>
    requires k >= 1 && cfg.maxAttempts >= 1
  {
    var w, m := cfg.window, Most(k, cfg);
    [Failure(0, 0, 1)] + Row(w - 1, 0, 2, m - 1) + [Failure(w, w, 1)] + Row(w, w, 2, m - 1)
  }

  lemma LateRun(key: string, k: nat, cfg: Config)
    requires k >= 1 && cfg.maxAttempts >= 1 && cfg.window >= 2
    ensures Disciplined(Start, Late(key, k, cfg), key, k, cfg)
    ensures Run(Start, Late(key, k, cfg), key, cfg).failures == LateFailures(k, cfg)
  {
    hide Opening, Filling, Row, Follow, LeadsTo;
    var w := cfg.window;
    var last := Filling(key, w, k, cfg) + [];
    var third := Opening(key, w, k) + last;
    var second := Filling(key, w - 1, k, cfg) + third;
    var t1 := OpeningRun(Start, key, 0, second, k, cfg);
    var t2 := FillingRun(t1, key, w - 1, third, k, cfg);
    var t3 := OpeningRun(t2, key, w, last, k, cfg);
    var t4 := FillingRun(t3, key, w, [], k, cfg);
    LeadsOn(Start, Late(key, k, cfg), t1, second, t2, third, key, k, cfg);
    LeadsOn(Start, Late(key, k, cfg), t2, third, t3, last, key, k, cfg);
    LeadsOn(Start, Late(key, k, cfg), t3, last, t4, [], key, k, cfg);
    LeadsToTheEnd(Start, Late(key, k, cfg), t4, key, k, cfg);
    assert [] + [Failure(0, 0, 1)] == [Failure(0, 0, 1)];
  }

  lemma LeadsToTheEnd(t: Track, ops: seq<Op>, u: Track, key: string, k: nat, cfg: Config)
    requires LeadsTo(t, ops, u, [], key, k, cfg)
    ensures Disciplined(t, ops, key, k, cfg) && Run(t, ops, key, cfg) == u
  {
  }

  // ----- and its clock goes on -----

  lemma {:induction false} Sooner(ops: seq<Op>, clock: int, earlier: int)
    requires MonotoneClock(ops, clock) && earlier <= clock
    ensures MonotoneClock(ops, earlier)
    decreases ops
  {
    if ops != [] && (ops[0].Reset? || ops[0].Leave?) {
      Sooner(ops[1..], clock, earlier);
    }
  }

  /** Calls all made at one moment. */
  ghost predicate AllAt(ops: seq<Op>, now: int) {
    forall i :: 0 <= i < |ops| ==> Onward(ops[i], now) && Clock(ops[i], now) == now
  }

  lemma {:induction false} AllAtOnward(ops: seq<Op>, now: int, rest: seq<Op>, clock: int)
    requires AllAt(ops, now) && clock <= now && MonotoneClock(rest, now)
    ensures MonotoneClock(ops + rest, clock)
    decreases |ops|
  {
    if ops == [] {
      assert ops + rest == rest;
    } else {
      assert ops == [ops[0]] + ops[1..] && (ops + rest)[1..] == ops[1..] + rest && (ops + rest)[0] == ops[0];
      AllAtOnward(ops[1..], now, rest, now);
    }
    Sooner(ops + rest, now, clock);
  }

  lemma {:induction false} BuiltAt(key: string, now: int, n: nat)
    ensures AllAt(Lets(key, now, n), now) && AllAt(Fails(key, now, n), now) && AllAt(Attempts(key, now, n), now)
    decreases n
  {
    if n > 0 {
      BuiltAt(key, now, n - 1);
    }
  }

  lemma PartsAt(key: string, now: int, k: nat, cfg: Config)
    requires k >= 1 && cfg.maxAttempts >= 1
    ensures AllAt(Opening(key, now, k), now) && AllAt(Filling(key, now, k, cfg), now)
  {
    BuiltAt(key, now, k - 1);
    BuiltAt(key, now, cfg.maxAttempts - 1);
  }

  lemma LateIsOnward(key: string, k: nat, cfg: Config)
    requires k >= 1 && cfg.maxAttempts >= 1 && cfg.window >= 2
    ensures MonotoneClock(Late(key, k, cfg), 0)
  {
    hide Opening, Filling, AllAt;
    var w := cfg.window;
    PartsAt(key, 0, k, cfg);
    PartsAt(key, w - 1, k, cfg);
    PartsAt(key, w, k, cfg);
    AllAtOnward(Filling(key, w, k, cfg), w, [], w);
    var last := Filling(key, w, k, cfg) + [];
    AllAtOnward(Opening(key, w, k), w, last, w - 1);
    AllAtOnward(Filling(key, w - 1, k, cfg), w - 1, Opening(key, w, k) + last, 0);
    AllAtOnward(Opening(key, 0, k), 0, Filling(key, w - 1, k, cfg) + (Opening(key, w, k) + last), 0);
  }

  lemma LateCount(k: nat, cfg: Config)
    requires k >= 1 && cfg.maxAttempts >= 1 && cfg.window >= 2
    ensures During(LateFailures(k, cfg), cfg.window - 1, cfg) == Intervals.Range(1, 2 * Most(k, cfg) - 1)
  {
    var w, m, fs := cfg.window, Most(k, cfg), LateFailures(k, cfg);
    forall i | 0 < i < |fs|
      ensures w - 1 <= fs[i].time <= w
    {
      if i < m {
        assert fs[i] == Row(w - 1, 0, 2, m - 1)[i - 1];
      } else if i > m {
        assert fs[i] == Row(w, w, 2, m - 1)[i - m - 1];
      }
    }
  }

  /** A run in which one interval holds that many failures: the bound is the best one, for any k. */
  lemma BoundIsReached(key: string, k: nat, cfg: Config)
    requires k >= 1 && cfg.maxAttempts >= 1 && cfg.window >= 2
    ensures var ops := Late(key, k, cfg);
            && MonotoneClock(ops, 0) && Disciplined(Start, ops, key, k, cfg)
            && |During(Run(Start, ops, key, cfg).failures, cfg.window - 1, cfg)| == 2 * Most(k, cfg) - 1
  {
    hide Late, LateFailures, MonotoneClock, Disciplined, Run, During;
    LateIsOnward(key, k, cfg);
    LateRun(key, k, cfg);
    LateCount(k, cfg);
  }
}
