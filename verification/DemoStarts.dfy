/** Runs of the demo's starts: how many one address gets in a period (server/internal/demo/service.go). */
module DemoStarts {
  import opened DemoWindow
  import opened Intervals

  /** A start asks at `asked` and, when its account could be made, records at `made`; a prune forgets. */
  datatype Op = Start(key: string, asked: int, made: int, created: bool) | Prune(now: int)

  /** Without a positive limit there is none. */
  datatype Config = Config(period: int, limit: int)

  datatype Track = Track(seen: map<string, seq<int>>, starts: seq<int>)

  predicate Granted(seen: map<string, seq<int>>, key: string, now: int, cfg: Config) {
    cfg.limit > 0 ==> |Recent(Times(seen, key), now, cfg.period)| < cfg.limit
  }

  /** What the window is left with when a start asks; without a limit it is not asked. */
  function Asked(seen: map<string, seq<int>>, key: string, now: int, cfg: Config): map<string, seq<int>> {
    if cfg.limit > 0 then AfterRecent(seen, key, now, cfg.period) else seen
  }

  /** One call, followed for one key: `starts` are the times its demos were made. */
  function Follow(t: Track, op: Op, key: string, cfg: Config): Track {
    match op
    case Prune(now) => t.(seen := AfterPrune(t.seen, now, cfg.period))
    case Start(k, asked, made, created) =>
      var seen := Asked(t.seen, k, asked, cfg);
      if Granted(t.seen, k, asked, cfg) && created
      then Track(AfterRecord(seen, k, made, cfg.period), if k == key then t.starts + [made] else t.starts)
      else t.(seen := seen)
  }

  function Run(t: Track, ops: seq<Op>, key: string, cfg: Config): Track
    decreases ops
  {
    if ops == [] then t else Run(Follow(t, ops[0], key, cfg), ops[1..], key, cfg)
  }

  function Clock(op: Op): int {
    if op.Prune? then op.now else op.made
  }

  predicate Onward(op: Op, clock: int) {
    if op.Prune? then clock <= op.now else clock <= op.asked <= op.made
  }

  predicate MonotoneClock(ops: seq<Op>, clock: int)
    decreases ops
  {
    ops == [] || (Onward(ops[0], clock) && MonotoneClock(ops[1..], Clock(ops[0])))
  }

  /** The clock after all the calls. */
  function End(ops: seq<Op>, clock: int): int
    decreases ops
  {
    if ops == [] then clock else End(ops[1..], Clock(ops[0]))
  }

  /** What the window holds for the key is the end of its starts; the rest is past the period. */
  ghost predicate Holds(held: seq<int>, starts: seq<int>, gone: nat, clock: int, period: int) {
    gone <= |starts| && held == starts[gone..] && forall i :: 0 <= i < gone ==> clock - starts[i] >= period
  }

  ghost predicate Inv(t: Track, key: string, clock: int, cfg: Config) {
    && cfg.limit >= 1 && Ascending(t.starts) && Spread(t.starts, cfg.limit, cfg.period)
    && (t.starts != [] ==> t.starts[|t.starts| - 1] <= clock)
    && exists gone: nat :: Holds(Times(t.seen, key), t.starts, gone, clock, cfg.period)
  }

  lemma {:induction false} RecentIsTheEnd(starts: seq<int>, gone: nat, clock: int, now: int, period: int) returns (more: nat)
    requires gone <= |starts| && Ascending(starts) && clock <= now && Holds(starts[gone..], starts, gone, clock, period)
    ensures Holds(Recent(starts[gone..], now, period), starts, more, now, period)
    decreases |starts|
  {
    if gone == |starts| {
      more := gone;
    } else {
      var last := |starts| - 1;
      var t := starts[last];
      assert starts[gone..][..|starts[gone..]| - 1] == starts[..last][gone..];
      if now - t >= period {
        more := |starts|;
        AllGone(starts[gone..], now, period);
      } else {
        more := RecentIsTheEnd(starts[..last], gone, clock, now, period);
        assert starts[more..] == starts[..last][more..] + [t];
      }
    }
  }

  lemma {:induction false} AllGone(ts: seq<int>, now: int, period: int)
    requires forall i :: 0 <= i < |ts| ==> now - ts[i] >= period
    ensures Recent(ts, now, period) == []
  {
    if ts != [] {
      AllGone(ts[..|ts| - 1], now, period);
    }
  }

  /** Looking at the key, or at another one, forgets only what is past the period. */
  lemma LookKeeps(t: Track, seen: map<string, seq<int>>, now: int, key: string, clock: int, cfg: Config)
    requires Inv(t, key, clock, cfg) && clock <= now
    requires Times(seen, key) == Times(t.seen, key) || Times(seen, key) == Recent(Times(t.seen, key), now, cfg.period)
    ensures Inv(t.(seen := seen), key, now, cfg)
  {
    hide Recent, Times;
    var gone: nat :| Holds(Times(t.seen, key), t.starts, gone, clock, cfg.period);
    if Times(seen, key) == Times(t.seen, key) {
      assert Holds(Times(seen, key), t.starts, gone, now, cfg.period);
    } else {
      var more := RecentIsTheEnd(t.starts, gone, clock, now, cfg.period);
    }
  }

  lemma OneMoreStart(starts: seq<int>, made: int, cut: nat, asked: int, cfg: Config)
    requires cfg.limit >= 1 && Ascending(starts) && Spread(starts, cfg.limit, cfg.period) && cut <= |starts| && asked <= made
    requires starts != [] ==> starts[|starts| - 1] <= made
    requires |starts| - cut < cfg.limit && forall i :: 0 <= i < cut ==> asked - starts[i] >= cfg.period
    ensures Ascending(starts + [made]) && Spread(starts + [made], cfg.limit, cfg.period)
  {
    var all := starts + [made];
    assert forall i :: 0 <= i < |starts| ==> all[i] == starts[i];
  }

  /** A start that is granted and made: the window filtered as it asked and as it was made, and the start. */
  lemma StartLooks(t: Track, asked: int, made: int, key: string, cfg: Config)
    requires cfg.limit >= 1 && Granted(t.seen, key, asked, cfg)
    ensures var next := Follow(t, Start(key, asked, made, true), key, cfg);
            && next.starts == t.starts + [made]
            && Times(next.seen, key) == Recent(Recent(Times(t.seen, key), asked, cfg.period), made, cfg.period) + [made]
  {
    hide Recent;
  }

  lemma HeldEnd(starts: seq<int>, making: nat, made: int, clock: int, period: int)
    requires making <= |starts| && Holds(starts[making..], starts, making, clock, period)
    ensures Holds(starts[making..] + [made], starts + [made], making, clock, period)
  {
    assert (starts + [made])[making..] == starts[making..] + [made];
  }

  lemma HeldSize(held: seq<int>, starts: seq<int>, gone: nat, clock: int, period: int)
    requires Holds(held, starts, gone, clock, period)
    ensures gone <= |starts| && held == starts[gone..] && |held| == |starts| - gone
    ensures forall i :: 0 <= i < gone ==> clock - starts[i] >= period
  {
  }

  lemma StartKeepsInv(t: Track, asked: int, made: int, key: string, clock: int, cfg: Config)
    requires Inv(t, key, clock, cfg) && clock <= asked <= made && Granted(t.seen, key, asked, cfg)
    ensures Inv(Follow(t, Start(key, asked, made, true), key, cfg), key, made, cfg)
  {
    hide Recent, Spread, Ascending, Times, Follow, Holds;
    var gone: nat :| Holds(Times(t.seen, key), t.starts, gone, clock, cfg.period);
    HeldSize(Times(t.seen, key), t.starts, gone, clock, cfg.period);
    var asking := RecentIsTheEnd(t.starts, gone, clock, asked, cfg.period);
    HeldSize(Recent(Times(t.seen, key), asked, cfg.period), t.starts, asking, asked, cfg.period);
    var making := RecentIsTheEnd(t.starts, asking, asked, made, cfg.period);
    HeldSize(Recent(t.starts[asking..], made, cfg.period), t.starts, making, made, cfg.period);
    OneMoreStart(t.starts, made, asking, asked, cfg);
    StartLooks(t, asked, made, key, cfg);
    HeldEnd(t.starts, making, made, made, cfg.period);
  }

  lemma PruneLooks(seen: map<string, seq<int>>, now: int, period: int, key: string)
    ensures Times(AfterPrune(seen, now, period), key) == Recent(Times(seen, key), now, period)
  {
  }

  lemma RecentLooks(seen: map<string, seq<int>>, k: string, now: int, period: int, key: string)
    ensures Times(AfterRecent(seen, k, now, period), key)
         == if k == key then Recent(Times(seen, key), now, period) else Times(seen, key)
    ensures k != key ==> Times(AfterRecord(seen, k, now, period), key) == Times(seen, key)
  {
    hide Recent;
  }

  lemma StepKeepsInv(t: Track, op: Op, key: string, clock: int, cfg: Config)
    requires cfg.limit >= 1 && Inv(t, key, clock, cfg) && Onward(op, clock)
    ensures Inv(Follow(t, op, key, cfg), key, Clock(op), cfg)
  {
    hide Recent, Inv, Times, AfterRecent, AfterRecord, AfterPrune;
    match op
    case Prune(now) =>
      PruneLooks(t.seen, now, cfg.period, key);
      LookKeeps(t, AfterPrune(t.seen, now, cfg.period), now, key, clock, cfg);
    case Start(k, asked, made, created) =>
      var seen := AfterRecent(t.seen, k, asked, cfg.period);
      RecentLooks(t.seen, k, asked, cfg.period, key);
      RecentLooks(seen, k, made, cfg.period, key);
      if !Granted(t.seen, k, asked, cfg) || !created {
        LookKeeps(t, seen, asked, key, clock, cfg);
        LookKeeps(t.(seen := seen), seen, made, key, asked, cfg);
      } else if k == key {
        StartKeepsInv(t, asked, made, key, clock, cfg);
      } else {
        LookKeeps(t, AfterRecord(seen, k, made, cfg.period), made, key, clock, cfg);
      }
  }

  lemma {:induction false} RunKeepsInv(t: Track, ops: seq<Op>, key: string, clock: int, cfg: Config) returns (end: int)
    requires Inv(t, key, clock, cfg) && MonotoneClock(ops, clock)
    ensures Inv(Run(t, ops, key, cfg), key, end, cfg) && end == End(ops, clock)
    decreases ops
  {
    if ops == [] {
      end := clock;
    } else {
      StepKeepsInv(t, ops[0], key, clock, cfg);
      end := RunKeepsInv(Follow(t, ops[0], key, cfg), ops[1..], key, Clock(ops[0]), cfg);
    }
  }

  /** In any stretch as long as the period, one address starts at most `limit` demos. */
  lemma AtMostTheLimit(ops: seq<Op>, key: string, clock: int, from: int, cfg: Config)
    requires MonotoneClock(ops, clock) && cfg.limit >= 1
    ensures |During(Run(Track(map[], []), ops, key, cfg).starts, from, cfg.period)| <= cfg.limit
  {
    var t := Track(map[], []);
    assert Holds(Times(t.seen, key), t.starts, 0, clock, cfg.period);
    var end := RunKeepsInv(t, ops, key, clock, cfg);
    FewDuring(Run(t, ops, key, cfg).starts, cfg.limit, from, cfg.period);
  }

  /** The places of the starts less than the period ago. */
  function Lately(starts: seq<int>, now: int, period: int): set<nat> {
    set i: nat | i < |starts| && now - starts[i] < period
  }

  lemma {:induction false} RecentAreLately(ts: seq<int>, now: int, period: int)
    ensures |Recent(ts, now, period)| == |Lately(ts, now, period)|
  {
    if ts == [] {
      assert Lately(ts, now, period) == {};
    } else {
      var n := |ts| - 1;
      RecentAreLately(ts[..n], now, period);
      LatelyMore(ts, now, period);
    }
  }

  lemma LatelyMore(ts: seq<int>, now: int, period: int)
    requires ts != []
    ensures var n := |ts| - 1;
            Lately(ts, now, period) == Lately(ts[..n], now, period) + (if now - ts[n] < period then {n} else {})
            && n !in Lately(ts[..n], now, period)
  {
    var n := |ts| - 1;
    assert forall i: nat :: i < n ==> ts[..n][i] == ts[i];
  }

  lemma {:induction false} GoneAreNotLately(starts: seq<int>, gone: nat, now: int, period: int)
    requires gone <= |starts| && forall i :: 0 <= i < gone ==> now - starts[i] >= period
    ensures |Lately(starts, now, period)| == |Lately(starts[gone..], now, period)|
    decreases |starts|
  {
    hide Lately;
    if gone == |starts| {
      NoneLately(starts, now, period);
      NoneLately(starts[gone..], now, period);
    } else {
      var n := |starts| - 1;
      GoneAreNotLately(starts[..n], gone, now, period);
      LatelyMore(starts, now, period);
      LatelyMore(starts[gone..], now, period);
      assert starts[gone..][..n - gone] == starts[..n][gone..];
    }
  }

  lemma NoneLately(starts: seq<int>, now: int, period: int)
    requires forall i :: 0 <= i < |starts| ==> now - starts[i] >= period
    ensures Lately(starts, now, period) == {}
  {
  }

  /** A start is let in exactly when fewer than the limit were made of that address in the period just past. */
  lemma LetInExactly(ops: seq<Op>, key: string, clock: int, now: int, cfg: Config)
    requires MonotoneClock(ops, clock) && cfg.limit >= 1 && End(ops, clock) <= now
    ensures var t := Run(Track(map[], []), ops, key, cfg);
            Granted(t.seen, key, now, cfg) <==> |Lately(t.starts, now, cfg.period)| < cfg.limit
  {
    hide Recent, Lately;
    var t := Track(map[], []);
    assert Holds(Times(t.seen, key), t.starts, 0, clock, cfg.period);
    var end := RunKeepsInv(t, ops, key, clock, cfg);
    t := Run(t, ops, key, cfg);
    var gone: nat :| Holds(Times(t.seen, key), t.starts, gone, end, cfg.period);
    GoneAreNotLately(t.starts, gone, now, cfg.period);
    RecentAreLately(Times(t.seen, key), now, cfg.period);
  }

  /** When the address asked for a demo whose account could be made. */
  function Wanted(ops: seq<Op>, key: string): seq<int>
    decreases ops
  {
    if ops == [] then []
    else (if ops[0].Start? && ops[0].key == key && ops[0].created then [ops[0].made] else []) + Wanted(ops[1..], key)
  }

  /** A limit of zero refuses nobody. */
  lemma {:induction false} ZeroIsNoLimit(t: Track, ops: seq<Op>, key: string, cfg: Config)
    requires cfg.limit <= 0
    ensures Run(t, ops, key, cfg).starts == t.starts + Wanted(ops, key)
    decreases ops
  {
    hide AfterRecord, AfterPrune;
    if ops != [] {
      ZeroIsNoLimit(Follow(t, ops[0], key, cfg), ops[1..], key, cfg);
    }
  }

  /** A prune keeps exactly the addresses with a start in the period just past, each with those starts. */
  lemma {:induction false} RecentExactly(ts: seq<int>, now: int, period: int, x: int)
    ensures x in Recent(ts, now, period) <==> x in ts && now - x < period
  {
    if ts != [] {
      var n := |ts| - 1;
      RecentExactly(ts[..n], now, period, x);
      assert ts == ts[..n] + [ts[n]];
    }
  }

  lemma PrunedExactly(seen: map<string, seq<int>>, now: int, period: int, key: string)
    ensures var after := AfterPrune(seen, now, period);
            && (key in after <==> key in seen && exists x :: x in seen[key] && now - x < period)
            && (key in after ==> after[key] == Recent(seen[key], now, period))
  {
    hide Recent;
    if key in seen {
      forall x
        ensures x in Recent(seen[key], now, period) <==> x in seen[key] && now - x < period
      {
        RecentExactly(seen[key], now, period, x);
      }
      var kept := Recent(seen[key], now, period);
      if kept != [] {
        var x := kept[0];
        assert x in kept;
      }
    }
  }
}
