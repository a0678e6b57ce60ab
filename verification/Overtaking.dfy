/**
 The sliding-window limiter when calls overtake each other: `paymaster-server/src/rate_limiter.rs`
 reads the clock before it takes its lock, so operations need not be in the order of their readings.
 */
module Overtaking {
  import opened Timestamps
  import opened SlidingWindow

  // --------------------------------------------------- readings out of order

  lemma {:induction false} PruneNoLonger(s: seq<nat>, now: nat, w: nat)
    requires AtMost(s, now + U64 - w)
    ensures |Prune(s, now, w)| <= |Retain(s, now, w)|
  {
    if s == [] {
    } else {
      PruneNoLonger(s[..|s| - 1], now, w);
      assert Retain(s[..|s| - 1], now, w) + [] == Retain(s[..|s| - 1], now, w);
    }
  }

  /**
   Of what is still stored, a call keeps all that is inside its window if and only if none of it is
   later than the clock the call read: otherwise the subtraction wraps and newer admissions are lost.
   */
  lemma PruneExactly(s: seq<nat>, now: nat, w: nat)
    requires w > 0 && AtMost(s, now + 0x1_0000_0000_0000_0000 - w)
    ensures Prune(s, now, w) == Retain(s, now, w) <==> AtMost(s, now)
  {
    if AtMost(s, now) {
      PruneRetains(s, now, w);
    } else {
      PruneLoses(s, now, w);
    }
  }

  lemma {:induction false} PruneLoses(s: seq<nat>, now: nat, w: nat)
    requires w > 0 && AtMost(s, now + U64 - w) && !AtMost(s, now)
    ensures |Prune(s, now, w)| < |Retain(s, now, w)|
  {
    var init, last := s[..|s| - 1], s[|s| - 1];
    assert Retain(init, now, w) + [] == Retain(init, now, w);
    if AtMost(init, now) {
      PruneNoLonger(init, now, w);
      assert last > now;
    } else {
      PruneLoses(init, now, w);
    }
  }

  /** Two overlapping calls, the later reading applied first. */
  function Overtaken(key: string): seq<Event> {
    [Event(Allowed(key), 1), Event(Allowed(key), 0)]
  }

  lemma OvertakenFirst(key: string, windowMs: nat)
    requires windowMs >= 2
    ensures var first := [Event(Allowed(key), 1)];
            && Windows(Config(1, windowMs), first) == map[key := Window([1], 1, windowMs)]
            && AdmittedTimes(Config(1, windowMs), first, key) == [1]
  {
    var cfg, first := Config(1, windowMs), [Event(Allowed(key), 1)];
    assert first[..0] == [];
    assert Windows(cfg, []) == map[] && AdmittedTimes(cfg, [], key) == [];
    assert Prune([], 1, windowMs) == [] && [] + [1] == [1];
  }

  /** The order of the readings matters: a limit of one then admits two calls within one window. */
  lemma OvertakenAdmitsTwo(key: string, windowMs: nat)
    requires 2 <= windowMs < 0x1_0000_0000_0000_0000
    ensures CountIn(AdmittedTimes(Config(1, windowMs), Overtaken(key), key), 0, windowMs) == 2
  {
    var cfg, run := Config(1, windowMs), Overtaken(key);
    OvertakenFirst(key, windowMs);
    assert run[..1] == [Event(Allowed(key), 1)];
    assert [1][..0] == [] && Prune([], 0, windowMs) == [] && Prune([1], 0, windowMs) == [];
    assert AdmittedTimes(cfg, run, key) == [1] + [0];
    CountInSnoc([1], 0, 0, windowMs);
    CountInSnoc([], 1, 0, windowMs);
    assert [] + [1] == [1];
  }

  // ------------------------------------------------- when the limit holds anyway

  /** A run, what its window of one key then holds, and how many admissions of it lie in an interval. */
  datatype Stage = Stage(run: seq<Event>, requests: seq<nat>, n: nat)

  datatype Span = Span(key: string, lo: int, hi: int)

  ghost predicate Leaves(cfg: Config, i: Span, s: Stage) {
    && Windows(cfg, s.run) == map[i.key := Window(s.requests, cfg.limit, cfg.windowMs)]
    && CountIn(AdmittedTimes(cfg, s.run, i.key), i.lo, i.hi) == s.n
  }

  function Inside(i: Span, now: nat): nat {
    if i.lo <= now < i.hi then 1 else 0
  }

  /** The first call. */
  function First(i: Span, now: nat): Stage {
    Stage([Event(Allowed(i.key), now)], [now], Inside(i, now))
  }

  /** One more call, which is admitted when it finds room. */
  function Call(cfg: Config, i: Span, s: Stage, now: nat): Stage {
    var kept, run := Prune(s.requests, now, cfg.windowMs), s.run + [Event(Allowed(i.key), now)];
    if |kept| < cfg.limit then Stage(run, kept + [now], s.n + Inside(i, now)) else Stage(run, kept, s.n)
  }

  /** One more count. */
  function Counted(cfg: Config, i: Span, s: Stage, now: nat): Stage {
    Stage(s.run + [Event(RequestCount(i.key), now)], Prune(s.requests, now, cfg.windowMs), s.n)
  }

  lemma AfterEvent(cfg: Config, run: seq<Event>, e: Event, key: string)
    ensures var step := Apply(cfg, Windows(cfg, run), e.op, e.now);
            && Windows(cfg, run + [e]) == step.windows
            && AdmittedTimes(cfg, run + [e], key) == AdmittedTimes(cfg, run, key) + Admission(e, step.answer, key)
  {
    assert (run + [e])[..|run|] == run;
  }

  /** A call on the only window there is. */
  lemma ApplyOnly(cfg: Config, key: string, requests: seq<nat>, now: nat)
    ensures var kept := Prune(requests, now, cfg.windowMs);
            Apply(cfg, map[key := Window(requests, cfg.limit, cfg.windowMs)], Allowed(key), now) ==
            if |kept| < cfg.limit then Step(map[key := Window(kept + [now], cfg.limit, cfg.windowMs)], Verdict(true))
            else Step(map[key := Window(kept, cfg.limit, cfg.windowMs)], Verdict(false))
  {
  }

  lemma LeavesAdmitted(cfg: Config, i: Span, s: Stage, now: nat)
    requires Leaves(cfg, i, s) && |Prune(s.requests, now, cfg.windowMs)| < cfg.limit
    ensures Leaves(cfg, i, Call(cfg, i, s, now))
  {
    var e, times := Event(Allowed(i.key), now), AdmittedTimes(cfg, s.run, i.key);
    AfterEvent(cfg, s.run, e, i.key);
    ApplyOnly(cfg, i.key, s.requests, now);
    assert AdmittedTimes(cfg, s.run + [e], i.key) == times + [now];
    CountInSnoc(times, now, i.lo, i.hi);
  }

  lemma LeavesRefused(cfg: Config, i: Span, s: Stage, now: nat)
    requires Leaves(cfg, i, s) && |Prune(s.requests, now, cfg.windowMs)| >= cfg.limit
    ensures Leaves(cfg, i, Call(cfg, i, s, now))
  {
    var e, times := Event(Allowed(i.key), now), AdmittedTimes(cfg, s.run, i.key);
    AfterEvent(cfg, s.run, e, i.key);
    ApplyOnly(cfg, i.key, s.requests, now);
    assert AdmittedTimes(cfg, s.run + [e], i.key) == times + [] == times;
  }

  lemma LeavesCall(cfg: Config, i: Span, s: Stage, now: nat)
    requires Leaves(cfg, i, s)
    ensures Leaves(cfg, i, Call(cfg, i, s, now))
  {
    if |Prune(s.requests, now, cfg.windowMs)| < cfg.limit {
      LeavesAdmitted(cfg, i, s, now);
    } else {
      LeavesRefused(cfg, i, s, now);
    }
  }

  lemma LeavesFirst(cfg: Config, i: Span, now: nat)
    requires cfg.limit > 0
    ensures Leaves(cfg, i, First(i, now))
  {
    var first := [Event(Allowed(i.key), now)];
    assert first[..0] == [] && Windows(cfg, []) == map[] && AdmittedTimes(cfg, [], i.key) == [];
    assert Prune([], now, cfg.windowMs) == [] && [] + [now] == [now];
    CountInSnoc([], now, i.lo, i.hi);
  }

  /** A fact about stages that operations on the key keep. */
  ghost predicate Carries(P: Stage -> bool, cfg: Config, i: Span) {
    && (forall now: nat {:trigger First(i, now)} :: P(First(i, now)))
    && (forall s, now: nat {:trigger Call(cfg, i, s, now)} :: P(s) ==> P(Call(cfg, i, s, now)))
    && forall s, now: nat {:trigger Counted(cfg, i, s, now)} :: P(s) ==> P(Counted(cfg, i, s, now))
  }

  /** `P` is what a stage claims. */
  ghost predicate Means(P: Stage -> bool, cfg: Config, i: Span) {
    forall s {:trigger Leaves(cfg, i, s)} :: P(s) <==> Leaves(cfg, i, s)
  }

  lemma MeansAt(P: Stage -> bool, cfg: Config, i: Span, s: Stage)
    requires Means(P, cfg, i)
    ensures P(s) <==> Leaves(cfg, i, s)
  {
  }

  lemma CarryCall(P: Stage -> bool, cfg: Config, i: Span, s: Stage, now: nat)
    requires Means(P, cfg, i) && P(s)
    ensures P(Call(cfg, i, s, now))
  {
    MeansAt(P, cfg, i, s);
    LeavesCall(cfg, i, s, now);
    MeansAt(P, cfg, i, Call(cfg, i, s, now));
  }

  lemma CarryCounted(P: Stage -> bool, cfg: Config, i: Span, s: Stage, now: nat)
    requires Means(P, cfg, i) && P(s)
    ensures P(Counted(cfg, i, s, now))
  {
    MeansAt(P, cfg, i, s);
    AfterEvent(cfg, s.run, Event(RequestCount(i.key), now), i.key);
    assert AdmittedTimes(cfg, s.run, i.key) + [] == AdmittedTimes(cfg, s.run, i.key);
    MeansAt(P, cfg, i, Counted(cfg, i, s, now));
  }

  lemma CarriesLeaves(P: Stage -> bool, cfg: Config, i: Span)
    requires Means(P, cfg, i) && cfg.limit > 0
    ensures Carries(P, cfg, i)
  {
    forall now: nat
      ensures P(First(i, now))
    {
      LeavesFirst(cfg, i, now);
      MeansAt(P, cfg, i, First(i, now));
    }
    forall s, now: nat | P(s)
      ensures P(Call(cfg, i, s, now)) && P(Counted(cfg, i, s, now))
    {
      CarryCall(P, cfg, i, s, now);
      CarryCounted(P, cfg, i, s, now);
    }
  }

  lemma PruneOne(t: nat, now: nat, w: nat)
    ensures Prune([t], now, w) == if Elapsed(now, t) < w then [t] else []
    ensures Prune([], now, w) == []
  {
    assert [t][..0] == [];
  }

  function Ones(n: nat): (s: seq<nat>)
    ensures |s| == n
  {
    seq(n, _ => 1)
  }

  lemma {:induction false} OnesAt(n: nat, w: nat)
    requires 1 <= w < U64
    ensures Prune(Ones(n), 1, w) == Ones(n) && Prune(Ones(n), 0, w) == []
  {
    if n == 0 {
    } else {
      assert Ones(n)[..n - 1] == Ones(n - 1);
      OnesAt(n - 1, w);
      assert Ones(n - 1) + [1] == Ones(n);
    }
  }

  /** `n` calls at 1. */
  function CallsAtOne(i: Span, n: nat): seq<Event>
    requires n >= 1
  {
    if n == 1 then [Event(Allowed(i.key), 1)] else CallsAtOne(i, n - 1) + [Event(Allowed(i.key), 1)]
  }

  lemma OneMoreAtOne(cfg: Config, i: Span, n: nat)
    requires i.lo <= 1 < i.hi && 1 <= n < cfg.limit && 1 <= cfg.windowMs < U64
    ensures Call(cfg, i, Stage(CallsAtOne(i, n), Ones(n), n), 1) == Stage(CallsAtOne(i, n + 1), Ones(n + 1), n + 1)
  {
    OnesAt(n, cfg.windowMs);
    assert Ones(n) + [1] == Ones(n + 1);
  }

  lemma {:induction false} FillAtOne(P: Stage -> bool, cfg: Config, i: Span, n: nat)
    requires Carries(P, cfg, i) && i.lo <= 1 < i.hi && 1 <= n <= cfg.limit && 1 <= cfg.windowMs < U64
    ensures P(Stage(CallsAtOne(i, n), Ones(n), n))
    decreases n
  {
    if n == 1 {
      assert Ones(1) == [1];
      assert First(i, 1) == Stage(CallsAtOne(i, 1), Ones(1), 1);
    } else {
      FillAtOne(P, cfg, i, n - 1);
      OneMoreAtOne(cfg, i, n - 1);
    }
  }

  lemma {:induction false} CallsFixed(cfg: Config, i: Span, n: nat)
    requires n >= 1
    ensures FixedLimits(cfg, CallsAtOne(i, n))
  {
    if n == 1 {
    } else {
      CallsFixed(cfg, i, n - 1);
    }
  }

  lemma LateCall(cfg: Config, i: Span, s: Stage)
    requires cfg.limit > 0 && 1 <= cfg.windowMs < U64 && i.lo == 1 && s.requests == Ones(|s.requests|)
    requires FixedLimits(cfg, s.run)
    ensures Call(cfg, i, s, 0).requests == [0] && Call(cfg, i, s, 0).n == s.n
    ensures FixedLimits(cfg, Call(cfg, i, s, 0).run)
  {
    OnesAt(|s.requests|, cfg.windowMs);
    assert [] + [0] == [0];
  }

  lemma LastCall(cfg: Config, i: Span, s: Stage)
    requires cfg.limit > 0 && 1 <= cfg.windowMs && i.lo == 1 && i.hi == 1 + cfg.windowMs
    requires s.requests == [0] && FixedLimits(cfg, s.run)
    ensures Call(cfg, i, s, cfg.windowMs).n == s.n + 1 && FixedLimits(cfg, Call(cfg, i, s, cfg.windowMs).run)
  {
    PruneOne(0, cfg.windowMs, cfg.windowMs);
  }

  /** The limit filled at 1, a call that read the clock at 0, and one at the window's length. */
  lemma BurstCarried(P: Stage -> bool, cfg: Config, i: Span) returns (s: Stage)
    requires Carries(P, cfg, i) && cfg.limit > 0 && 1 <= cfg.windowMs < U64
    requires i.lo == 1 && i.hi == 1 + cfg.windowMs
    ensures P(s) && s.n == cfg.limit + 1 && FixedLimits(cfg, s.run)
  {
    FillAtOne(P, cfg, i, cfg.limit);
    CallsFixed(cfg, i, cfg.limit);
    var full := Stage(CallsAtOne(i, cfg.limit), Ones(cfg.limit), cfg.limit);
    LateCall(cfg, i, full);
    var late := Call(cfg, i, full, 0);
    LastCall(cfg, i, late);
    s := Call(cfg, i, late, cfg.windowMs);
  }

  lemma BurstLeaves(P: Stage -> bool, cfg: Config, i: Span) returns (s: Stage)
    requires Means(P, cfg, i) && cfg.limit > 0 && 1 <= cfg.windowMs < U64
    requires i.lo == 1 && i.hi == 1 + cfg.windowMs
    ensures Leaves(cfg, i, s) && s.n == cfg.limit + 1 && FixedLimits(cfg, s.run)
  {
    CarriesLeaves(P, cfg, i);
    s := BurstCarried(P, cfg, i);
    MeansAt(P, cfg, i, s);
  }

  lemma LeavesCount(cfg: Config, i: Span, s: Stage)
    requires Leaves(cfg, i, s)
    ensures CountIn(AdmittedTimes(cfg, s.run, i.key), i.lo, i.hi) == s.n
  {
  }

  /** Some run of overtaken calls puts one admission too many into a window. */
  lemma BurstExceeds(cfg: Config, key: string) returns (run: seq<Event>)
    requires cfg.limit > 0 && 1 <= cfg.windowMs < 0x1_0000_0000_0000_0000
    ensures FixedLimits(cfg, run) && InWindow(AdmittedTimes(cfg, run, key), 1, cfg.windowMs) == cfg.limit + 1
  {
    var i := Span(key, 1, 1 + cfg.windowMs);
    var s := BurstLeaves(s => Leaves(cfg, i, s), cfg, i);
    LeavesCount(cfg, i, s);
    run := s.run;
  }

  /** Whatever the order of the readings, a window's length of time holds at most the limit. */
  ghost predicate AlwaysLimited(cfg: Config) {
    forall run, key, lo: int :: FixedLimits(cfg, run) ==>
      InWindow(AdmittedTimes(cfg, run, key), lo, cfg.windowMs) <= cfg.limit
  }

  lemma {:induction false} NothingAdmittedAtZero(cfg: Config, run: seq<Event>, key: string)
    requires cfg.limit == 0 && FixedLimits(cfg, run)
    ensures AdmittedTimes(cfg, run, key) == []
    ensures forall k :: k in Windows(cfg, run) ==> Windows(cfg, run)[k].limit == 0
    decreases |run|
  {
    if run == [] {
    } else {
      var init, last := run[..|run| - 1], run[|run| - 1];
      NothingAdmittedAtZero(cfg, init, key);
      assert KeepsLimits(cfg, last.op);
    }
  }

  /**
   Calls that may overtake each other stay within the limit, in every run, if and only if the limit
   or the window is zero. Readings in order always do, by `AtMostLimitPerWindow`.
   */
  lemma LimitExactly(cfg: Config)
    requires cfg.windowMs < 0x1_0000_0000_0000_0000
    ensures AlwaysLimited(cfg) <==> cfg.limit == 0 || cfg.windowMs == 0
  {
    if cfg.limit == 0 || cfg.windowMs == 0 {
      forall run, key, lo: int | FixedLimits(cfg, run)
        ensures InWindow(AdmittedTimes(cfg, run, key), lo, cfg.windowMs) <= cfg.limit
      {
        if cfg.windowMs == 0 {
          CountInEmpty(AdmittedTimes(cfg, run, key), lo);
        } else {
          NothingAdmittedAtZero(cfg, run, key);
        }
      }
    } else {
      var key := "";
      var run := BurstExceeds(cfg, key);
      assert InWindow(AdmittedTimes(cfg, run, key), 1, cfg.windowMs) > cfg.limit;
    }
  }

  // ------------------------------------------------------- a count that overtakes

  /** A call at 0, a count at the window's length, and a call that read the clock just before the count. */
  function OvertakenByCount(key: string, windowMs: nat): seq<Event>
    requires windowMs > 0
  {
    [Event(Allowed(key), 0), Event(RequestCount(key), windowMs), Event(Allowed(key), windowMs - 1)]
  }

  /** The stages of that run, and of the same run without the count. */
  lemma CountCarried(P: Stage -> bool, w: nat, i: Span)
    requires Carries(P, Config(1, w), i) && w > 0 && i.lo == 0 && i.hi == w
    ensures var a, c, b := Event(Allowed(i.key), 0), Event(RequestCount(i.key), w), Event(Allowed(i.key), w - 1);
            && P(Stage([a], [0], 1)) && P(Stage([a] + [c], [], 1))
            && P(Stage([a] + [c] + [b], [w - 1], 2)) && P(Stage([a] + [b], [0], 1))
  {
    var cfg := Config(1, w);
    PruneOne(0, w, w);
    PruneOne(0, w - 1, w);
    assert [] + [w - 1] == [w - 1];
    var first := First(i, 0);
    var counted := Counted(cfg, i, first, w);
    assert counted.requests == [];
    var admitted := Call(cfg, i, counted, w - 1);
    var refused := Call(cfg, i, first, w - 1);
    assert admitted.n == 2 && refused.requests == [0];
  }

  lemma CountLeaves(P: Stage -> bool, w: nat, i: Span)
    requires Means(P, Config(1, w), i) && w > 0 && i.lo == 0 && i.hi == w
    ensures var cfg, run := Config(1, w), OvertakenByCount(i.key, w);
            && Leaves(cfg, i, Stage([run[0]], [0], 1)) && Leaves(cfg, i, Stage([run[0]] + [run[1]], [], 1))
            && Leaves(cfg, i, Stage([run[0]] + [run[1]] + [run[2]], [w - 1], 2))
            && Leaves(cfg, i, Stage([run[0]] + [run[2]], [0], 1))
  {
    CarriesLeaves(P, Config(1, w), i);
    CountCarried(P, w, i);
    var run := OvertakenByCount(i.key, w);
    MeansAt(P, Config(1, w), i, Stage([run[0]], [0], 1));
    MeansAt(P, Config(1, w), i, Stage([run[0]] + [run[1]], [], 1));
    MeansAt(P, Config(1, w), i, Stage([run[0]] + [run[1]] + [run[2]], [w - 1], 2));
    MeansAt(P, Config(1, w), i, Stage([run[0]] + [run[2]], [0], 1));
  }

  /** Nothing stored when an operation takes the lock is later than the clock it read. */
  ghost predicate NothingLater(cfg: Config, before: seq<Event>, e: Event, key: string) {
    key in Windows(cfg, before) ==> AtMost(Windows(cfg, before)[key].requests, e.now)
  }

  lemma LaterOf(cfg: Config, i: Span, s: Stage, e: Event)
    requires Leaves(cfg, i, s) && AtMost(s.requests, e.now)
    ensures NothingLater(cfg, s.run, e, i.key)
  {
  }

  /**
   With a limit of one, the count forgets the first call and the second is admitted into the same
   window, although no stored timestamp is ever later than a reading. Without the count it is not.
   */
  lemma CountAdmitsTwo(key: string, windowMs: nat)
    requires windowMs > 0
    ensures var cfg, run := Config(1, windowMs), OvertakenByCount(key, windowMs);
            && NothingLater(cfg, [], run[0], key) && NothingLater(cfg, [run[0]], run[1], key)
            && NothingLater(cfg, [run[0]] + [run[1]], run[2], key)
            && InWindow(AdmittedTimes(cfg, [run[0]] + [run[1]] + [run[2]], key), 0, windowMs) == 2
            && InWindow(AdmittedTimes(cfg, [run[0]] + [run[2]], key), 0, windowMs) == 1
  {
    var cfg, run, i := Config(1, windowMs), OvertakenByCount(key, windowMs), Span(key, 0, windowMs);
    CountLeaves(s => Leaves(cfg, i, s), windowMs, i);
    LaterOf(cfg, i, Stage([run[0]], [0], 1), run[1]);
    LaterOf(cfg, i, Stage([run[0]] + [run[1]], [], 1), run[2]);
    LeavesCount(cfg, i, Stage([run[0]] + [run[1]] + [run[2]], [windowMs - 1], 2));
    LeavesCount(cfg, i, Stage([run[0]] + [run[2]], [0], 1));
  }
}
