/**
 The fixed-window limiters: `RateLimiter::check` of `paymaster-server/src/state.rs` per address
 and `check_api_key_rate_limit` of `paymaster-server/src/main.rs` per API key.
 */
module FixedWindow {
  import opened Timestamps

  /** What a key may do: the address limiter has one pair for all keys, API keys have their own. */
  datatype Limits = Limits(max: nat, windowMs: nat)

  datatype Entry = Entry(count: nat, resetTimeMs: nat)

  datatype Outcome = Admitted(limit: nat, remaining: nat, resetTimeEpochSeconds: nat) | RateLimited

  datatype Step = Step(entries: map<string, Entry>, outcome: Outcome)

  /** The entry as the check sees it: created on first use, restarted once its window is over. */
  function Current(entries: map<string, Entry>, key: string, limits: Limits, now: nat): Entry {
    var renewed := Entry(0, now + limits.windowMs);
    var entry := if key in entries then entries[key] else renewed;
    if now >= entry.resetTimeMs then renewed else entry
  }

  function Apply(entries: map<string, Entry>, key: string, limits: Limits, now: nat): Step {
    var entry := Current(entries, key, limits, now);
    if entry.count >= limits.max then Step(entries[key := entry], RateLimited)
    else
      var used := entry.count + 1;
      Step(entries[key := entry.(count := used)], Admitted(limits.max, limits.max - used, entry.resetTimeMs / 1000))
  }

  ghost predicate SameEntry(before: map<string, Entry>, after: map<string, Entry>, key: string) {
    (key in after <==> key in before) && (key in after ==> after[key] == before[key])
  }

  class RateLimiter {
    var entries: map<string, Entry>

    constructor ()
      ensures entries == map[]
    {
      entries := map[];
    }

    method Check(key: string, limits: Limits, now: nat) returns (outcome: Outcome)
      modifies this
      ensures Step(entries, outcome) == Apply(old(entries), key, limits, now)
      ensures outcome.Admitted? ==> key in entries && outcome.remaining + entries[key].count == limits.max
      ensures forall k :: k != key ==> SameEntry(old(entries), entries, k)
    {
      if key !in entries {
        entries := entries[key := Entry(0, now + limits.windowMs)];
      }
      if now >= entries[key].resetTimeMs {
        entries := entries[key := Entry(0, now + limits.windowMs)];
      }
      if entries[key].count >= limits.max {
        return RateLimited;
      }
      entries := entries[key := entries[key].(count := entries[key].count + 1)];
      var remaining := if entries[key].count <= limits.max then limits.max - entries[key].count else 0;
      return Admitted(limits.max, remaining, entries[key].resetTimeMs / 1000);
    }
  }

  // ------------------------------------------------------------------- runs

  datatype Event = Event(key: string, now: nat)

  ghost predicate Timed(run: seq<Event>) {
    forall i, j :: 0 <= i < j < |run| ==> run[i].now <= run[j].now
  }

  function Clock(run: seq<Event>): nat {
    if run == [] then 0 else run[|run| - 1].now
  }

  function Entries(cfg: string -> Limits, run: seq<Event>): map<string, Entry> {
    if run == [] then map[]
    else
      var last := run[|run| - 1];
      Apply(Entries(cfg, run[..|run| - 1]), last.key, cfg(last.key), last.now).entries
  }

  function Admission(cfg: string -> Limits, entries: map<string, Entry>, e: Event, key: string): seq<nat> {
    if e.key == key && Apply(entries, key, cfg(key), e.now).outcome.Admitted? then [e.now] else []
  }

  /** The times at which requests of `key` were admitted. */
  function AdmittedTimes(cfg: string -> Limits, run: seq<Event>, key: string): seq<nat> {
    if run == [] then []
    else
      var init := run[..|run| - 1];
      AdmittedTimes(cfg, init, key) + Admission(cfg, Entries(cfg, init), run[|run| - 1], key)
  }

  // ------------------------------------------------------------ every answer

  /** The window a key is in after a run: when it opened, and how many calls it has had since. */
  datatype Opened = Never | At(start: nat, calls: nat)

  /** A window opens with the first call, and again with the first call a full length after it opened. */
  function WindowOf(cfg: string -> Limits, run: seq<Event>, key: string): Opened {
    if run == [] then Never
    else
      var before, last := WindowOf(cfg, run[..|run| - 1], key), run[|run| - 1];
      if last.key != key then before
      else if before.Never? || last.now - before.start >= cfg(key).windowMs then At(last.now, 1)
      else At(before.start, before.calls + 1)
  }

  /** The entry of a key after its call number `calls` of the window. */
  ghost predicate Stands(entries: map<string, Entry>, key: string, limits: Limits, w: Opened) {
    && (w.Never? ==> key !in entries)
    && (w.At? ==>
          && key in entries && entries[key].resetTimeMs == w.start + limits.windowMs && w.calls > 0
          && entries[key].count == if w.calls <= limits.max then w.calls else limits.max)
  }

  lemma {:induction false} EntriesStand(cfg: string -> Limits, run: seq<Event>, key: string)
    ensures Stands(Entries(cfg, run), key, cfg(key), WindowOf(cfg, run, key))
    decreases |run|
  {
    if run == [] {
    } else {
      var init, last := run[..|run| - 1], run[|run| - 1];
      EntriesStand(cfg, init, key);
      if last.key == key { CallStands(Entries(cfg, init), key, cfg(key), WindowOf(cfg, init, key), last.now); }
    }
  }

  /** One more call of the key. */
  lemma CallStands(entries: map<string, Entry>, key: string, limits: Limits, was: Opened, now: nat)
    requires Stands(entries, key, limits, was)
    ensures var w := if was.Never? || now - was.start >= limits.windowMs then At(now, 1)
                     else At(was.start, was.calls + 1);
            var step := Apply(entries, key, limits, now);
            && Stands(step.entries, key, limits, w)
            && step.outcome == if w.calls <= limits.max
                               then Admitted(limits.max, limits.max - w.calls, (w.start + limits.windowMs) / 1000)
                               else RateLimited
  {
  }

  /** What the last call of a run is answered. */
  function LastOutcome(cfg: string -> Limits, run: seq<Event>): Outcome
    requires run != []
  {
    var last := run[|run| - 1];
    Apply(Entries(cfg, run[..|run| - 1]), last.key, cfg(last.key), last.now).outcome
  }

  /**
   In every run the first `max` calls of a window are admitted and the others refused: call number `k`
   leaves `max - k`, and its window ends a full length after it opened.
   */
  lemma OutcomeExactly(cfg: string -> Limits, run: seq<Event>)
    requires run != []
    ensures var key := run[|run| - 1].key;
            var limits, w := cfg(key), WindowOf(cfg, run, key);
            && w.At?
            && LastOutcome(cfg, run) ==
               if w.calls <= limits.max
               then Admitted(limits.max, limits.max - w.calls, (w.start + limits.windowMs) / 1000)
               else RateLimited
  {
    var init, last := run[..|run| - 1], run[|run| - 1];
    EntriesStand(cfg, init, last.key);
    CallStands(Entries(cfg, init), last.key, cfg(last.key), WindowOf(cfg, init, last.key), last.now);
  }

  // --------------------------------------------------------------- invariant

  /**
   The state of one key against its admissions. The current window starts at `start` with an
   admission; what came before lies in the windows before it, the last of which also started
   with an admission, so at most `max - 1` of them are less than a window older than `start`.
   */
  ghost predicate Accounts(limits: Limits, entry: Entry, times: seq<nat>, clock: nat) {
    var start := entry.resetTimeMs - limits.windowMs;
    && start <= clock && AtMost(times, entry.resetTimeMs - 1)
    && 1 <= entry.count <= limits.max
    && CountFrom(times, start) == entry.count
    && CountFrom(times, start + 1) <= entry.count - 1
    && CountFrom(times, start - limits.windowMs + 1) <= entry.count + limits.max - 1
  }

  ghost predicate Bounded(limits: Limits, times: seq<nat>) {
    forall lo: int :: InWindow(times, lo, limits.windowMs) <= 2 * limits.max - 1
  }

  ghost predicate KeyInv(limits: Limits, entries: map<string, Entry>, key: string, times: seq<nat>, clock: nat) {
    && (key !in entries ==> times == [])
    && (key in entries ==> Accounts(limits, entries[key], times, clock))
    && Bounded(limits, times)
  }

  /** An admission in the current window. */
  lemma AdmitSameWindow(limits: Limits, entry: Entry, times: seq<nat>, clock: nat, now: nat)
    requires limits.max > 0 && Accounts(limits, entry, times, clock) && Bounded(limits, times)
    requires clock <= now < entry.resetTimeMs && entry.count < limits.max
    ensures Accounts(limits, entry.(count := entry.count + 1), times + [now], now)
    ensures Bounded(limits, times + [now])
  {
    var start := entry.resetTimeMs - limits.windowMs;
    CountFromSnoc(times, now, start);
    CountFromSnoc(times, now, start + 1);
    CountFromSnoc(times, now, start - limits.windowMs + 1);
    forall lo: int
      ensures InWindow(times + [now], lo, limits.windowMs) <= 2 * limits.max - 1
    {
      assert InWindow(times, lo, limits.windowMs) <= 2 * limits.max - 1;
      CountInSnoc(times, now, lo, lo + limits.windowMs);
      if lo <= now < lo + limits.windowMs {
        CountInBelowCountFrom(times, lo, lo + limits.windowMs, start - limits.windowMs + 1);
      }
    }
  }

  /** The admission that starts a new window. */
  lemma AdmitNewWindow(limits: Limits, entries: map<string, Entry>, key: string, times: seq<nat>, clock: nat, now: nat)
    requires limits.max > 0 && limits.windowMs > 0 && KeyInv(limits, entries, key, times, clock)
    requires clock <= now && (key in entries ==> now >= entries[key].resetTimeMs)
    ensures Accounts(limits, Entry(1, now + limits.windowMs), times + [now], now)
    ensures Bounded(limits, times + [now])
  {
    assert AtMost(times, now - 1);
    CountFromPast(times, now);
    CountFromPast(times, now + 1);
    CountFromSnoc(times, now, now);
    CountFromSnoc(times, now, now + 1);
    var earliest := now - limits.windowMs + 1;
    CountFromSnoc(times, now, earliest);
    if key in entries {
      CountFromMonotone(times, entries[key].resetTimeMs - limits.windowMs + 1, earliest);
    }
    forall lo: int
      ensures InWindow(times + [now], lo, limits.windowMs) <= 2 * limits.max - 1
    {
      assert InWindow(times, lo, limits.windowMs) <= 2 * limits.max - 1;
      CountInSnoc(times, now, lo, lo + limits.windowMs);
      if lo <= now < lo + limits.windowMs {
        CountInBelowCountFrom(times, lo, lo + limits.windowMs, earliest);
      }
    }
  }

  lemma StepKeepsInv(cfg: string -> Limits, entries: map<string, Entry>, key: string, times: seq<nat>, clock: nat,
                     e: Event)
    requires cfg(key).max > 0 && cfg(key).windowMs > 0
    requires KeyInv(cfg(key), entries, key, times, clock) && clock <= e.now
    ensures KeyInv(cfg(key), Apply(entries, e.key, cfg(e.key), e.now).entries, key,
                   times + Admission(cfg, entries, e, key), e.now)
  {
    var limits := cfg(key);
    assert times + [] == times;
    if e.key == key {
      if key !in entries || e.now >= entries[key].resetTimeMs {
        AdmitNewWindow(limits, entries, key, times, clock, e.now);
      } else if entries[key].count < limits.max {
        AdmitSameWindow(limits, entries[key], times, clock, e.now);
      }
    }
  }

  lemma {:induction false} RunKeepsInv(cfg: string -> Limits, run: seq<Event>, key: string)
    requires cfg(key).max > 0 && cfg(key).windowMs > 0 && Timed(run)
    ensures KeyInv(cfg(key), Entries(cfg, run), key, AdmittedTimes(cfg, run, key), Clock(run))
    decreases |run|
  {
    if run == [] {
    } else {
      var init := run[..|run| - 1];
      RunKeepsInv(cfg, init, key);
      StepKeepsInv(cfg, Entries(cfg, init), key, AdmittedTimes(cfg, init, key), Clock(init), run[|run| - 1]);
    }
  }

  lemma {:induction false} NothingAdmittedAtZero(cfg: string -> Limits, run: seq<Event>, key: string)
    requires cfg(key).max == 0
    ensures AdmittedTimes(cfg, run, key) == []
    decreases |run|
  {
    if run == [] {
    } else {
      NothingAdmittedAtZero(cfg, run[..|run| - 1], key);
    }
  }

  /** In every run a key's count stays within its maximum. */
  lemma {:induction false} CountWithinMax(cfg: string -> Limits, run: seq<Event>, key: string)
    requires key in Entries(cfg, run)
    ensures Entries(cfg, run)[key].count <= cfg(key).max
    decreases |run|
  {
    var init := run[..|run| - 1];
    if key in Entries(cfg, init) { CountWithinMax(cfg, init, key); }
  }

  /**
   In every run, any half-open interval of one window length holds at most `2 * max - 1` admissions
   of a key: a window opens with an admission, so two full windows never fit.
   */
  lemma AtMostTwoWindows(cfg: string -> Limits, run: seq<Event>, key: string, lo: int)
    requires Timed(run)
    ensures var limits := cfg(key);
            InWindow(AdmittedTimes(cfg, run, key), lo, limits.windowMs) <=
            if limits.max == 0 then 0 else 2 * limits.max - 1
  {
    if cfg(key).windowMs == 0 {
      CountInEmpty(AdmittedTimes(cfg, run, key), lo);
    } else if cfg(key).max == 0 {
      NothingAdmittedAtZero(cfg, run, key);
    } else {
      RunKeepsInv(cfg, run, key);
    }
  }

  // ------------------------------------------------------------ the bound is met

  function Repeat(key: string, now: nat, n: nat): seq<Event> {
    if n == 0 then [] else [Event(key, now)] + Repeat(key, now, n - 1)
  }

  /** `run` leaves the entry of `key` at `entry` and has admitted `n` of its requests from `lo` to `hi`. */
  ghost predicate Leaves(cfg: string -> Limits, run: seq<Event>, key: string, entry: Entry, lo: int, hi: int, n: nat) {
    && key in Entries(cfg, run) && Entries(cfg, run)[key] == entry
    && CountIn(AdmittedTimes(cfg, run, key), lo, hi) == n
  }

  lemma LeavesNext(cfg: string -> Limits, run: seq<Event>, key: string, entry: Entry, lo: int, hi: int, n: nat,
                   now: nat)
    requires Leaves(cfg, run, key, entry, lo, hi, n) && lo <= now < hi && cfg(key).max > 0
    requires now < entry.resetTimeMs ==> entry.count < cfg(key).max
    ensures Leaves(cfg, run + [Event(key, now)], key,
                   if now < entry.resetTimeMs then entry.(count := entry.count + 1)
                   else Entry(1, now + cfg(key).windowMs),
                   lo, hi, n + 1)
  {
    var more := run + [Event(key, now)];
    assert more[..|more| - 1] == run;
    CountInSnoc(AdmittedTimes(cfg, run, key), now, lo, hi);
  }

  /** A fact about runs that one more request at `now` takes from `entry` to the next entry. */
  ghost predicate Carries(P: (seq<Event>, Entry, nat) -> bool, key: string, limits: Limits, now: nat) {
    forall run, entry, n: nat :: P(run, entry, n) && (now < entry.resetTimeMs ==> entry.count < limits.max) ==>
      P(run + [Event(key, now)],
        if now < entry.resetTimeMs then entry.(count := entry.count + 1) else Entry(1, now + limits.windowMs), n + 1)
  }

  /** Requests that fit in the current window are all admitted. */
  lemma {:induction false} RepeatAdmitted(P: (seq<Event>, Entry, nat) -> bool, key: string, limits: Limits,
                                          run: seq<Event>, entry: Entry, n: nat, now: nat, times: nat)
    requires Carries(P, key, limits, now) && P(run, entry, n)
    requires now < entry.resetTimeMs && entry.count + times <= limits.max
    ensures P(run + Repeat(key, now, times), entry.(count := entry.count + times), n + times)
    decreases times
  {
    if times == 0 {
      assert run + Repeat(key, now, times) == run;
    } else {
      var e := Event(key, now);
      RepeatAdmitted(P, key, limits, run + [e], entry.(count := entry.count + 1), n + 1, now, times - 1);
      assert run + Repeat(key, now, times) == (run + [e]) + Repeat(key, now, times - 1);
    }
  }

  lemma LeavesFirst(cfg: string -> Limits, key: string, lo: int, hi: int)
    requires cfg(key).max > 0 && cfg(key).windowMs > 0 && lo > 0
    ensures Leaves(cfg, [Event(key, 0)], key, Entry(1, cfg(key).windowMs), lo, hi, 0)
  {
    var first := [Event(key, 0)];
    assert first[..0] == [];
    assert Entries(cfg, []) == map[] && AdmittedTimes(cfg, [], key) == [];
    assert AdmittedTimes(cfg, first, key) == [0];
    assert [0][..0] == [] && CountIn([], lo, hi) == 0;
  }

  /** One request, then a window's worth at its very end and another as the next one opens. */
  function Burst(key: string, limits: Limits): seq<Event>
    requires limits.max > 0 && limits.windowMs > 1
  {
    [Event(key, 0)] + Repeat(key, limits.windowMs - 1, limits.max - 1)
    + [Event(key, limits.windowMs)] + Repeat(key, limits.windowMs, limits.max - 1)
  }

  lemma BurstAdmitted(P: (seq<Event>, Entry, nat) -> bool, key: string, limits: Limits)
    requires limits.max > 0 && limits.windowMs > 1
    requires Carries(P, key, limits, limits.windowMs - 1) && Carries(P, key, limits, limits.windowMs)
    requires P([Event(key, 0)], Entry(1, limits.windowMs), 0)
    ensures P(Burst(key, limits), Entry(limits.max, 2 * limits.windowMs), 2 * limits.max - 1)
  {
    var w, more := limits.windowMs, limits.max - 1;
    RepeatAdmitted(P, key, limits, [Event(key, 0)], Entry(1, w), 0, w - 1, more);
    var full := [Event(key, 0)] + Repeat(key, w - 1, more);
    RepeatAdmitted(P, key, limits, full + [Event(key, w)], Entry(1, w + w), limits.max, w, more);
  }

  /** The bound of `AtMostTwoWindows` is met for every maximum and every window of at least two milliseconds. */
  lemma BoundIsMet(cfg: string -> Limits, key: string) returns (run: seq<Event>)
    requires cfg(key).max > 0 && cfg(key).windowMs > 1
    ensures Timed(run)
    ensures InWindow(AdmittedTimes(cfg, run, key), cfg(key).windowMs - 1, cfg(key).windowMs) == 2 * cfg(key).max - 1
  {
    run := BurstRun(cfg, key, cfg(key).windowMs - 1);
  }

  lemma BurstRun(cfg: string -> Limits, key: string, lo: int) returns (run: seq<Event>)
    requires cfg(key).max > 0 && cfg(key).windowMs > 1 && lo == cfg(key).windowMs - 1
    ensures Timed(run)
    ensures Leaves(cfg, run, key, Entry(cfg(key).max, 2 * cfg(key).windowMs),
                   lo, lo + cfg(key).windowMs, 2 * cfg(key).max - 1)
  {
    BurstLeaves(cfg, key, lo, (run, entry, n: nat) => Leaves(cfg, run, key, entry, lo, lo + cfg(key).windowMs, n));
    BurstTimed(key, cfg(key));
    run := Burst(key, cfg(key));
  }

  /** `P` is what a run leaves. */
  ghost predicate Means(P: (seq<Event>, Entry, nat) -> bool, cfg: string -> Limits, key: string, lo: int, hi: int) {
    forall run, entry, n: nat {:trigger Leaves(cfg, run, key, entry, lo, hi, n)} ::
      P(run, entry, n) <==> Leaves(cfg, run, key, entry, lo, hi, n)
  }

  lemma BurstLeaves(cfg: string -> Limits, key: string, lo: int, P: (seq<Event>, Entry, nat) -> bool)
    requires cfg(key).max > 0 && cfg(key).windowMs > 1 && lo == cfg(key).windowMs - 1
    requires Means(P, cfg, key, lo, lo + cfg(key).windowMs)
    ensures Leaves(cfg, Burst(key, cfg(key)), key, Entry(cfg(key).max, 2 * cfg(key).windowMs),
                   lo, lo + cfg(key).windowMs, 2 * cfg(key).max - 1)
  {
    var w := cfg(key).windowMs;
    CarriesLeaves(cfg, key, lo, lo + w, w - 1, P);
    CarriesLeaves(cfg, key, lo, lo + w, w, P);
    LeavesFirst(cfg, key, lo, lo + w);
    BurstAdmitted(P, key, cfg(key));
  }

  lemma MeansAt(P: (seq<Event>, Entry, nat) -> bool, cfg: string -> Limits, key: string, lo: int, hi: int,
                run: seq<Event>, entry: Entry, n: nat)
    requires Means(P, cfg, key, lo, hi)
    ensures P(run, entry, n) <==> Leaves(cfg, run, key, entry, lo, hi, n)
  {
  }

  lemma CarryOne(cfg: string -> Limits, key: string, lo: int, hi: int, now: nat, P: (seq<Event>, Entry, nat) -> bool,
                 run: seq<Event>, entry: Entry, n: nat)
    requires lo <= now < hi && cfg(key).max > 0 && Means(P, cfg, key, lo, hi)
    requires P(run, entry, n) && (now < entry.resetTimeMs ==> entry.count < cfg(key).max)
    ensures P(run + [Event(key, now)],
              if now < entry.resetTimeMs then entry.(count := entry.count + 1) else Entry(1, now + cfg(key).windowMs),
              n + 1)
  {
    var next := if now < entry.resetTimeMs then entry.(count := entry.count + 1) else Entry(1, now + cfg(key).windowMs);
    MeansAt(P, cfg, key, lo, hi, run, entry, n);
    LeavesNext(cfg, run, key, entry, lo, hi, n, now);
    MeansAt(P, cfg, key, lo, hi, run + [Event(key, now)], next, n + 1);
  }

  lemma CarriesLeaves(cfg: string -> Limits, key: string, lo: int, hi: int, now: nat,
                      P: (seq<Event>, Entry, nat) -> bool)
    requires lo <= now < hi && cfg(key).max > 0 && Means(P, cfg, key, lo, hi)
    ensures Carries(P, key, cfg(key), now)
  {
    forall run, entry, n: nat | P(run, entry, n) && (now < entry.resetTimeMs ==> entry.count < cfg(key).max)
      ensures P(run + [Event(key, now)],
                if now < entry.resetTimeMs then entry.(count := entry.count + 1)
                else Entry(1, now + cfg(key).windowMs),
                n + 1)
    {
      CarryOne(cfg, key, lo, hi, now, P, run, entry, n);
    }
  }

  lemma BurstTimed(key: string, limits: Limits)
    requires limits.max > 0 && limits.windowMs > 1
    ensures Timed(Burst(key, limits))
  {
    RepeatTimes(key, limits.windowMs - 1, limits.max - 1);
    RepeatTimes(key, limits.windowMs, limits.max - 1);
  }

  lemma {:induction false} RepeatTimes(key: string, now: nat, n: nat)
    ensures |Repeat(key, now, n)| == n && forall i :: 0 <= i < n ==> Repeat(key, now, n)[i].now == now
  {
    if n == 0 {
    } else {
      RepeatTimes(key, now, n - 1);
    }
  }

  // --------------------------------------------------- when the maximum holds

  /** A window of one millisecond is never split: it holds at most the maximum. */
  lemma {:induction false} OneMillisecond(cfg: string -> Limits, run: seq<Event>, key: string, lo: int)
    requires Timed(run) && cfg(key).windowMs == 1 && cfg(key).max > 0
    ensures InWindow(AdmittedTimes(cfg, run, key), lo, 1) <= cfg(key).max
    decreases |run|
  {
    if run == [] {
    } else {
      var init, last := run[..|run| - 1], run[|run| - 1];
      var before := AdmittedTimes(cfg, init, key);
      OneMillisecond(cfg, init, key, lo);
      if Admission(cfg, Entries(cfg, init), last, key) == [] {
        assert before + [] == before;
      } else if lo == last.now {
        RunKeepsInv(cfg, run, key);
        OneMillisecondNow(cfg(key), Entries(cfg, run)[key], AdmittedTimes(cfg, run, key), last.now);
      } else {
        CountInSnoc(before, last.now, lo, lo + 1);
      }
    }
  }

  lemma OneMillisecondNow(limits: Limits, entry: Entry, times: seq<nat>, now: nat)
    requires limits.windowMs == 1 && Accounts(limits, entry, times, now)
    requires times != [] && times[|times| - 1] == now
    ensures InWindow(times, now, 1) <= limits.max
  {
    CountInBelowCountFrom(times, now, now + 1, now);
  }

  /** In every run a window's length of time holds at most the maximum. */
  ghost predicate KeepsMaximum(cfg: string -> Limits, key: string) {
    forall run, lo: int :: Timed(run) ==> InWindow(AdmittedTimes(cfg, run, key), lo, cfg(key).windowMs) <= cfg(key).max
  }

  /**
   The limiter keeps a key within its maximum per window length if and only if the maximum is at
   most one, or the window at most a millisecond long.
   */
  lemma MaximumExactly(cfg: string -> Limits, key: string)
    ensures KeepsMaximum(cfg, key) <==> cfg(key).max <= 1 || cfg(key).windowMs <= 1
  {
    if cfg(key).max <= 1 || cfg(key).windowMs <= 1 {
      forall run, lo: int | Timed(run)
        ensures InWindow(AdmittedTimes(cfg, run, key), lo, cfg(key).windowMs) <= cfg(key).max
      {
        SmallLimits(cfg, run, key, lo);
      }
    } else {
      var run := BoundIsMet(cfg, key);
      assert InWindow(AdmittedTimes(cfg, run, key), cfg(key).windowMs - 1, cfg(key).windowMs) > cfg(key).max;
    }
  }

  lemma SmallLimits(cfg: string -> Limits, run: seq<Event>, key: string, lo: int)
    requires Timed(run) && (cfg(key).max <= 1 || cfg(key).windowMs <= 1)
    ensures InWindow(AdmittedTimes(cfg, run, key), lo, cfg(key).windowMs) <= cfg(key).max
  {
    if cfg(key).windowMs == 0 {
      CountInEmpty(AdmittedTimes(cfg, run, key), lo);
    } else if cfg(key).max <= 1 {
      AtMostTwoWindows(cfg, run, key, lo);
    } else {
      OneMillisecond(cfg, run, key, lo);
    }
  }
}
