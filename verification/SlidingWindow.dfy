/** The sliding-window limiter of `paymaster-server/src/rate_limiter.rs`. */
module SlidingWindow {
  import opened Timestamps

  /** `RateLimitWindow`; as a specification, `requests` is the whole history and never pruned. */
  datatype Window = Window(requests: seq<nat>, limit: nat, windowMs: nat)

  datatype Config = Config(limit: nat, windowMs: nat)

  datatype Op =
    | Allowed(key: string)
    | AllowedWithLimits(key: string, limit: nat, windowMs: nat)
    | RequestCount(key: string)
    | Reset(key: string)
    | ClearAll

  datatype Answer = Verdict(allowed: bool) | Count(n: nat) | Done

  datatype Step = Step(windows: map<string, Window>, answer: Answer)

  // ------------------------------------------------------- the implementation

  const U64: int := 0x1_0000_0000_0000_0000

  /** `now - timestamp` on 64-bit unsigned numbers, which wraps when the timestamp is the later one. */
  function Elapsed(now: nat, timestamp: nat): nat {
    if now >= timestamp then now - timestamp else (now - timestamp) % U64
  }

  /** `requests.retain(|&timestamp| now - timestamp < window_ms)`. */
  function Prune(s: seq<nat>, now: nat, windowMs: nat): seq<nat> {
    if s == [] then []
    else
      var last := s[|s| - 1];
      var kept := Prune(s[..|s| - 1], now, windowMs);
      if Elapsed(now, last) < windowMs then kept + [last] else kept
  }

  /** `RateLimitWindow::is_allowed`: prune, then compare, then record. */
  function Admit(windows: map<string, Window>, key: string, w: Window, now: nat): Step {
    var kept := Prune(w.requests, now, w.windowMs);
    if |kept| < w.limit then Step(windows[key := w.(requests := kept + [now])], Verdict(true))
    else Step(windows[key := w.(requests := kept)], Verdict(false))
  }

  function WindowFor(windows: map<string, Window>, key: string, limit: nat, windowMs: nat): Window {
    if key in windows then windows[key] else Window([], limit, windowMs)
  }

  /** The window replaced by an empty one when its limits have changed. */
  function Relimited(w: Window, limit: nat, windowMs: nat): Window {
    if w.limit != limit || w.windowMs != windowMs then Window([], limit, windowMs) else w
  }

  function Apply(cfg: Config, windows: map<string, Window>, op: Op, now: nat): Step {
    match op
    case Allowed(key) => Admit(windows, key, WindowFor(windows, key, cfg.limit, cfg.windowMs), now)
    case AllowedWithLimits(key, limit, windowMs) =>
      Admit(windows, key, Relimited(WindowFor(windows, key, limit, windowMs), limit, windowMs), now)
    case RequestCount(key) =>
      if key in windows then
        var w := windows[key];
        var kept := Prune(w.requests, now, w.windowMs);
        Step(windows[key := w.(requests := kept)], Count(|kept|))
      else Step(windows, Count(0))
    case Reset(key) => Step(windows - {key}, Done)
    case ClearAll => Step(map[], Done)
  }

  class RateLimiter {
    var windows: map<string, Window>
    const cfg: Config

    constructor (limit: nat, windowMs: nat)
      ensures windows == map[] && cfg == Config(limit, windowMs)
    {
      windows := map[];
      cfg := Config(limit, windowMs);
    }

    method IsAllowed(key: string, now: nat) returns (allowed: bool)
      modifies this
      ensures Step(windows, Verdict(allowed)) == Apply(cfg, old(windows), Allowed(key), now)
    {
      if key !in windows {
        windows := windows[key := Window([], cfg.limit, cfg.windowMs)];
      }
      allowed := Check(key, now);
    }

    method IsAllowedWithLimits(key: string, limit: nat, windowMs: nat, now: nat) returns (allowed: bool)
      modifies this
      ensures Step(windows, Verdict(allowed)) == Apply(cfg, old(windows), AllowedWithLimits(key, limit, windowMs), now)
    {
      if key !in windows {
        windows := windows[key := Window([], limit, windowMs)];
      }
      if windows[key].limit != limit || windows[key].windowMs != windowMs {
        windows := windows[key := Window([], limit, windowMs)];
      }
      allowed := Check(key, now);
    }

    /** `RateLimitWindow::is_allowed` on the entry of `key`. */
    method Check(key: string, now: nat) returns (allowed: bool)
      requires key in windows
      modifies this
      ensures Step(windows, Verdict(allowed)) == Admit(old(windows), key, old(windows[key]), now)
    {
      var w := windows[key];
      w := w.(requests := Prune(w.requests, now, w.windowMs));
      if |w.requests| < w.limit {
        w := w.(requests := w.requests + [now]);
        allowed := true;
      } else {
        allowed := false;
      }
      windows := windows[key := w];
    }

    method GetRequestCount(key: string, now: nat) returns (n: nat)
      modifies this
      ensures Step(windows, Count(n)) == Apply(cfg, old(windows), RequestCount(key), now)
    {
      if key in windows {
        var w := windows[key];
        w := w.(requests := Prune(w.requests, now, w.windowMs));
        windows := windows[key := w];
        n := |w.requests|;
      } else {
        n := 0;
      }
    }

    method ClearAllKeys()
      modifies this
      ensures Step(windows, Done) == Apply(cfg, old(windows), ClearAll, 0)
    {
      windows := map[];
    }

    method ResetKey(key: string)
      modifies this
      ensures Step(windows, Done) == Apply(cfg, old(windows), Reset(key), 0)
    {
      windows := windows - {key};
    }
  }

  // ----------------------------------------------------------- the history

  /** The same limiter when nothing is ever pruned: count the admissions inside the window. */
  function SpecAdmit(history: map<string, Window>, key: string, h: Window, now: nat): Step {
    if |Retain(h.requests, now, h.windowMs)| < h.limit
    then Step(history[key := h.(requests := h.requests + [now])], Verdict(true))
    else Step(history[key := h], Verdict(false))
  }

  function SpecApply(cfg: Config, history: map<string, Window>, op: Op, now: nat): Step {
    match op
    case Allowed(key) => SpecAdmit(history, key, WindowFor(history, key, cfg.limit, cfg.windowMs), now)
    case AllowedWithLimits(key, limit, windowMs) =>
      SpecAdmit(history, key, Relimited(WindowFor(history, key, limit, windowMs), limit, windowMs), now)
    case RequestCount(key) =>
      if key in history then Step(history, Count(|Retain(history[key].requests, now, history[key].windowMs)|))
      else Step(history, Count(0))
    case Reset(key) => Step(history - {key}, Done)
    case ClearAll => Step(map[], Done)
  }

  // ------------------------------------------------------------------- runs

  /**
   An operation as it takes the lock, with the clock it read before: overlapping calls may take the
   lock in another order than they read the clock.
   */
  datatype Event = Event(op: Op, now: nat)

  /** The readings are in the order of the operations. */
  ghost predicate Timed(run: seq<Event>) {
    forall i, j :: 0 <= i < j < |run| ==> run[i].now <= run[j].now
  }

  function Clock(run: seq<Event>): nat {
    if run == [] then 0 else run[|run| - 1].now
  }

  function Windows(cfg: Config, run: seq<Event>): map<string, Window> {
    if run == [] then map[]
    else
      var last := run[|run| - 1];
      Apply(cfg, Windows(cfg, run[..|run| - 1]), last.op, last.now).windows
  }

  function History(cfg: Config, run: seq<Event>): map<string, Window> {
    if run == [] then map[]
    else
      var last := run[|run| - 1];
      SpecApply(cfg, History(cfg, run[..|run| - 1]), last.op, last.now).windows
  }

  // --------------------------------------------------------------- refinement

  /** From time `from` on, the two lists agree on what lies in the window. */
  ghost predicate SameRecent(a: seq<nat>, b: seq<nat>, w: nat, from: nat) {
    forall t: nat :: t >= from ==> Retain(a, t, w) == Retain(b, t, w)
  }

  ghost predicate Agree(a: Window, b: Window, from: nat) {
    && a.limit == b.limit && a.windowMs == b.windowMs
    && SameRecent(a.requests, b.requests, a.windowMs, from) && AtMost(a.requests, from)
  }

  ghost predicate Related(windows: map<string, Window>, history: map<string, Window>, from: nat) {
    windows.Keys == history.Keys && forall k :: k in windows ==> Agree(windows[k], history[k], from)
  }

  /** Pruning forgets nothing recent unless the clock reads earlier than a timestamp. */
  lemma {:induction false} PruneRetains(s: seq<nat>, now: nat, w: nat)
    requires AtMost(s, now)
    ensures Prune(s, now, w) == Retain(s, now, w)
  {
    if s == [] {
    } else {
      PruneRetains(s[..|s| - 1], now, w);
      assert Retain(s[..|s| - 1], now, w) + [] == Retain(s[..|s| - 1], now, w);
    }
  }

  lemma {:induction false} PruneWithin(s: seq<nat>, now: nat, w: nat)
    ensures AtMost(s, now) ==> AtMost(Prune(s, now, w), now)
  {
    if s != [] && AtMost(s, now) { PruneWithin(s[..|s| - 1], now, w); }
  }

  lemma PruneAgrees(a: Window, b: Window, from: nat, now: nat)
    requires Agree(a, b, from) && from <= now
    ensures Agree(a.(requests := Prune(a.requests, now, a.windowMs)), b, now)
    ensures Prune(a.requests, now, a.windowMs) == Retain(b.requests, now, a.windowMs)
  {
    PruneRetains(a.requests, now, a.windowMs);
    PruneWithin(a.requests, now, a.windowMs);
    forall t: nat | t >= now
      ensures Retain(Prune(a.requests, now, a.windowMs), t, a.windowMs) == Retain(b.requests, t, a.windowMs)
    {
      RetainTwice(a.requests, now, t, a.windowMs);
    }
  }

  lemma RecordAgrees(a: Window, b: Window, now: nat)
    requires Agree(a, b, now)
    ensures Agree(a.(requests := a.requests + [now]), b.(requests := b.requests + [now]), now)
  {
    forall t: nat | t >= now
      ensures Retain(a.requests + [now], t, a.windowMs) == Retain(b.requests + [now], t, a.windowMs)
    {
      RetainSnoc(a.requests, now, t, a.windowMs);
      RetainSnoc(b.requests, now, t, a.windowMs);
    }
  }

  lemma AdmitAgrees(windows: map<string, Window>, history: map<string, Window>, from: nat,
                    key: string, a: Window, b: Window, now: nat)
    requires Related(windows, history, from) && from <= now && Agree(a, b, from)
    ensures var i, s := Admit(windows, key, a, now), SpecAdmit(history, key, b, now);
            i.answer == s.answer && Related(i.windows, s.windows, now)
  {
    var pruned := a.(requests := Prune(a.requests, now, a.windowMs));
    PruneAgrees(a, b, from, now);
    RecordAgrees(pruned, b, now);
  }

  /** One step: the same answer, and the pruned state still stands for the whole history. */
  lemma StepRefines(cfg: Config, windows: map<string, Window>, history: map<string, Window>, from: nat, e: Event)
    requires Related(windows, history, from) && from <= e.now
    ensures var i, s := Apply(cfg, windows, e.op, e.now), SpecApply(cfg, history, e.op, e.now);
            i.answer == s.answer && Related(i.windows, s.windows, e.now)
  {
    match e.op
    case Allowed(key) =>
      AdmitAgrees(windows, history, from, key, WindowFor(windows, key, cfg.limit, cfg.windowMs),
                  WindowFor(history, key, cfg.limit, cfg.windowMs), e.now);
    case AllowedWithLimits(key, limit, windowMs) =>
      AdmitAgrees(windows, history, from, key, Relimited(WindowFor(windows, key, limit, windowMs), limit, windowMs),
                  Relimited(WindowFor(history, key, limit, windowMs), limit, windowMs), e.now);
    case RequestCount(key) =>
      if key in windows {
        PruneAgrees(windows[key], history[key], from, e.now);
      }
    case Reset(key) =>
    case ClearAll =>
  }

  lemma {:induction false} RunRefines(cfg: Config, run: seq<Event>)
    requires Timed(run)
    ensures Related(Windows(cfg, run), History(cfg, run), Clock(run))
    decreases |run|
  {
    if run == [] {
    } else {
      var init := run[..|run| - 1];
      RunRefines(cfg, init);
      StepRefines(cfg, Windows(cfg, init), History(cfg, init), Clock(init), run[|run| - 1]);
    }
  }

  /** After every run, each request is answered as the full admission history would answer it. */
  lemma AnswersFromHistory(cfg: Config, run: seq<Event>, e: Event)
    requires Timed(run + [e])
    ensures Apply(cfg, Windows(cfg, run), e.op, e.now).answer == SpecApply(cfg, History(cfg, run), e.op, e.now).answer
  {
    TimedPrefix(run, e);
    RunRefines(cfg, run);
    StepRefines(cfg, Windows(cfg, run), History(cfg, run), Clock(run), e);
  }

  lemma TimedPrefix(run: seq<Event>, e: Event)
    requires Timed(run + [e])
    ensures Timed(run) && Clock(run) <= e.now
  {
    assert forall i :: 0 <= i < |run| ==> run[i] == (run + [e])[i];
    assert (run + [e])[|run|] == e;
  }

  // ------------------------------------------------------ counting is harmless

  function WithoutCounts(run: seq<Event>): seq<Event> {
    if run == [] then []
    else
      var last := run[|run| - 1];
      WithoutCounts(run[..|run| - 1]) + if last.op.RequestCount? then [] else [last]
  }

  lemma {:induction false} CountsLeaveHistory(cfg: Config, run: seq<Event>)
    ensures History(cfg, WithoutCounts(run)) == History(cfg, run)
    decreases |run|
  {
    if run == [] {
    } else {
      var init, last := run[..|run| - 1], run[|run| - 1];
      CountsLeaveHistory(cfg, init);
      if !last.op.RequestCount? {
        assert (WithoutCounts(init) + [last])[..|WithoutCounts(init)|] == WithoutCounts(init);
      } else {
        assert WithoutCounts(init) + [] == WithoutCounts(init);
      }
    }
  }

  lemma {:induction false} WithoutCountsTimed(run: seq<Event>, e: Event)
    requires Timed(run + [e])
    ensures Timed(WithoutCounts(run) + [e])
    ensures forall x :: x in WithoutCounts(run) ==> x in run
    decreases |run|
  {
    if run == [] {
    } else {
      var init, last := run[..|run| - 1], run[|run| - 1];
      TimedPrefix(run, e);
      assert run == init + [last];
      WithoutCountsTimed(init, last);
      var kept := WithoutCounts(init);
      assert (run + [e])[|run|] == e;
      forall x | x in kept
        ensures x.now <= e.now
      {
        var i :| 0 <= i < |init| && init[i] == x;
        assert (run + [e])[i] == x;
      }
      assert last.now <= e.now;
      forall i, j | 0 <= i < j < |WithoutCounts(run) + [e]|
        ensures (WithoutCounts(run) + [e])[i].now <= (WithoutCounts(run) + [e])[j].now
      {
        var all := WithoutCounts(run) + [e];
        if j == |all| - 1 {
          assert all[i] in kept || all[i] == last;
        } else {
          assert all[i] == (kept + [last])[i] && all[j] == (kept + [last])[j];
        }
      }
    }
  }

  /** Any number of `get_request_count` calls, anywhere in a run, never changes a later answer. */
  lemma CountsChangeNothing(cfg: Config, run: seq<Event>, e: Event)
    requires Timed(run + [e])
    ensures Apply(cfg, Windows(cfg, run), e.op, e.now).answer ==
            Apply(cfg, Windows(cfg, WithoutCounts(run)), e.op, e.now).answer
  {
    AnswersFromHistory(cfg, run, e);
    CountsLeaveHistory(cfg, run);
    WithoutCountsTimed(run, e);
    AnswersFromHistory(cfg, WithoutCounts(run), e);
  }

  // ---------------------------------------------------------- window bound

  ghost predicate WindowSpaced(w: Window, clock: nat) {
    Spaced(w.requests, w.limit, w.windowMs) && AtMost(w.requests, clock)
  }

  ghost predicate AllSpaced(history: map<string, Window>, clock: nat) {
    forall k :: k in history ==> WindowSpaced(history[k], clock)
  }

  lemma WindowSpacedNext(h: Window, clock: nat, now: nat)
    requires WindowSpaced(h, clock) && clock <= now
    ensures WindowSpaced(h, now)
    ensures |Retain(h.requests, now, h.windowMs)| < h.limit ==> WindowSpaced(h.(requests := h.requests + [now]), now)
  {
    if |Retain(h.requests, now, h.windowMs)| < h.limit {
      SpacedSnoc(h.requests, h.limit, h.windowMs, now);
    }
  }

  lemma SpecAdmitSpaced(history: map<string, Window>, clock: nat, key: string, h: Window, now: nat)
    requires AllSpaced(history, clock) && WindowSpaced(h, clock) && clock <= now
    ensures AllSpaced(SpecAdmit(history, key, h, now).windows, now)
  {
    WindowSpacedNext(h, clock, now);
    forall k | k in history
      ensures WindowSpaced(history[k], now)
    {
      WindowSpacedNext(history[k], clock, now);
    }
  }

  lemma SpecStepSpaced(cfg: Config, history: map<string, Window>, clock: nat, e: Event)
    requires AllSpaced(history, clock) && clock <= e.now
    ensures AllSpaced(SpecApply(cfg, history, e.op, e.now).windows, e.now)
  {
    match e.op
    case Allowed(key) =>
      SpecAdmitSpaced(history, clock, key, WindowFor(history, key, cfg.limit, cfg.windowMs), e.now);
    case AllowedWithLimits(key, limit, windowMs) =>
      SpecAdmitSpaced(history, clock, key,
                      Relimited(WindowFor(history, key, limit, windowMs), limit, windowMs), e.now);
    case RequestCount(key) =>
    case Reset(key) =>
    case ClearAll =>
  }

  lemma {:induction false} RunSpaced(cfg: Config, run: seq<Event>)
    requires Timed(run)
    ensures AllSpaced(History(cfg, run), Clock(run))
    decreases |run|
  {
    if run == [] {
    } else {
      var init := run[..|run| - 1];
      RunSpaced(cfg, init);
      SpecStepSpaced(cfg, History(cfg, init), Clock(init), run[|run| - 1]);
    }
  }

  /** A request or a count under the limits `cfg`. */
  predicate KeepsLimits(cfg: Config, op: Op) {
    match op
    case Allowed(_) => true
    case AllowedWithLimits(_, limit, windowMs) => limit == cfg.limit && windowMs == cfg.windowMs
    case RequestCount(_) => true
    case Reset(_) => false
    case ClearAll => false
  }

  /** The limits stay at `cfg` and nothing is reset. */
  ghost predicate FixedLimits(cfg: Config, run: seq<Event>) {
    forall i :: 0 <= i < |run| ==> KeepsLimits(cfg, run[i].op)
  }

  /** `now` when the limiter said yes to `key`. */
  function Admission(e: Event, answer: Answer, key: string): seq<nat> {
    if (e.op.Allowed? || e.op.AllowedWithLimits?) && e.op.key == key && answer == Verdict(true) then [e.now] else []
  }

  /** The times at which the limiter said yes to `key`. */
  function AdmittedTimes(cfg: Config, run: seq<Event>, key: string): seq<nat> {
    if run == [] then []
    else
      var init, last := run[..|run| - 1], run[|run| - 1];
      AdmittedTimes(cfg, init, key) + Admission(last, Apply(cfg, Windows(cfg, init), last.op, last.now).answer, key)
  }

  ghost predicate LimitedBy(cfg: Config, history: map<string, Window>) {
    forall k :: k in history ==> history[k].limit == cfg.limit && history[k].windowMs == cfg.windowMs
  }

  function Requests(history: map<string, Window>, key: string): seq<nat> {
    if key in history then history[key].requests else []
  }

  lemma HistoryStep(cfg: Config, history: map<string, Window>, e: Event, key: string)
    requires LimitedBy(cfg, history) && KeepsLimits(cfg, e.op)
    ensures var s := SpecApply(cfg, history, e.op, e.now);
            && LimitedBy(cfg, s.windows)
            && Requests(s.windows, key) == Requests(history, key) + Admission(e, s.answer, key)
  {
    assert Requests(history, key) + [] == Requests(history, key);
  }

  lemma {:induction false} HistoryIsAdmittedTimes(cfg: Config, run: seq<Event>, key: string)
    requires Timed(run) && FixedLimits(cfg, run)
    ensures LimitedBy(cfg, History(cfg, run))
    ensures AdmittedTimes(cfg, run, key) == Requests(History(cfg, run), key)
    decreases |run|
  {
    if run == [] {
    } else {
      var init, last := run[..|run| - 1], run[|run| - 1];
      assert run == init + [last];
      HistoryIsAdmittedTimes(cfg, init, key);
      AnswersFromHistory(cfg, init, last);
      HistoryStep(cfg, History(cfg, init), last, key);
    }
  }

  /** In every run with fixed limits, any half-open window holds at most `limit` admissions of a key. */
  lemma AtMostLimitPerWindow(cfg: Config, run: seq<Event>, key: string, lo: int)
    requires Timed(run) && FixedLimits(cfg, run)
    ensures CountIn(AdmittedTimes(cfg, run, key), lo, lo + cfg.windowMs) <= cfg.limit
  {
    HistoryIsAdmittedTimes(cfg, run, key);
    var history := History(cfg, run);
    RunSpaced(cfg, run);
    if key in history {
      SpacedBound(history[key].requests, cfg.limit, cfg.windowMs, lo);
    }
  }
}
