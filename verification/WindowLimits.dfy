/** The answers of the sliding-window limiter, by the calls of the run alone. */
module WindowLimits {
  import opened Timestamps
  import opened SlidingWindow

  datatype Limits = Unset | Set(limit: nat, windowMs: nat)

  /**
   The limits a key has after a run: those of its last call with limits of its own, else the default
   once it was called at all; a reset forgets them.
   */
  function LimitsOf(cfg: Config, run: seq<Event>, key: string): Limits {
    if run == [] then Unset
    else
      var before := LimitsOf(cfg, run[..|run| - 1], key);
      match run[|run| - 1].op
      case Allowed(k) => if k == key && before.Unset? then Set(cfg.limit, cfg.windowMs) else before
      case AllowedWithLimits(k, limit, windowMs) => if k == key then Set(limit, windowMs) else before
      case RequestCount(_) => before
      case Reset(k) => if k == key then Unset else before
      case ClearAll => Unset
  }

  /** What the limiter answers to the last call of a run. */
  function LastAnswer(cfg: Config, run: seq<Event>): Answer
    requires run != []
  {
    var last := run[|run| - 1];
    Apply(cfg, Windows(cfg, run[..|run| - 1]), last.op, last.now).answer
  }

  /** The times at which a key was admitted since its limits last changed or it was last reset. */
  function Admitted(cfg: Config, run: seq<Event>, key: string): seq<nat> {
    if run == [] then []
    else
      var init, last := run[..|run| - 1], run[|run| - 1];
      var before := if LimitsOf(cfg, run, key) == LimitsOf(cfg, init, key) then Admitted(cfg, init, key) else [];
      if Asks(last.op, key) && LastAnswer(cfg, run) == Verdict(true) then before + [last.now] else before
  }

  predicate Asks(op: Op, key: string) {
    (op.Allowed? || op.AllowedWithLimits?) && op.key == key
  }

  /** How many of the admissions are younger than the window at `now`. */
  function Recent(times: seq<nat>, now: nat, windowMs: nat): nat {
    CountIn(times, now - windowMs + 1, now + 1)
  }

  // ----------------------------------------------------------- the history

  lemma {:induction false} RetainCounts(s: seq<nat>, now: nat, w: nat)
    requires AtMost(s, now)
    ensures |Retain(s, now, w)| == Recent(s, now, w)
  {
    if s == [] {
    } else {
      RetainCounts(s[..|s| - 1], now, w);
    }
  }

  /** The entry a key has in the history. */
  ghost predicate Kept(history: map<string, Window>, key: string, limits: Limits, times: seq<nat>) {
    && (limits.Unset? ==> key !in history && times == [])
    && (limits.Set? ==> key in history && history[key] == Window(times, limits.limit, limits.windowMs))
  }

  /** One step of the history, and what becomes of the limits and the admissions of a key. */
  lemma StepKept(cfg: Config, history: map<string, Window>, e: Event, key: string, was: Limits, times: seq<nat>,
                 next: Limits, answer: Answer)
    requires Kept(history, key, was, times) && answer == SpecApply(cfg, history, e.op, e.now).answer
    requires match e.op
             case Allowed(k) => next == if k == key && was.Unset? then Set(cfg.limit, cfg.windowMs) else was
             case AllowedWithLimits(k, limit, windowMs) => next == if k == key then Set(limit, windowMs) else was
             case RequestCount(_) => next == was
             case Reset(k) => next == if k == key then Unset else was
             case ClearAll => next == Unset
    ensures var before := if next == was then times else [];
            Kept(SpecApply(cfg, history, e.op, e.now).windows, key, next,
                 if Asks(e.op, key) && answer == Verdict(true) then before + [e.now] else before)
  {
  }

  lemma {:induction false} RunKept(cfg: Config, run: seq<Event>, key: string)
    requires Timed(run)
    ensures Kept(History(cfg, run), key, LimitsOf(cfg, run, key), Admitted(cfg, run, key))
    decreases |run|
  {
    if run == [] {
    } else {
      var init, last := run[..|run| - 1], run[|run| - 1];
      assert run == init + [last];
      RunKept(cfg, init, key);
      AnswersFromHistory(cfg, init, last);
      StepKept(cfg, History(cfg, init), last, key, LimitsOf(cfg, init, key), Admitted(cfg, init, key),
               LimitsOf(cfg, run, key), LastAnswer(cfg, run));
    }
  }

  lemma {:induction false} AdmittedPast(cfg: Config, run: seq<Event>, key: string, now: nat)
    requires Timed(run) && Clock(run) <= now
    ensures AtMost(Admitted(cfg, run, key), now)
    decreases |run|
  {
    if run == [] {
    } else {
      AdmittedPast(cfg, run[..|run| - 1], key, now);
    }
  }

  // ------------------------------------------------------------ the theorem

  /** What the limiter has to answer, given a key's limits and its admissions under them. */
  ghost predicate Due(cfg: Config, op: Op, now: nat, limits: Limits, times: seq<nat>, answer: Answer) {
    match op
    case Allowed(_) =>
      if limits.Unset? then answer == Verdict(0 < cfg.limit)
      else answer == Verdict(Recent(times, now, limits.windowMs) < limits.limit)
    case AllowedWithLimits(_, limit, windowMs) =>
      if limits == Set(limit, windowMs) then answer == Verdict(Recent(times, now, windowMs) < limit)
      else answer == Verdict(0 < limit)
    case RequestCount(_) =>
      answer == Count(if limits.Unset? then 0 else Recent(times, now, limits.windowMs))
    case _ => answer == Done
  }

  lemma SpecDue(cfg: Config, history: map<string, Window>, key: string, op: Op, now: nat, limits: Limits,
                times: seq<nat>)
    requires Kept(history, key, limits, times) && AtMost(times, now)
    requires op.Allowed? || op.AllowedWithLimits? || op.RequestCount? ==> op.key == key
    ensures Due(cfg, op, now, limits, times, SpecApply(cfg, history, op, now).answer)
  {
    if limits.Set? { RetainCounts(times, now, limits.windowMs); }
  }

  /**
   In every run a call is answered by the limits its key has then, and by the admissions since they
   last changed: an unlimited call is judged by the key's own limits even where they are not the
   default, a call with other limits starts anew under them, and a reset brings the default back.
   */
  lemma AnswersFromRun(cfg: Config, run: seq<Event>, e: Event, key: string)
    requires Timed(run + [e])
    requires e.op.Allowed? || e.op.AllowedWithLimits? || e.op.RequestCount? ==> e.op.key == key
    ensures Due(cfg, e.op, e.now, LimitsOf(cfg, run, key), Admitted(cfg, run, key),
                Apply(cfg, Windows(cfg, run), e.op, e.now).answer)
  {
    TimedPrefix(run, e);
    AnswersFromHistory(cfg, run, e);
    RunKept(cfg, run, key);
    AdmittedPast(cfg, run, key, e.now);
    SpecDue(cfg, History(cfg, run), key, e.op, e.now, LimitsOf(cfg, run, key), Admitted(cfg, run, key));
  }
}
