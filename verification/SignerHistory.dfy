/** What the reports and revalidations of a run make of an account of the signer pool. */
module SignerHistory {
  import opened Prelude
  import opened Pipeline
  import SP = SignerPool

  datatype News = Success(account: nat) | Failure(account: nat) | Restored(account: nat) | Silence

  /**
   What an action tells the pool: the answer reported for the account a task leased, or the answer
   a revalidation got for an account it found inactive.
   */
  ghost function NewsOf(s: State, a: Action): News {
    match a
    case Report(t) =>
      if t < |s.tasks| && s.tasks[t].phase.Answered? then
        var signer := s.tasks[t].phase.signer;
        if s.tasks[t].phase.ok then Success(signer) else Failure(signer)
      else Silence
    case Revalidate(index, _, wasActive) => if wasActive then Silence else Restored(index)
    case _ => Silence
  }

  /** The news of a run, one entry an action. */
  ghost function History(cfg: Config, n: nat, run: seq<Action>): (h: seq<News>)
    ensures |h| == |run|
  {
    if run == [] then []
    else
      var before := run[..|run| - 1];
      History(cfg, n, before) + [NewsOf(After(cfg, n, before), run[|run| - 1])]
  }

  /** The failures of an account since its last success or restoration. */
  function Streak(h: seq<News>, i: nat): nat {
    if h == [] then 0
    else
      var last := h[|h| - 1];
      if last == Success(i) || last == Restored(i) then 0
      else Streak(h[..|h| - 1], i) + if last == Failure(i) then 1 else 0
  }

  /** Three failures in a row, at `a`, `b` and `c`, and no restoration since. */
  ghost predicate Struck(h: seq<News>, i: nat, a: nat, b: nat, c: nat) {
    && a < b < c < |h| && h[a] == h[b] == h[c] == Failure(i)
    && (forall k :: a < k < c ==> h[k] != Success(i) && h[k] != Restored(i))
    && (forall k :: c < k < |h| ==> h[k] != Restored(i))
  }

  // ------------------------------------------------------------- one step

  /** What a step does to one account, by the news it carries. */
  ghost predicate Follows(x: SP.Account, y: SP.Account, i: nat, news: News) {
    && y.failures == (if news == Success(i) || news == Restored(i) then 0
                      else if news == Failure(i) then x.failures + 1
                      else x.failures)
    && (y.active <==> news == Restored(i) || (x.active && !(news == Failure(i) && x.failures + 1 >= 3)))
  }

  lemma StepFollows(cfg: Config, s: State, a: Action, i: nat)
    requires i < |s.accounts|
    ensures |Step(cfg, s, a).accounts| == |s.accounts|
    ensures Follows(s.accounts[i], Step(cfg, s, a).accounts[i], i, NewsOf(s, a))
  {
  }

  // --------------------------------------------------- a streak in the history

  /** The last failure of a streak, and the streak before it. */
  lemma {:induction false} LastOfStreak(h: seq<News>, i: nat) returns (c: nat)
    requires Streak(h, i) >= 1
    ensures c < |h| && h[c] == Failure(i) && Streak(h[..c], i) == Streak(h, i) - 1
    ensures forall k :: c < k < |h| ==> h[k] != Success(i) && h[k] != Restored(i) && h[k] != Failure(i)
  {
    c := |h| - 1;
    if h[c] != Failure(i) {
      var before := h[..c];
      c := LastOfStreak(before, i);
      assert before[..c] == h[..c];
    }
  }

  lemma {:induction false} StreakReaches(h: seq<News>, i: nat, c: nat)
    requires c < |h| && h[c] == Failure(i)
    requires forall k :: c < k < |h| ==> h[k] != Success(i) && h[k] != Restored(i)
    ensures Streak(h, i) >= Streak(h[..c], i) + 1
  {
    if c < |h| - 1 {
      var before := h[..|h| - 1];
      StreakReaches(before, i, c);
      assert before[..c] == h[..c];
    }
  }

  lemma StreakOfThree(h: seq<News>, i: nat) returns (a: nat, b: nat, c: nat)
    requires |h| > 0 && h[|h| - 1] == Failure(i) && Streak(h, i) >= 3
    ensures c == |h| - 1 && Struck(h, i, a, b, c)
  {
    c := LastOfStreak(h, i);
    b := LastOfStreak(h[..c], i);
    assert h[..c][..b] == h[..b];
    a := LastOfStreak(h[..b], i);
  }

  lemma StruckIsStreak(h: seq<News>, i: nat, a: nat, b: nat, c: nat)
    requires Struck(h, i, a, b, c) && c == |h| - 1
    ensures Streak(h, i) >= 3
  {
    assert h[..c][..b] == h[..b] && h[..b][..a] == h[..a];
    StreakReaches(h[..b], i, a);
    StreakReaches(h[..c], i, b);
    StreakReaches(h, i, c);
  }

  ghost predicate IsStruck(h: seq<News>, i: nat) {
    exists a, b, c :: Struck(h, i, a, b, c)
  }

  /** What one more entry changes of being struck. */
  lemma StruckStep(h: seq<News>, last: News, next: seq<News>, i: nat)
    requires next == h + [last]
    ensures IsStruck(next, i) <==>
            last != Restored(i) && (IsStruck(h, i) || (last == Failure(i) && Streak(next, i) >= 3))
  {
    assert next[|h|] == last && forall k :: 0 <= k < |h| ==> h[k] == next[k];
    if IsStruck(next, i) {
      var a, b, c :| Struck(next, i, a, b, c);
      if c == |h| {
        StruckIsStreak(next, i, a, b, c);
      } else {
        assert Struck(h, i, a, b, c);
      }
    }
    if last != Restored(i) && IsStruck(h, i) {
      var a, b, c :| Struck(h, i, a, b, c);
      assert Struck(next, i, a, b, c);
    }
    if last == Failure(i) && Streak(next, i) >= 3 {
      var a, b, c := StreakOfThree(next, i);
    }
  }

  // ----------------------------------------------------------- the theorems

  /**
   In every run an account's counter is its failures in a row, and the account is inactive exactly
   when it was told of three failures with no success or restoration among them, and of no
   restoration since.
   */
  lemma {:induction false} InactiveExactly(cfg: Config, n: nat, run: seq<Action>, i: nat)
    requires i < n
    ensures |After(cfg, n, run).accounts| == n
    ensures After(cfg, n, run).accounts[i].failures == Streak(History(cfg, n, run), i)
    ensures !After(cfg, n, run).accounts[i].active <==>
            exists a, b, c :: Struck(History(cfg, n, run), i, a, b, c)
    decreases |run|
  {
    if run == [] {
    } else {
      var before := run[..|run| - 1];
      InactiveExactly(cfg, n, before, i);
      StepFollows(cfg, After(cfg, n, before), run[|run| - 1], i);
      var h, next := History(cfg, n, before), History(cfg, n, run);
      assert next[..|h|] == h;
      StruckStep(h, next[|h|], next, i);
    }
  }

  /** The phase of a task, `Waiting` for one that has not started. */
  function PhaseOf(s: State, t: nat): Phase {
    if t < |s.tasks| then s.tasks[t].phase else Waiting
  }

  lemma AnsweredStep(cfg: Config, s: State, a: Action, t: nat)
    requires PhaseOf(Step(cfg, s, a), t).Answered?
    ensures var p := PhaseOf(Step(cfg, s, a), t);
            || (PhaseOf(s, t) == p && a != Report(t))
            || (PhaseOf(s, t) == Recorded(p.signer) && a == Submit(t, p.ok))
  {
  }

  ghost predicate AnswersDue(t: nat, phase: seq<Action> -> Phase) {
    && !phase([]).Answered?
    && forall run, a :: phase(run + [a]).Answered? ==>
         || (phase(run) == phase(run + [a]) && a != Report(t))
         || (phase(run) == Recorded(phase(run + [a]).signer) && a == Submit(t, phase(run + [a]).ok))
  }

  lemma {:induction false} AnswerGiven(t: nat, phase: seq<Action> -> Phase, run: seq<Action>) returns (k: nat)
    requires AnswersDue(t, phase) && phase(run).Answered?
    ensures k < |run| && run[k] == Submit(t, phase(run).ok) && phase(run[..k]) == Recorded(phase(run).signer)
    ensures forall j :: k <= j < |run| ==> run[j] != Report(t)
    decreases |run|
  {
    k := |run| - 1;
    var before, last := run[..k], run[k];
    assert run == before + [last];
    if phase(before) == phase(run) && last != Report(t) {
      k := AnswerGiven(t, phase, before);
      assert before[..k] == run[..k];
    }
  }

  lemma AnsweredNext(cfg: Config, n: nat, run: seq<Action>, a: Action, t: nat)
    requires PhaseOf(After(cfg, n, run + [a]), t).Answered?
    ensures var p := PhaseOf(After(cfg, n, run + [a]), t);
            || (PhaseOf(After(cfg, n, run), t) == p && a != Report(t))
            || (PhaseOf(After(cfg, n, run), t) == Recorded(p.signer) && a == Submit(t, p.ok))
  {
    assert (run + [a])[..|run|] == run;
    AnsweredStep(cfg, After(cfg, n, run), a, t);
  }

  /** An answer waiting to be reported is the one Horizon gave, for the signer the task has held since. */
  lemma AnsweredBySubmit(cfg: Config, n: nat, run: seq<Action>, t: nat) returns (k: nat)
    requires PhaseOf(After(cfg, n, run), t).Answered?
    ensures k < |run| && run[k] == Submit(t, PhaseOf(After(cfg, n, run), t).ok)
    ensures PhaseOf(After(cfg, n, run[..k]), t) == Recorded(PhaseOf(After(cfg, n, run), t).signer)
    ensures forall j :: k <= j < |run| ==> run[j] != Report(t)
  {
    var phase := (r: seq<Action>) => PhaseOf(After(cfg, n, r), t);
    forall r, a | phase(r + [a]).Answered?
      ensures || (phase(r) == phase(r + [a]) && a != Report(t))
              || (phase(r) == Recorded(phase(r + [a]).signer) && a == Submit(t, phase(r + [a]).ok))
    {
      AnsweredNext(cfg, n, r, a, t);
    }
    k := AnswerGiven(t, phase, run);
  }
}
