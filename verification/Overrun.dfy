/** The quota bound is exact: concurrent requests really do overrun the quota by that much. */
module Overrun {
  import opened Prelude
  import opened Sums
  import opened Pipeline
  import opened Quota
  import SP = SignerPool

  /** Requests with one key, at most `n` of them between check and push, with fees of at most `f`. */
  datatype Plan = Plan(key: ApiKey, n: nat, f: nat)

  /** `after` gives the state after a run. */
  ghost predicate Follows(cfg: Config, after: seq<Action> -> State) {
    forall run, a {:trigger Step(cfg, after(run), a)} :: after(run + [a]) == Step(cfg, after(run), a)
  }

  /** A run that ends in `s` and keeps to the plan. */
  ghost predicate Reaches(after: seq<Action> -> State, run: seq<Action>, s: State, p: Plan) {
    after(run) == s && forall k :: 0 <= k <= |run| ==> Crowd(after(run[..k]), p.key.tenant, p.n, p.f)
  }

  lemma ReachesNext(cfg: Config, after: seq<Action> -> State, run: seq<Action>, s: State, p: Plan, a: Action)
    returns (more: seq<Action>)
    requires Follows(cfg, after) && Reaches(after, run, s, p) && Crowd(Step(cfg, s, a), p.key.tenant, p.n, p.f)
    ensures Reaches(after, more, Step(cfg, s, a), p)
  {
    more := run + [a];
    assert after(more) == Step(cfg, after(run), a);
    forall k | 0 <= k <= |more|
      ensures Crowd(after(more[..k]), p.key.tenant, p.n, p.f)
    {
      if k <= |run| {
        assert more[..k] == run[..k];
      } else {
        assert more[..k] == more;
      }
    }
  }

  // ------------------------------------------------------------------- stages

  /**
   Midnight of the first day, one active signer, `spent` in the tenant's ledger and `cleared` of
   its requests between check and push.
   */
  ghost predicate Stage(s: State, p: Plan, spent: nat, cleared: nat) {
    && s.clock == 0 && |s.accounts| == 1 && s.accounts[0].active
    && SumBy(s.ledger, Counted(p.key.tenant, 0)) == spent
    && SumBy(s.tasks, PendingOne(p.key.tenant)) == cleared
    && AllWithin(s.tasks, p)
  }

  ghost predicate AllWithin(tasks: seq<Task>, p: Plan) {
    forall task :: task in tasks ==> task.key == p.key && PendingFee(p.key.tenant)(task) <= p.f
  }

  lemma StageCrowd(s: State, p: Plan, spent: nat, cleared: nat)
    requires Stage(s, p, spent, cleared) && cleared <= p.n
    ensures Crowd(s, p.key.tenant, p.n, p.f)
  {
  }

  lemma {:induction false} ReadAtMidnight(ledger: seq<Record>, tenant: string)
    ensures ReadSpend(ledger, seq(|ledger|, _ => 0), tenant) == SumBy(ledger, Counted(tenant, 0))
  {
    if ledger == [] {
    } else {
      var n := |ledger| - 1;
      ReadAtMidnight(ledger[..n], tenant);
      var zeros: seq<nat> := seq(|ledger|, _ => 0);
      assert zeros[..n] == seq(n, _ => 0);
      assert DayStart(0) == 0;
    }
  }

  lemma ChooseOnly(accounts: seq<SP.Account>)
    requires |accounts| == 1 && accounts[0].active
    ensures SP.Choose(accounts) == Some(0)
  {
    assert accounts[..0] == [];
  }

  function NewTask(key: ApiKey, phase: Phase): Task {
    Task(key, false, 0, phase)
  }

  function Leasing(s: State): State
    requires |s.accounts| == 1
  {
    s.(accounts := [SP.Leased(s.accounts[0])])
  }

  function With(s: State, key: ApiKey, phase: Phase): State {
    s.(tasks := s.tasks + [NewTask(key, phase)])
  }

  lemma StepStart(cfg: Config, s: State, key: ApiKey)
    ensures Step(cfg, s, Start(key, false, 1)) == With(s, key, Waiting)
  {
  }

  lemma StepAcquire(cfg: Config, s: State, key: ApiKey)
    requires |s.accounts| == 1 && s.accounts[0].active
    ensures Step(cfg, With(s, key, Waiting), Acquire(|s.tasks|)) == With(Leasing(s), key, Leased(0))
  {
    ChooseOnly(s.accounts);
    var t := |s.tasks|;
    assert With(s, key, Waiting).tasks[t := NewTask(key, Leased(0))] == With(s, key, Leased(0)).tasks;
    assert s.accounts[0 := SP.Leased(s.accounts[0])] == [SP.Leased(s.accounts[0])];
  }

  lemma StepCreate(cfg: Config, s: State, key: ApiKey, fee: nat)
    ensures Step(cfg, With(s, key, Leased(0)), Create(|s.tasks|, fee)) == With(s, key, Priced(0, fee))
  {
    var t := |s.tasks|;
    assert With(s, key, Leased(0)).tasks[t := NewTask(key, Priced(0, fee))] == With(s, key, Priced(0, fee)).tasks;
  }

  /** The check of a request whose predecessors' records are all read at midnight. */
  function MidnightCheck(s: State): Action {
    CheckQuota(|s.tasks|, seq(|s.ledger|, _ => 0), 0)
  }

  lemma StepCheck(cfg: Config, s: State, key: ApiKey, fee: nat)
    requires s.clock == 0 && SumBy(s.ledger, Counted(key.tenant, 0)) + fee <= key.quota
    ensures Step(cfg, With(s, key, Priced(0, fee)), MidnightCheck(s)) == With(s, key, Cleared(0, fee))
  {
    ReadAtMidnight(s.ledger, key.tenant);
    var t := |s.tasks|;
    assert With(s, key, Priced(0, fee)).tasks[t := NewTask(key, Cleared(0, fee))] ==
        With(s, key, Cleared(0, fee)).tasks;
  }

  lemma WithStage(s: State, p: Plan, spent: nat, cleared: nat, phase: Phase)
    requires Stage(s, p, spent, cleared) && (phase.Cleared? ==> phase.fee <= p.f)
    ensures Stage(With(s, p.key, phase), p, spent, cleared + if phase.Cleared? then 1 else 0)
  {
    SumAppend(s.tasks, NewTask(p.key, phase), PendingOne(p.key.tenant));
  }

  /** The four steps of one more request that is checked and not yet pushed. */
  lemma OneMoreChecked(cfg: Config, after: seq<Action> -> State, run: seq<Action>, s: State, p: Plan,
                       spent: nat, cleared: nat, fee: nat)
    returns (more: seq<Action>)
    requires Follows(cfg, after) && Reaches(after, run, s, p) && Stage(s, p, spent, cleared)
    requires cleared < p.n && fee <= p.f && spent + fee <= p.key.quota
    ensures Reaches(after, more, With(Leasing(s), p.key, Cleared(0, fee)), p)
    ensures Stage(With(Leasing(s), p.key, Cleared(0, fee)), p, spent, cleared + 1)
  {
    StepStart(cfg, s, p.key);
    WithStage(s, p, spent, cleared, Waiting);
    StageCrowd(With(s, p.key, Waiting), p, spent, cleared);
    more := ReachesNext(cfg, after, run, s, p, Start(p.key, false, 1));
    more := CheckStarted(cfg, after, more, s, p, spent, cleared, fee);
  }

  lemma CheckStarted(cfg: Config, after: seq<Action> -> State, run: seq<Action>, s: State, p: Plan,
                     spent: nat, cleared: nat, fee: nat)
    returns (more: seq<Action>)
    requires Follows(cfg, after) && Reaches(after, run, With(s, p.key, Waiting), p) && Stage(s, p, spent, cleared)
    requires cleared < p.n && fee <= p.f && spent + fee <= p.key.quota
    ensures Reaches(after, more, With(Leasing(s), p.key, Cleared(0, fee)), p)
    ensures Stage(With(Leasing(s), p.key, Cleared(0, fee)), p, spent, cleared + 1)
  {
    var s', t := Leasing(s), |s.tasks|;
    StepAcquire(cfg, s, p.key);
    WithStage(s', p, spent, cleared, Leased(0));
    StageCrowd(With(s', p.key, Leased(0)), p, spent, cleared);
    more := ReachesNext(cfg, after, run, With(s, p.key, Waiting), p, Acquire(t));
    StepCreate(cfg, s', p.key, fee);
    WithStage(s', p, spent, cleared, Priced(0, fee));
    StageCrowd(With(s', p.key, Priced(0, fee)), p, spent, cleared);
    more := ReachesNext(cfg, after, more, With(s', p.key, Leased(0)), p, Create(t, fee));
    StepCheck(cfg, s', p.key, fee);
    WithStage(s', p, spent, cleared, Cleared(0, fee));
    StageCrowd(With(s', p.key, Cleared(0, fee)), p, spent, cleared + 1);
    more := ReachesNext(cfg, after, more, With(s', p.key, Priced(0, fee)), p, MidnightCheck(s'));
  }

  function PushedState(s: State, t: nat): State
    requires t < |s.tasks| && s.tasks[t].phase.Cleared?
  {
    To(s, t, Recorded(s.tasks[t].phase.signer))
    .(ledger := s.ledger + [Record(0, s.tasks[t].phase.fee, s.tasks[t].key.tenant)])
  }

  lemma PushStage(s: State, p: Plan, spent: nat, cleared: nat, t: nat)
    requires Stage(s, p, spent, cleared) && t < |s.tasks| && s.tasks[t].phase.Cleared?
    ensures cleared >= 1 && Stage(PushedState(s, t), p, spent + s.tasks[t].phase.fee, cleared - 1)
  {
    var task := s.tasks[t].(phase := Recorded(s.tasks[t].phase.signer));
    assert s.tasks[t] in s.tasks;
    SumUpdate(s.tasks, t, task, PendingOne(p.key.tenant));
    SumAppend(s.ledger, Record(0, s.tasks[t].phase.fee, p.key.tenant), Counted(p.key.tenant, 0));
    forall x | x in s.tasks[t := task]
      ensures x.key == p.key && PendingFee(p.key.tenant)(x) <= p.f
    {
      if x != task { assert x in s.tasks; }
    }
  }

  lemma StepPush(cfg: Config, s: State, t: nat)
    requires s.clock == 0 && t < |s.tasks| && s.tasks[t].phase.Cleared?
    ensures Step(cfg, s, Push(t, 0)) == PushedState(s, t)
  {
  }

  lemma OneMorePushed(cfg: Config, after: seq<Action> -> State, run: seq<Action>, s: State, p: Plan,
                      spent: nat, cleared: nat, t: nat)
    returns (more: seq<Action>)
    requires Follows(cfg, after) && Reaches(after, run, s, p) && Stage(s, p, spent, cleared) && cleared <= p.n
    requires t < |s.tasks| && s.tasks[t].phase.Cleared?
    ensures Reaches(after, more, PushedState(s, t), p)
    ensures cleared >= 1 && Stage(PushedState(s, t), p, spent + s.tasks[t].phase.fee, cleared - 1)
  {
    PushStage(s, p, spent, cleared, t);
    StageCrowd(PushedState(s, t), p, spent + s.tasks[t].phase.fee, cleared - 1);
    StepPush(cfg, s, t);
    more := ReachesNext(cfg, after, run, s, p, Push(t, 0));
  }

  // ---------------------------------------------------------------------- runs

  lemma OneMoreSpent(cfg: Config, after: seq<Action> -> State, run: seq<Action>, s: State, p: Plan, spent: nat,
                     fee: nat)
    returns (more: seq<Action>, s': State)
    requires Follows(cfg, after) && Reaches(after, run, s, p) && Stage(s, p, spent, 0)
    requires p.n >= 1 && fee <= p.f && spent + fee <= p.key.quota
    ensures Reaches(after, more, s', p) && Stage(s', p, spent + fee, 0)
  {
    more := OneMoreChecked(cfg, after, run, s, p, spent, 0, fee);
    s' := With(Leasing(s), p.key, Cleared(0, fee));
    more := OneMorePushed(cfg, after, more, s', p, spent, 1, |s.tasks|);
    s' := PushedState(s', |s.tasks|);
  }

  /** Requests one after the other, until `target` is spent. */
  lemma {:induction false} Fill(cfg: Config, after: seq<Action> -> State, run: seq<Action>, s: State, p: Plan,
                                spent: nat, target: nat)
    returns (more: seq<Action>, s': State)
    requires Follows(cfg, after) && Reaches(after, run, s, p) && Stage(s, p, spent, 0)
    requires p.n >= 1 && p.f >= 1 && spent <= target <= p.key.quota
    ensures Reaches(after, more, s', p) && Stage(s', p, target, 0)
    decreases target - spent
  {
    if spent == target {
      more, s' := run, s;
    } else {
      var fee := if target - spent < p.f then target - spent else p.f;
      more, s' := OneMoreSpent(cfg, after, run, s, p, spent, fee);
      more, s' := Fill(cfg, after, more, s', p, spent + fee, target);
    }
  }

  /** The tasks from `base` on are cleared with the plan's fee. */
  ghost predicate AllCleared(s: State, p: Plan, base: nat) {
    base <= |s.tasks| && forall t :: base <= t < |s.tasks| ==> s.tasks[t] == NewTask(p.key, Cleared(0, p.f))
  }

  /** `k` requests that are all checked before any of them is pushed. */
  lemma {:induction false} CheckAll(cfg: Config, after: seq<Action> -> State, run: seq<Action>, s: State, p: Plan,
                                    spent: nat, k: nat)
    returns (more: seq<Action>, s': State)
    requires Follows(cfg, after) && Reaches(after, run, s, p) && Stage(s, p, spent, 0)
    requires k <= p.n && spent + p.f <= p.key.quota
    ensures Reaches(after, more, s', p) && Stage(s', p, spent, k)
    ensures |s'.tasks| == |s.tasks| + k && AllCleared(s', p, |s.tasks|)
    decreases k
  {
    if k == 0 {
      more, s' := run, s;
    } else {
      more, s' := CheckAll(cfg, after, run, s, p, spent, k - 1);
      more := OneMoreChecked(cfg, after, more, s', p, spent, k - 1, p.f);
      s' := With(Leasing(s'), p.key, Cleared(0, p.f));
    }
  }

  function Total(fee: nat, count: nat): nat {
    if count == 0 then 0 else Total(fee, count - 1) + fee
  }

  lemma {:induction false} TotalIs(fee: nat, count: nat)
    ensures Total(fee, count) == count * fee
  {
    if count == 0 {
    } else {
      TotalIs(fee, count - 1);
      assert (count - 1) * fee + fee == count * fee;
    }
  }

  lemma PushedRest(s: State, p: Plan, base: nat)
    requires AllCleared(s, p, base) && base < |s.tasks|
    ensures s.tasks[base] == NewTask(p.key, Cleared(0, p.f)) && AllCleared(PushedState(s, base), p, base + 1)
  {
  }

  /** Then all of them are pushed. */
  lemma {:induction false} PushAll(cfg: Config, after: seq<Action> -> State, run: seq<Action>, s: State, p: Plan,
                                   spent: nat, base: nat, k: nat)
    returns (more: seq<Action>, s': State)
    requires Follows(cfg, after) && Reaches(after, run, s, p) && Stage(s, p, spent, k)
    requires AllCleared(s, p, base) && |s.tasks| == base + k && k <= p.n
    ensures Reaches(after, more, s', p) && Stage(s', p, spent + Total(p.f, k), 0)
    decreases k
  {
    if k == 0 {
      more, s' := run, s;
    } else {
      PushedRest(s, p, base);
      more := OneMorePushed(cfg, after, run, s, p, spent, k, base);
      more, s' := PushAll(cfg, after, more, PushedState(s, base), p, spent + p.f, base + 1, k - 1);
    }
  }

  /** Fill the ledger up to one fee, check `n` requests, then push them. */
  lemma Overspend(cfg: Config, after: seq<Action> -> State, s0: State, p: Plan)
    returns (run: seq<Action>, s: State)
    requires Follows(cfg, after) && after([]) == s0 && Stage(s0, p, 0, 0)
    requires 1 <= p.f <= p.key.quota && p.n >= 1
    ensures Reaches(after, run, s, p) && Stage(s, p, p.key.quota + Total(p.f, p.n - 1), 0)
  {
    var target := p.key.quota - p.f;
    run, s := Fill(cfg, after, [], s0, p, 0, target);
    var base := |s.tasks|;
    run, s := CheckAll(cfg, after, run, s, p, target, p.n);
    run, s := PushAll(cfg, after, run, s, p, target, base, p.n);
  }

  lemma AfterNext(cfg: Config, run: seq<Action>, a: Action)
    ensures After(cfg, 1, run + [a]) == Step(cfg, After(cfg, 1, run), a)
  {
    assert (run + [a])[..|run|] == run;
  }

  /** `after` is the state after a run of a pool of one. */
  ghost predicate Means(cfg: Config, after: seq<Action> -> State) {
    forall run {:trigger After(cfg, 1, run)} :: after(run) == After(cfg, 1, run)
  }

  lemma AfterFollows(cfg: Config, after: seq<Action> -> State)
    requires Means(cfg, after)
    ensures Follows(cfg, after)
  {
    forall run: seq<Action>, a
      ensures after(run + [a]) == Step(cfg, after(run), a)
    {
      AfterNext(cfg, run, a);
    }
  }

  lemma OverspendReached(cfg: Config, after: seq<Action> -> State, p: Plan) returns (run: seq<Action>, s: State)
    requires Means(cfg, after) && 1 <= p.f <= p.key.quota && p.n >= 1
    ensures Reaches(after, run, s, p) && Stage(s, p, p.key.quota + (p.n - 1) * p.f, 0)
  {
    AfterFollows(cfg, after);
    assert After(cfg, 1, []) == State(0, SP.Fresh(1), [], []);
    run, s := Overspend(cfg, after, State(0, SP.Fresh(1), [], []), p);
    TotalIs(p.f, p.n - 1);
  }

  lemma ReachesCrowds(cfg: Config, after: seq<Action> -> State, run: seq<Action>, s: State, p: Plan)
    requires Means(cfg, after) && Reaches(after, run, s, p)
    ensures After(cfg, 1, run) == s && Crowds(cfg, 1, run, p.key.tenant, p.n, p.f)
  {
    forall k | 0 <= k <= |run|
      ensures Crowd(After(cfg, 1, run[..k]), p.key.tenant, p.n, p.f)
    {
      assert after(run[..k]) == After(cfg, 1, run[..k]);
    }
  }

  lemma StageSpent(s: State, p: Plan, spent: nat)
    requires Stage(s, p, spent, 0) && LedgerPast(s)
    ensures Spend(s, p.key.tenant) == spent && KeysWithin(s, p.key.tenant, p.key.quota)
  {
    assert DayStart(0) == 0;
    SameDaySum(s.ledger, p.key.tenant, 0);
  }

  lemma OverspendAfter(cfg: Config, after: seq<Action> -> State, p: Plan) returns (run: seq<Action>, s: State)
    requires Means(cfg, after) && 1 <= p.f <= p.key.quota && p.n >= 1
    ensures After(cfg, 1, run) == s && Crowds(cfg, 1, run, p.key.tenant, p.n, p.f)
    ensures KeysWithin(s, p.key.tenant, p.key.quota)
    ensures Spend(s, p.key.tenant) == p.key.quota + (p.n - 1) * p.f
  {
    run, s := OverspendReached(cfg, after, p);
    ReachesCrowds(cfg, after, run, s, p);
    RunLedgerPast(cfg, 1, run);
    StageSpent(s, p, p.key.quota + (p.n - 1) * p.f);
  }

  /**
   The bound on the quota is exact: for every quota, every `n` and every fee within the quota, a run
   that keeps at most `n` requests between check and push spends the quota plus `n - 1` fees.
   */
  lemma QuotaOverrunReached(cfg: Config, p: Plan) returns (run: seq<Action>)
    requires 1 <= p.f <= p.key.quota && p.n >= 1
    ensures Crowds(cfg, 1, run, p.key.tenant, p.n, p.f)
    ensures KeysWithin(After(cfg, 1, run), p.key.tenant, p.key.quota)
    ensures Spend(After(cfg, 1, run), p.key.tenant) == p.key.quota + (p.n - 1) * p.f
  {
    var s;
    run, s := OverspendAfter(cfg, run => After(cfg, 1, run), p);
  }

  // ----------------------------------------------------- when the quota holds

  /** Every run with keys of quotas up to `q` and at most `n` fees of up to `f` pending stays within `q`. */
  ghost predicate QuotaHolds(cfg: Config, tenant: string, q: nat, n: nat, f: nat) {
    forall accounts, run ::
      Premise(cfg, accounts, run, tenant, q, n, f) ==> Exposure(After(cfg, accounts, run), tenant) <= q
  }

  ghost predicate Premise(cfg: Config, accounts: nat, run: seq<Action>, tenant: string, q: nat, n: nat, f: nat) {
    Crowds(cfg, accounts, run, tenant, n, f) && KeysWithin(After(cfg, accounts, run), tenant, q)
  }

  lemma {:induction false} KeysOfPrefix(cfg: Config, accounts: nat, run: seq<Action>, k: nat, tenant: string, q: nat)
    requires KeysWithin(After(cfg, accounts, run), tenant, q) && k <= |run|
    ensures KeysWithin(After(cfg, accounts, run[..k]), tenant, q)
    decreases |run|
  {
    if k < |run| {
      var init := run[..|run| - 1];
      KeysBefore(cfg, After(cfg, accounts, init), run[|run| - 1], tenant, q);
      KeysOfPrefix(cfg, accounts, init, k, tenant, q);
      assert init[..k] == run[..k];
    } else {
      assert run[..k] == run;
    }
  }

  /** A fee that was cleared is within the quota of its key. */
  ghost predicate ClearedWithin(tasks: seq<Task>) {
    forall t :: 0 <= t < |tasks| && tasks[t].phase.Cleared? ==> tasks[t].phase.fee <= tasks[t].key.quota
  }

  lemma StepClears(cfg: Config, s: State, a: Action)
    requires ClearedWithin(s.tasks)
    ensures ClearedWithin(Step(cfg, s, a).tasks)
  {
  }

  lemma {:induction false} RunClears(cfg: Config, accounts: nat, run: seq<Action>)
    ensures ClearedWithin(After(cfg, accounts, run).tasks)
    decreases |run|
  {
    if run == [] {
    } else {
      RunClears(cfg, accounts, run[..|run| - 1]);
      StepClears(cfg, After(cfg, accounts, run[..|run| - 1]), run[|run| - 1]);
    }
  }

  lemma FreeCrowd(s: State, tenant: string, n: nat, f: nat)
    requires Crowd(s, tenant, n, f) && KeysWithin(s, tenant, 0) && ClearedWithin(s.tasks)
    ensures Crowd(s, tenant, n, 0)
  {
    forall task | task in s.tasks
      ensures PendingFee(tenant)(task) <= 0
    {
      var t :| 0 <= t < |s.tasks| && s.tasks[t] == task;
    }
  }

  /** With no quota at all only free transactions are cleared. */
  lemma FreeCrowds(cfg: Config, accounts: nat, run: seq<Action>, tenant: string, n: nat, f: nat)
    requires Premise(cfg, accounts, run, tenant, 0, n, f)
    ensures Crowds(cfg, accounts, run, tenant, n, 0)
  {
    forall k | 0 <= k <= |run|
      ensures Crowd(After(cfg, accounts, run[..k]), tenant, n, 0)
    {
      KeysOfPrefix(cfg, accounts, run, k, tenant, 0);
      RunClears(cfg, accounts, run[..k]);
      FreeCrowd(After(cfg, accounts, run[..k]), tenant, n, f);
    }
  }

  lemma SerialCrowds(cfg: Config, accounts: nat, run: seq<Action>, tenant: string, q: nat, n: nat, f: nat)
    requires Premise(cfg, accounts, run, tenant, q, n, f) && n <= 1
    ensures Exposure(After(cfg, accounts, run), tenant) <= q
  {
    forall k | 0 <= k <= |run|
      ensures SumBy(After(cfg, accounts, run[..k]).tasks, PendingOne(tenant)) <= 1
    {
      assert Crowd(After(cfg, accounts, run[..k]), tenant, n, f);
    }
    SerialRequestsWithinQuota(cfg, accounts, run, tenant, q);
  }

  lemma StaysWithin(cfg: Config, accounts: nat, run: seq<Action>, tenant: string, q: nat, n: nat, f: nat)
    requires Premise(cfg, accounts, run, tenant, q, n, f) && (n <= 1 || f == 0 || q == 0)
    ensures Exposure(After(cfg, accounts, run), tenant) <= q
  {
    if n <= 1 {
      SerialCrowds(cfg, accounts, run, tenant, q, n, f);
    } else {
      if q == 0 { FreeCrowds(cfg, accounts, run, tenant, n, f); }
      QuotaUnderInterleaving(cfg, accounts, run, tenant, q, n, 0);
    }
  }

  lemma OneMoreFee(n: nat, f: nat)
    requires n >= 2 && f >= 1
    ensures (n - 1) * f >= 1
  {
  }

  lemma OverQuota(cfg: Config, after: seq<Action> -> State, p: Plan) returns (run: seq<Action>, s: State)
    requires Means(cfg, after) && 1 <= p.f <= p.key.quota && p.n >= 2
    ensures After(cfg, 1, run) == s && Crowds(cfg, 1, run, p.key.tenant, p.n, p.f)
    ensures KeysWithin(s, p.key.tenant, p.key.quota) && Exposure(s, p.key.tenant) > p.key.quota
  {
    run, s := OverspendAfter(cfg, after, p);
    OneMoreFee(p.n, p.f);
  }

  /** A run that exceeds the quota, with a fee that is not above it. */
  lemma Exceeds(cfg: Config, tenant: string, q: nat, n: nat, f: nat) returns (run: seq<Action>)
    requires n >= 2 && f >= 1 && q >= 1
    ensures Premise(cfg, 1, run, tenant, q, n, f) && Exposure(After(cfg, 1, run), tenant) > q
  {
    var fee := if f <= q then f else q;
    var s;
    run, s := OverQuota(cfg, run => After(cfg, 1, run), Plan(ApiKey(tenant, q), n, fee));
    CrowdsMore(cfg, 1, run, tenant, n, fee, f);
  }

  lemma CrowdsMore(cfg: Config, accounts: nat, run: seq<Action>, tenant: string, n: nat, f: nat, f': nat)
    requires Crowds(cfg, accounts, run, tenant, n, f) && f <= f'
    ensures Crowds(cfg, accounts, run, tenant, n, f')
  {
    forall k | 0 <= k <= |run|
      ensures Crowd(After(cfg, accounts, run[..k]), tenant, n, f')
    {
      assert Crowd(After(cfg, accounts, run[..k]), tenant, n, f);
    }
  }

  /** The quota holds in every run if and only if requests are serial, free, or there is no quota to overrun. */
  lemma QuotaHoldsExactly(cfg: Config, tenant: string, q: nat, n: nat, f: nat)
    ensures QuotaHolds(cfg, tenant, q, n, f) <==> n <= 1 || f == 0 || q == 0
  {
    if n <= 1 || f == 0 || q == 0 {
      forall accounts, run | Premise(cfg, accounts, run, tenant, q, n, f)
        ensures Exposure(After(cfg, accounts, run), tenant) <= q
      {
        StaysWithin(cfg, accounts, run, tenant, q, n, f);
      }
    } else {
      var run := Exceeds(cfg, tenant, q, n, f);
      assert Premise(cfg, 1, run, tenant, q, n, f);
    }
  }
}
