/** The daily quota under every interleaving of the sponsorship pipeline. */
module Quota {
  import opened Sums
  import opened Pipeline

  /** The fee of a task of this tenant that is between its quota check and its ledger push. */
  function PendingFee(tenant: string): Task -> nat {
    (task: Task) => if task.phase.Cleared? && task.key.tenant == tenant then task.phase.fee else 0
  }

  function PendingOne(tenant: string): Task -> nat {
    (task: Task) => if task.phase.Cleared? && task.key.tenant == tenant then 1 else 0
  }

  /** The fees of a tenant's records of one day, days being counted in UTC. */
  function FeeOn(tenant: string, day: nat): Record -> nat {
    (r: Record) => if r.tenant == tenant && r.createdAt / 86_400_000 == day then r.fee else 0
  }

  /** What the tenant has been charged today. */
  function Spend(s: State, tenant: string): nat {
    SumBy(s.ledger, FeeOn(tenant, s.clock / 86_400_000))
  }

  /** The same with what it is about to be charged. */
  function Exposure(s: State, tenant: string): nat {
    Spend(s, tenant) + SumBy(s.tasks, PendingFee(tenant))
  }

  function SpendSince(s: State, tenant: string): nat {
    SumBy(s.ledger, Counted(tenant, DayStart(s.clock)))
  }

  function ExposureSince(s: State, tenant: string): nat {
    SpendSince(s, tenant) + SumBy(s.tasks, PendingFee(tenant))
  }

  /** At most `n` tasks of the tenant are between check and push, each with a fee of at most `f`. */
  ghost predicate Crowd(s: State, tenant: string, n: nat, f: nat) {
    && SumBy(s.tasks, PendingOne(tenant)) <= n
    && forall task :: task in s.tasks ==> PendingFee(tenant)(task) <= f
  }

  // ------------------------------------------------------------------ days

  lemma DayStartMonotone(a: nat, b: nat)
    requires a <= b
    ensures DayStart(a) <= DayStart(b)
  {
    assert a / 1000 <= b / 1000;
    assert a / 1000 / 86_400 <= b / 1000 / 86_400;
  }

  lemma DayStartPast(a: nat)
    ensures DayStart(a) <= a
  {
  }

  /** A later day start counts no more of the ledger. */
  lemma SpendShrinks(ledger: seq<Record>, tenant: string, from: nat, from': nat)
    requires from <= from'
    ensures SumBy(ledger, Counted(tenant, from')) <= SumBy(ledger, Counted(tenant, from))
  {
    SumMonotone(ledger, Counted(tenant, from'), Counted(tenant, from));
  }

  /** The sum that is read is at least the spend at the end of the read, even across midnight. */
  lemma {:induction false} ReadCoversSpend(ledger: seq<Record>, readAt: seq<nat>, tenant: string, now: nat)
    requires |readAt| == |ledger| && forall k :: 0 <= k < |readAt| ==> readAt[k] <= now
    ensures ReadSpend(ledger, readAt, tenant) >= SumBy(ledger, Counted(tenant, DayStart(now)))
    ensures ReadSpend(ledger, readAt, tenant) >= SumBy(ledger, FeeOn(tenant, now / 86_400_000))
    decreases |ledger|
  {
    if ledger == [] {
    } else {
      var n := |ledger| - 1;
      ReadCoversSpend(ledger[..n], readAt[..n], tenant, now);
      DayStartMonotone(readAt[n], now);
      OnOrAfterDay(ledger[n].createdAt, now);
    }
  }

  /** No record is later than the clock. */
  ghost predicate LedgerPast(s: State) {
    forall k :: 0 <= k < |s.ledger| ==> s.ledger[k].createdAt <= s.clock
  }

  lemma StepLedgerPast(cfg: Config, s: State, a: Action)
    requires LedgerPast(s)
    ensures LedgerPast(Step(cfg, s, a))
  {
  }

  lemma {:induction false} RunLedgerPast(cfg: Config, accounts: nat, run: seq<Action>)
    ensures LedgerPast(After(cfg, accounts, run))
    decreases |run|
  {
    if run == [] {
    } else {
      RunLedgerPast(cfg, accounts, run[..|run| - 1]);
      StepLedgerPast(cfg, After(cfg, accounts, run[..|run| - 1]), run[|run| - 1]);
    }
  }

  lemma {:induction false} SameDaySum(ledger: seq<Record>, tenant: string, now: nat)
    requires forall k :: 0 <= k < |ledger| ==> ledger[k].createdAt <= now
    ensures SumBy(ledger, Counted(tenant, DayStart(now))) == SumBy(ledger, FeeOn(tenant, now / 86_400_000))
  {
    if ledger == [] {
    } else {
      var n := |ledger| - 1;
      SameDaySum(ledger[..n], tenant, now);
      OnOrAfterDay(ledger[n].createdAt, now);
    }
  }

  /** In every run the sum since the start of the day is that of the records of the day. */
  lemma SpendIsToday(cfg: Config, accounts: nat, run: seq<Action>, tenant: string)
    ensures var s := After(cfg, accounts, run);
            SpendSince(s, tenant) == Spend(s, tenant) && ExposureSince(s, tenant) == Exposure(s, tenant)
  {
    RunLedgerPast(cfg, accounts, run);
    SameDaySum(After(cfg, accounts, run).ledger, tenant, After(cfg, accounts, run).clock);
  }

  // ------------------------------------------------------------------ steps

  /** Time alone never adds to the exposure. */
  lemma LaterSpend(s: State, tenant: string, now: nat)
    requires s.clock <= now
    ensures SpendSince(s.(clock := now), tenant) <= SpendSince(s, tenant)
  {
    DayStartMonotone(s.clock, now);
    SpendShrinks(s.ledger, tenant, DayStart(s.clock), DayStart(now));
  }

  /** The tasks of the tenant other than the one just cleared owe at most `(n - 1) * f`. */
  lemma OthersOwe(s: State, tenant: string, t: nat, n: nat, f: nat)
    requires Crowd(s, tenant, n, f) && t < |s.tasks| && s.tasks[t].phase.Cleared? && s.tasks[t].key.tenant == tenant
    ensures n >= 1 && SumBy(s.tasks, PendingFee(tenant)) <= s.tasks[t].phase.fee + (n - 1) * f
  {
    var idle := s.tasks[t].(phase := Waiting);
    var others := s.tasks[t := idle];
    SumUpdate(s.tasks, t, idle, PendingFee(tenant));
    SumUpdate(s.tasks, t, idle, PendingOne(tenant));
    forall task | task in others
      ensures PendingFee(tenant)(task) <= PendingOne(tenant)(task) * f
    {
      if task != idle {
        assert task in s.tasks;
      }
    }
    SumBounded(others, PendingFee(tenant), PendingOne(tenant), f);
    Scaled(SumBy(others, PendingOne(tenant)), n - 1, f);
  }

  lemma Scaled(a: nat, b: nat, f: nat)
    requires a <= b
    ensures a * f <= b * f
  {
  }

  /** A task that is not cleared before or after its step adds nothing. */
  lemma QuietStep(s: State, s': State, tenant: string, t: nat)
    requires t < |s.tasks| == |s'.tasks| && s'.tasks == s.tasks[t := s'.tasks[t]]
    requires s'.ledger == s.ledger && s.clock <= s'.clock
    requires PendingFee(tenant)(s'.tasks[t]) <= PendingFee(tenant)(s.tasks[t])
    ensures ExposureSince(s', tenant) <= ExposureSince(s, tenant)
  {
    SumUpdate(s.tasks, t, s'.tasks[t], PendingFee(tenant));
    LaterSpend(s, tenant, s'.clock);
  }

  lemma PushSpend(ledger: seq<Record>, tenant: string, from: nat, record: Record)
    requires from <= record.createdAt
    ensures SumBy(ledger + [record], Counted(tenant, from)) ==
            SumBy(ledger, Counted(tenant, from)) + if record.tenant == tenant then record.fee else 0
  {
    SumAppend(ledger, record, Counted(tenant, from));
  }

  lemma PushTasks(tasks: seq<Task>, tenant: string, t: nat, task: Task)
    requires t < |tasks| && tasks[t].phase.Cleared? && task.phase.Recorded?
    ensures SumBy(tasks, PendingFee(tenant)) ==
            SumBy(tasks[t := task], PendingFee(tenant)) +
            if tasks[t].key.tenant == tenant then tasks[t].phase.fee else 0
  {
    SumUpdate(tasks, t, task, PendingFee(tenant));
  }

  /** A push moves a fee from pending to spent. */
  lemma PushStep(s: State, s': State, tenant: string, t: nat, now: nat)
    requires t < |s.tasks| == |s'.tasks| && s.tasks[t].phase.Cleared? && s.clock <= now == s'.clock
    requires s'.tasks == s.tasks[t := s'.tasks[t]] && s'.tasks[t].phase.Recorded?
    requires s'.ledger == s.ledger + [Record(now, s.tasks[t].phase.fee, s.tasks[t].key.tenant)]
    ensures ExposureSince(s', tenant) <= ExposureSince(s, tenant)
  {
    DayStartPast(now);
    PushSpend(s.ledger, tenant, DayStart(now), Record(now, s.tasks[t].phase.fee, s.tasks[t].key.tenant));
    PushTasks(s.tasks, tenant, t, s'.tasks[t]);
    LaterSpend(s, tenant, now);
  }

  /** A check that passes leaves room for its own fee, so the exposure is what the others owe on top. */
  lemma CheckStep(s: State, s': State, tenant: string, t: nat, readAt: seq<nat>, now: nat, q: nat, n: nat, f: nat)
    requires t < |s.tasks| && s.tasks[t].phase.Priced? && s.tasks[t].key.tenant == tenant && ReadsNow(s, readAt, now)
    requires ReadSpend(s.ledger, readAt, tenant) + s.tasks[t].phase.fee <= s.tasks[t].key.quota <= q
    requires s' == To(s, t, Cleared(s.tasks[t].phase.signer, s.tasks[t].phase.fee)).(clock := now)
    requires Crowd(s', tenant, n, f)
    ensures n >= 1 && ExposureSince(s', tenant) <= q + (n - 1) * f
  {
    ReadCoversSpend(s.ledger, readAt, tenant, now);
    OthersOwe(s', tenant, t, n, f);
  }

  /** No key of the tenant that was used has a quota above `q`. */
  ghost predicate KeysWithin(s: State, tenant: string, q: nat) {
    forall task :: task in s.tasks && task.key.tenant == tenant ==> task.key.quota <= q
  }

  ghost predicate BoundSince(s: State, tenant: string, q: nat, n: nat, f: nat)
    requires n >= 1
  {
    ExposureSince(s, tenant) <= q + (n - 1) * f
  }

  lemma KeysBefore(cfg: Config, s: State, a: Action, tenant: string, q: nat)
    requires KeysWithin(Step(cfg, s, a), tenant, q)
    ensures KeysWithin(s, tenant, q)
  {
    var s' := Step(cfg, s, a);
    forall task | task in s.tasks && task.key.tenant == tenant
      ensures task.key.quota <= q
    {
      var i :| 0 <= i < |s.tasks| && s.tasks[i] == task;
      assert s'.tasks[i] in s'.tasks && s'.tasks[i].key == task.key;
    }
  }

  lemma TaskStepBounded(cfg: Config, s: State, t: nat, a: Action, tenant: string, q: nat, n: nat, f: nat)
    requires n >= 1 && t < |s.tasks| && BoundSince(s, tenant, q, n, f) && KeysWithin(s, tenant, q)
    requires Crowd(TaskStep(cfg, s, t, a), tenant, n, f)
    ensures BoundSince(TaskStep(cfg, s, t, a), tenant, q, n, f)
  {
    var s', task := TaskStep(cfg, s, t, a), s.tasks[t];
    assert task in s.tasks;
    if s' == s {
    } else if task.phase.Priced? && s'.tasks[t].phase.Cleared? && task.key.tenant == tenant {
      CheckStep(s, s', tenant, t, a.readAt, a.now, q, n, f);
    } else if task.phase.Cleared? {
      PushStep(s, s', tenant, t, a.now);
    } else {
      QuietStep(s, s', tenant, t);
    }
  }

  lemma StepBounded(cfg: Config, s: State, a: Action, tenant: string, q: nat, n: nat, f: nat)
    requires n >= 1 && BoundSince(s, tenant, q, n, f) && KeysWithin(s, tenant, q)
    requires Crowd(Step(cfg, s, a), tenant, n, f)
    ensures BoundSince(Step(cfg, s, a), tenant, q, n, f)
  {
    if a.Start? {
      SumAppend(s.tasks, Step(cfg, s, a).tasks[|s.tasks|], PendingFee(tenant));
    } else if a.Tick? {
      if s.clock <= a.now { LaterSpend(s, tenant, a.now); }
    } else if !a.Revalidate? && a.task < |s.tasks| {
      TaskStepBounded(cfg, s, a.task, a, tenant, q, n, f);
    }
  }

  /** At most `n` requests of the tenant are ever between check and push, each with a fee of at most `f`. */
  ghost predicate Crowds(cfg: Config, accounts: nat, run: seq<Action>, tenant: string, n: nat, f: nat) {
    forall k :: 0 <= k <= |run| ==> Crowd(After(cfg, accounts, run[..k]), tenant, n, f)
  }

  lemma CrowdsPrefix(cfg: Config, accounts: nat, run: seq<Action>, tenant: string, n: nat, f: nat)
    requires Crowds(cfg, accounts, run, tenant, n, f) && run != []
    ensures Crowds(cfg, accounts, run[..|run| - 1], tenant, n, f) && Crowd(After(cfg, accounts, run), tenant, n, f)
  {
    var init := run[..|run| - 1];
    assert forall k :: 0 <= k <= |init| ==> init[..k] == run[..k];
    assert run[..|run|] == run;
  }

  lemma {:induction false} InterleavedSince(cfg: Config, accounts: nat, run: seq<Action>,
                                            tenant: string, q: nat, n: nat, f: nat)
    requires n >= 1 && Crowds(cfg, accounts, run, tenant, n, f)
    requires KeysWithin(After(cfg, accounts, run), tenant, q)
    ensures BoundSince(After(cfg, accounts, run), tenant, q, n, f)
    decreases |run|
  {
    if run == [] {
    } else {
      var init := run[..|run| - 1];
      CrowdsPrefix(cfg, accounts, run, tenant, n, f);
      KeysBefore(cfg, After(cfg, accounts, init), run[|run| - 1], tenant, q);
      InterleavedSince(cfg, accounts, init, tenant, q, n, f);
      StepBounded(cfg, After(cfg, accounts, init), run[|run| - 1], tenant, q, n, f);
    }
  }

  lemma {:induction false} FeeBound(tasks: seq<Task>, tenant: string) returns (f: nat)
    ensures forall task :: task in tasks ==> PendingFee(tenant)(task) <= f
  {
    if tasks == [] {
      f := 0;
    } else {
      f := FeeBound(tasks[..|tasks| - 1], tenant);
      var last := PendingFee(tenant)(tasks[|tasks| - 1]);
      f := if last > f then last else f;
    }
  }

  lemma {:induction false} SerialSince(cfg: Config, accounts: nat, run: seq<Action>, tenant: string, q: nat)
    requires forall k :: 0 <= k <= |run| ==> SumBy(After(cfg, accounts, run[..k]).tasks, PendingOne(tenant)) <= 1
    requires KeysWithin(After(cfg, accounts, run), tenant, q)
    ensures ExposureSince(After(cfg, accounts, run), tenant) <= q
    decreases |run|
  {
    if run == [] {
    } else {
      var init := run[..|run| - 1];
      assert forall k :: 0 <= k <= |init| ==> init[..k] == run[..k];
      KeysBefore(cfg, After(cfg, accounts, init), run[|run| - 1], tenant, q);
      SerialSince(cfg, accounts, init, tenant, q);
      assert run[..|run|] == run;
      var f := FeeBound(After(cfg, accounts, run).tasks, tenant);
      StepBounded(cfg, After(cfg, accounts, init), run[|run| - 1], tenant, q, 1, f);
    }
  }

  /**
   In every run in which at most `n` requests of a tenant are ever between check and push, with fees
   of at most `f`, today's spend plus the pending fees stays within the largest quota of its keys
   plus `(n - 1) * f`.
   */
  lemma QuotaUnderInterleaving(cfg: Config, accounts: nat, run: seq<Action>, tenant: string, q: nat, n: nat, f: nat)
    requires n >= 1 && Crowds(cfg, accounts, run, tenant, n, f)
    requires KeysWithin(After(cfg, accounts, run), tenant, q)
    ensures Exposure(After(cfg, accounts, run), tenant) <= q + (n - 1) * f
  {
    InterleavedSince(cfg, accounts, run, tenant, q, n, f);
    SpendIsToday(cfg, accounts, run, tenant);
  }

  /** Requests that are never between check and push at the same time stay within the quota itself. */
  lemma SerialRequestsWithinQuota(cfg: Config, accounts: nat, run: seq<Action>, tenant: string, q: nat)
    requires forall k :: 0 <= k <= |run| ==> SumBy(After(cfg, accounts, run[..k]).tasks, PendingOne(tenant)) <= 1
    requires KeysWithin(After(cfg, accounts, run), tenant, q)
    ensures Exposure(After(cfg, accounts, run), tenant) <= q
  {
    SerialSince(cfg, accounts, run, tenant, q);
    SpendIsToday(cfg, accounts, run, tenant);
  }
}
