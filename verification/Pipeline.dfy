/**
 The sponsorship pipeline: `process_fee_bump_request` and the `fee_bump_batch` loop of
 `paymaster-server/src/main.rs` as a machine. Tasks take one step at a time, in any interleaving;
 a step is what happens between two awaits or under one lock.
 */
module Pipeline {
  import opened Prelude
  import opened Sums
  import SP = SignerPool

  /** Where a task stands with the item it is working on. */
  datatype Phase =
    | Waiting                            // before the signer lease
    | Leased(signer: nat)                // lease held, fee-bump not yet built
    | Priced(signer: nat, fee: nat)      // fee known, ledger not yet read
    | Cleared(signer: nat, fee: nat)     // quota check passed, ledger not yet pushed
    | Recorded(signer: nat)              // ledger pushed
    | Answered(signer: nat, ok: bool)    // Horizon has answered, the pool not yet told
    | Releasing(signer: nat, ok: bool)   // on the way out, lease still held
    | Finished(ok: bool)

  /** What the configuration says of an API key; a tenant may have several. */
  datatype ApiKey = ApiKey(tenant: string, quota: nat)

  /** A request, or a batch with `remaining` further items after the current one. */
  datatype Task = Task(key: ApiKey, submit: bool, remaining: nat, phase: Phase)

  datatype Record = Record(createdAt: nat, fee: nat, tenant: string)

  datatype State = State(clock: nat, accounts: seq<SP.Account>, tasks: seq<Task>, ledger: seq<Record>)

  datatype Config = Config(horizon: bool)

  datatype Action =
    | Start(key: ApiKey, submit: bool, items: nat)
    | Reject(task: nat)
    | Acquire(task: nat)
    | CreateFails(task: nat)
    | Create(task: nat, fee: nat)
    | CheckQuota(task: nat, readAt: seq<nat>, now: nat)
    | Push(task: nat, now: nat)
    | Settle(task: nat)
    | Submit(task: nat, ok: bool)
    | Report(task: nat)
    | Release(task: nat)
    | Revalidate(index: nat, balance: Option<nat>, wasActive: bool)
    | Tick(now: nat)

  /** `utc_day_start_ms`. */
  function DayStart(now: nat): nat {
    now / 1000 / 86_400 * 86_400_000
  }

  /** The ledger sum as it is read: the day start is taken anew for each record. */
  function ReadSpend(ledger: seq<Record>, readAt: seq<nat>, tenant: string): nat
    requires |readAt| == |ledger|
  {
    if ledger == [] then 0
    else
      var n := |ledger| - 1;
      ReadSpend(ledger[..n], readAt[..n], tenant) + Counted(tenant, DayStart(readAt[n]))(ledger[n])
  }

  function Counted(tenant: string, from: nat): Record -> nat {
    (r: Record) => if r.tenant == tenant && r.createdAt >= from then r.fee else 0
  }

  lemma DayStartIs(now: nat)
    ensures DayStart(now) == now / 86_400_000 * 86_400_000
    ensures DayStart(now) % 86_400_000 == 0 && DayStart(now) <= now < DayStart(now) + 86_400_000
  {
    assert now / 1000 / 86_400 == now / 86_400_000;
  }

  lemma OnOrAfterDay(t: nat, now: nat)
    ensures t >= DayStart(now) <==> t / 86_400_000 >= now / 86_400_000
  {
    DayStartIs(now);
  }

  /** The tenant's fees on the day of each reading or later, days being counted in UTC. */
  function SpentByDays(ledger: seq<Record>, readAt: seq<nat>, tenant: string): nat
    requires |readAt| == |ledger|
  {
    if ledger == [] then 0
    else
      var n := |ledger| - 1;
      SpentByDays(ledger[..n], readAt[..n], tenant) +
      if ledger[n].tenant == tenant && ledger[n].createdAt / 86_400_000 >= readAt[n] / 86_400_000
      then ledger[n].fee else 0
  }

  lemma {:induction false} ReadSpendIs(ledger: seq<Record>, readAt: seq<nat>, tenant: string)
    requires |readAt| == |ledger|
    ensures ReadSpend(ledger, readAt, tenant) == SpentByDays(ledger, readAt, tenant)
  {
    if ledger == [] {
    } else {
      var n := |ledger| - 1;
      ReadSpendIs(ledger[..n], readAt[..n], tenant);
      OnOrAfterDay(ledger[n].createdAt, readAt[n]);
    }
  }

  function To(s: State, t: nat, phase: Phase): State
    requires t < |s.tasks|
  {
    s.(tasks := s.tasks[t := s.tasks[t].(phase := phase)])
  }

  /** The item is over: a batch stops at the first error and otherwise goes on to its next item. */
  function ItemOver(task: Task, ok: bool): Task {
    if ok && task.remaining > 0 then task.(phase := Waiting, remaining := task.remaining - 1)
    else task.(phase := Finished(ok))
  }

  ghost predicate ReadsNow(s: State, readAt: seq<nat>, now: nat) {
    && s.clock <= now && |readAt| == |s.ledger|
    && forall k :: 0 <= k < |readAt| ==> s.clock <= readAt[k] <= now
  }

  /** A step of task `t`; a step that is not due changes nothing. */
  ghost function TaskStep(cfg: Config, s: State, t: nat, a: Action): State
    requires t < |s.tasks|
  {
    var task := s.tasks[t];
    match task.phase
    case Waiting =>
      if a.Reject? then To(s, t, Finished(false))
      else if a.Acquire? then
        var lease := SP.Choose(s.accounts);
        if lease.None? then To(s, t, Finished(false))
        else To(s, t, Leased(lease.value)).(accounts := s.accounts[lease.value := SP.Leased(s.accounts[lease.value])])
      else s
    case Leased(signer) =>
      if a.CreateFails? then To(s, t, Releasing(signer, false))
      else if a.Create? then To(s, t, Priced(signer, a.fee))
      else s
    case Priced(signer, fee) =>
      if a.CheckQuota? && ReadsNow(s, a.readAt, a.now) then
        var spend := ReadSpend(s.ledger, a.readAt, task.key.tenant);
        To(s, t, if spend + fee > task.key.quota then Releasing(signer, false) else Cleared(signer, fee))
        .(clock := a.now)
      else s
    case Cleared(signer, fee) =>
      if a.Push? && s.clock <= a.now then
        To(s, t, Recorded(signer)).(clock := a.now, ledger := s.ledger + [Record(a.now, fee, task.key.tenant)])
      else s
    case Recorded(signer) =>
      if a.Settle? && !task.submit then To(s, t, Releasing(signer, true))
      else if a.Settle? && !cfg.horizon then To(s, t, Releasing(signer, false))
      else if a.Submit? && task.submit && cfg.horizon then To(s, t, Answered(signer, a.ok))
      else s
    case Answered(signer, ok) =>
      if a.Report? then
        To(s, t, Releasing(signer, ok))
        .(accounts := SP.UpdateAt(s.accounts, signer, if ok then SP.Succeeded else SP.Failed))
      else s
    case Releasing(signer, ok) =>
      if a.Release? then
        s.(tasks := s.tasks[t := ItemOver(task, ok)], accounts := SP.UpdateAt(s.accounts, signer, SP.Released))
      else s
    case Finished(_) => s
  }

  ghost function Step(cfg: Config, s: State, a: Action): State {
    match a
    case Start(key, submit, items) =>
      var task := if items == 0 then Task(key, submit, 0, Finished(true)) else Task(key, submit, items - 1, Waiting);
      s.(tasks := s.tasks + [task])
    case Revalidate(index, balance, wasActive) =>
      s.(accounts := SP.UpdateAt(s.accounts, index, account => SP.Revalidated(account, balance, wasActive)))
    case Tick(now) => if s.clock <= now then s.(clock := now) else s
    case _ => if a.task < |s.tasks| then TaskStep(cfg, s, a.task, a) else s
  }

  /** The state after a run from a pool of `n` fresh accounts and an empty ledger. */
  ghost function After(cfg: Config, n: nat, run: seq<Action>): State {
    if run == [] then State(0, SP.Fresh(n), [], []) else Step(cfg, After(cfg, n, run[..|run| - 1]), run[|run| - 1])
  }

  // --------------------------------------------------------------- leases

  predicate Holds(task: Task, signer: nat) {
    match task.phase
    case Waiting => false
    case Finished(_) => false
    case Leased(i) => i == signer
    case Priced(i, _) => i == signer
    case Cleared(i, _) => i == signer
    case Recorded(i) => i == signer
    case Answered(i, _) => i == signer
    case Releasing(i, _) => i == signer
  }

  function HoldsOne(signer: nat): Task -> nat {
    (task: Task) => if Holds(task, signer) then 1 else 0
  }

  /** How many tasks hold a lease on an account. */
  function Leases(tasks: seq<Task>, signer: nat): nat {
    SumBy(tasks, HoldsOne(signer))
  }

  /** Every account's `in_flight` is the number of leases outstanding on it, and no lease is on anything else. */
  ghost predicate Conserved(s: State) {
    && (forall i :: 0 <= i < |s.accounts| ==> s.accounts[i].inFlight == Leases(s.tasks, i))
    && (forall t, i: nat :: 0 <= t < |s.tasks| && Holds(s.tasks[t], i) ==> i < |s.accounts|)
  }

  lemma LeasesAfterUpdate(tasks: seq<Task>, t: nat, task: Task, signer: nat)
    requires t < |tasks|
    ensures Leases(tasks[t := task], signer) + HoldsOne(signer)(tasks[t]) ==
            Leases(tasks, signer) + HoldsOne(signer)(task)
    ensures Leases(tasks, signer) >= HoldsOne(signer)(tasks[t])
  {
    SumUpdate(tasks, t, task, HoldsOne(signer));
  }

  /** A task that keeps its lease, over accounts that keep their `in_flight`. */
  lemma SameLease(s: State, t: nat, task: Task, s': State)
    requires Conserved(s) && t < |s.tasks| && s'.tasks == s.tasks[t := task]
    requires forall i: nat :: Holds(task, i) <==> Holds(s.tasks[t], i)
    requires |s'.accounts| == |s.accounts|
    requires forall i :: 0 <= i < |s.accounts| ==> s'.accounts[i].inFlight == s.accounts[i].inFlight
    ensures Conserved(s')
  {
    forall i | 0 <= i < |s.accounts|
      ensures s'.accounts[i].inFlight == Leases(s'.tasks, i)
    {
      LeasesAfterUpdate(s.tasks, t, task, i);
    }
  }

  lemma LeaseTaken(s: State, t: nat, signer: nat, s': State)
    requires Conserved(s) && t < |s.tasks| && signer < |s.accounts|
    requires forall i: nat :: !Holds(s.tasks[t], i)
    requires s'.tasks == s.tasks[t := s.tasks[t].(phase := Leased(signer))]
    requires s'.accounts == s.accounts[signer := SP.Leased(s.accounts[signer])]
    ensures Conserved(s')
  {
    forall i | 0 <= i < |s.accounts|
      ensures s'.accounts[i].inFlight == Leases(s'.tasks, i)
    {
      LeasesAfterUpdate(s.tasks, t, s.tasks[t].(phase := Leased(signer)), i);
    }
  }

  /** The saturating subtraction never saturates: a lease being released is always counted. */
  lemma ReleaseNeverSaturates(s: State, t: nat, signer: nat)
    requires Conserved(s) && t < |s.tasks| && Holds(s.tasks[t], signer)
    ensures signer < |s.accounts| && s.accounts[signer].inFlight >= 1
    ensures SP.Released(s.accounts[signer]).inFlight == s.accounts[signer].inFlight - 1
  {
    LeasesAfterUpdate(s.tasks, t, s.tasks[t], signer);
  }

  lemma LeaseReturned(s: State, t: nat, signer: nat, task: Task, s': State)
    requires Conserved(s) && t < |s.tasks| && s.tasks[t].phase.Releasing? && s.tasks[t].phase.signer == signer
    requires forall i: nat :: !Holds(task, i)
    requires s'.tasks == s.tasks[t := task] && s'.accounts == SP.UpdateAt(s.accounts, signer, SP.Released)
    ensures Conserved(s')
  {
    ReleaseNeverSaturates(s, t, signer);
    forall i | 0 <= i < |s.accounts|
      ensures s'.accounts[i].inFlight == Leases(s'.tasks, i)
    {
      LeasesAfterUpdate(s.tasks, t, task, i);
    }
  }

  lemma TaskStepConserves(cfg: Config, s: State, t: nat, a: Action)
    requires Conserved(s) && t < |s.tasks|
    ensures Conserved(TaskStep(cfg, s, t, a))
  {
    var s' := TaskStep(cfg, s, t, a);
    var task := s.tasks[t];
    if s' == s {
    } else if task.phase.Waiting? && a.Acquire? && SP.Choose(s.accounts).Some? {
      LeaseTaken(s, t, SP.Choose(s.accounts).value, s');
    } else if task.phase.Releasing? {
      LeaseReturned(s, t, task.phase.signer, ItemOver(task, task.phase.ok), s');
    } else {
      SameLease(s, t, s'.tasks[t], s');
    }
  }

  lemma StepConserves(cfg: Config, s: State, a: Action)
    requires Conserved(s)
    ensures Conserved(Step(cfg, s, a))
  {
    if a.Start? {
      var s' := Step(cfg, s, a);
      forall i | 0 <= i < |s.accounts|
        ensures s'.accounts[i].inFlight == Leases(s'.tasks, i)
      {
        SumAppend(s.tasks, s'.tasks[|s.tasks|], HoldsOne(i));
      }
    } else if !a.Revalidate? && !a.Tick? && a.task < |s.tasks| {
      TaskStepConserves(cfg, s, a.task, a);
    }
  }

  /** In every interleaving of requests, batches, failures and revalidations, leases are conserved. */
  lemma {:induction false} LeasesConserved(cfg: Config, n: nat, run: seq<Action>)
    ensures Conserved(After(cfg, n, run))
    decreases |run|
  {
    if run == [] {
    } else {
      LeasesConserved(cfg, n, run[..|run| - 1]);
      StepConserves(cfg, After(cfg, n, run[..|run| - 1]), run[|run| - 1]);
    }
  }

  lemma {:induction false} NoHolderNoLease(tasks: seq<Task>, signer: nat)
    requires forall t :: 0 <= t < |tasks| ==> !Holds(tasks[t], signer)
    ensures Leases(tasks, signer) == 0
  {
    if tasks == [] {
    } else {
      NoHolderNoLease(tasks[..|tasks| - 1], signer);
    }
  }

  /** Every exit returns its lease: once all tasks are over, no account has a lease in flight. */
  lemma AllLeasesReturned(cfg: Config, n: nat, run: seq<Action>)
    requires forall t :: 0 <= t < |After(cfg, n, run).tasks| ==> After(cfg, n, run).tasks[t].phase.Finished?
    ensures forall i :: 0 <= i < |After(cfg, n, run).accounts| ==> After(cfg, n, run).accounts[i].inFlight == 0
  {
    LeasesConserved(cfg, n, run);
    var s := After(cfg, n, run);
    forall i | 0 <= i < |s.accounts|
      ensures s.accounts[i].inFlight == 0
    {
      NoHolderNoLease(s.tasks, i);
    }
  }

  lemma StepKeepsTrust(cfg: Config, s: State, a: Action)
    requires SP.Trusted(s.accounts)
    ensures SP.Trusted(Step(cfg, s, a).accounts)
  {
    var s' := Step(cfg, s, a);
    forall i | 0 <= i < |s'.accounts| && s'.accounts[i].active
      ensures s'.accounts[i].failures < SP.FAILURE_THRESHOLD
    {
    }
  }

  /** In every run an active account has fewer than three failures in a row, however stale a revalidation is. */
  lemma {:induction false} ActiveAccountsTrusted(cfg: Config, n: nat, run: seq<Action>)
    ensures SP.Trusted(After(cfg, n, run).accounts)
    decreases |run|
  {
    if run == [] {
    } else {
      ActiveAccountsTrusted(cfg, n, run[..|run| - 1]);
      StepKeepsTrust(cfg, After(cfg, n, run[..|run| - 1]), run[|run| - 1]);
    }
  }
}
