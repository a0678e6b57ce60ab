/**
 The request handlers of `paymaster-server/src/main.rs` in their own form: `process_fee_bump_request`
 and the loop of `fee_bump_batch`, each proved to be a run of the pipeline's steps.
 */
module Server {
  import opened Prelude
  import opened Pipeline
  import SP = SignerPool

  /** What the outside world answers while one item is processed. */
  datatype Item = Item(
    valid: bool,             // the checks before the lease pass
    fee: Option<nat>,        // the fee of the fee-bump transaction, if it can be built
    readAt: nat -> nat,      // the clock as each ledger record is filtered
    checkedAt: nat,          // the clock after the quota check
    pushedAt: nat,           // the clock as the ledger is pushed
    submitted: bool          // whether Horizon accepts the transaction
  )

  /** The clock never goes back. */
  ghost predicate OnTime(clock: nat, item: Item) {
    clock <= item.checkedAt <= item.pushedAt && forall k: nat :: clock <= item.readAt(k) <= item.checkedAt
  }

  function Reads(readAt: nat -> nat, n: nat): (times: seq<nat>)
    ensures |times| == n && forall k :: 0 <= k < n ==> times[k] == readAt(k)
  {
    seq(n, (k: nat) => readAt(k))
  }

  /** A run of steps from any state. */
  ghost function Steps(cfg: Config, s: State, trace: seq<Action>): State {
    if trace == [] then s else Step(cfg, Steps(cfg, s, trace[..|trace| - 1]), trace[|trace| - 1])
  }

  /** A run from a reachable state is the end of a longer run. */
  lemma {:induction false} StepsExtendRuns(cfg: Config, n: nat, run: seq<Action>, trace: seq<Action>)
    ensures After(cfg, n, run + trace) == Steps(cfg, After(cfg, n, run), trace)
    decreases |trace|
  {
    if trace == [] {
      assert run + trace == run;
    } else {
      StepsExtendRuns(cfg, n, run, trace[..|trace| - 1]);
      assert (run + trace)[..|run + trace| - 1] == run + trace[..|trace| - 1];
    }
  }

  lemma {:induction false} StepsConcat(cfg: Config, s: State, a: seq<Action>, b: seq<Action>)
    ensures Steps(cfg, s, a + b) == Steps(cfg, Steps(cfg, s, a), b)
    decreases |b|
  {
    if b == [] {
      assert a + b == a;
    } else {
      StepsConcat(cfg, s, a, b[..|b| - 1]);
      assert (a + b)[..|a + b| - 1] == a + b[..|b| - 1];
    }
  }

  lemma Advance(cfg: Config, s: State, trace: seq<Action>, a: Action)
    ensures Steps(cfg, s, trace + [a]) == Step(cfg, Steps(cfg, s, trace), a)
  {
    assert (trace + [a])[..|trace|] == trace;
  }

  lemma NoSteps(cfg: Config, s: State)
    ensures Steps(cfg, s, []) == s
  {
  }

  /** The fee can be charged: the transaction can be built and fits the quota. */
  predicate Affordable(ledger: seq<Record>, key: ApiKey, item: Item) {
    item.fee.Some? && ReadSpend(ledger, Reads(item.readAt, |ledger|), key.tenant) + item.fee.value <= key.quota
  }

  /** What the pool is told about the signer: nothing unless the transaction went to Horizon. */
  function Verdict(cfg: Config, submit: bool, submitted: bool): Option<bool> {
    if submit && cfg.horizon then Some(submitted) else None
  }

  function ReportedAt(accounts: seq<SP.Account>, signer: nat, report: Option<bool>): seq<SP.Account> {
    if report.None? then accounts else SP.UpdateAt(accounts, signer, if report.value then SP.Succeeded else SP.Failed)
  }

  predicate Succeeds(cfg: Config, submit: bool, submitted: bool) {
    !submit || (cfg.horizon && submitted)
  }

  /** What requests leave behind. */
  datatype Memory = Memory(accounts: seq<SP.Account>, ledger: seq<Record>)

  datatype Outcome = Outcome(memory: Memory, ok: bool)

  function ItemOutcome(cfg: Config, m: Memory, key: ApiKey, submit: bool, item: Item): Outcome {
    var lease := SP.Choose(m.accounts);
    if !item.valid || lease.None? then Outcome(m, false)
    else
      var charged := Affordable(m.ledger, key, item);
      var report := if charged then Verdict(cfg, submit, item.submitted) else None;
      Outcome(Memory(LeaseCycle(m.accounts, lease.value, report),
                     if charged then m.ledger + [RecordOf(key, item)] else m.ledger),
              charged && Succeeds(cfg, submit, item.submitted))
  }

  /** One account leased, told of Horizon's answer if there is one, and released. */
  function LeaseCycle(accounts: seq<SP.Account>, signer: nat, report: Option<bool>): seq<SP.Account>
    requires signer < |accounts|
  {
    var leased := accounts[signer := SP.Leased(accounts[signer])];
    SP.UpdateAt(ReportedAt(leased, signer, report), signer, SP.Released)
  }

  /** The fee is charged: the request gets as far as a signer, a fee and a quota that still holds it. */
  ghost predicate ChargedFor(m: Memory, key: ApiKey, item: Item) {
    && item.valid && (exists i :: 0 <= i < |m.accounts| && m.accounts[i].active) && item.fee.Some?
    && SpentByDays(m.ledger, Reads(item.readAt, |m.ledger|), key.tenant) + item.fee.value <= key.quota
  }

  /** What one request does to its signer, from the record before and after. */
  ghost predicate UsedOnce(a: SP.Account, b: SP.Account, reported: bool, accepted: bool) {
    && b.inFlight == a.inFlight && b.totalUses == a.totalUses + 1 && b.balance == a.balance
    && b.failures == (if !reported then a.failures else if accepted then 0 else a.failures + 1)
    && b.active == (a.active && !(reported && !accepted && a.failures >= 2))
  }

  /** A request told outright: when it succeeds, what it charges, and what becomes of the best signer and the others. */
  ghost predicate Outright(cfg: Config, before: Memory, after: Memory, ok: bool, key: ApiKey, submit: bool, item: Item)
  {
    var charged := ChargedFor(before, key, item);
    var records := if charged then [Record(item.pushedAt, item.fee.value, key.tenant)] else [];
    && (ok <==> charged && (!submit || (cfg.horizon && item.submitted)))
    && after.ledger == before.ledger + records
    && |after.accounts| == |before.accounts|
    && forall i :: 0 <= i < |after.accounts| ==>
         if item.valid && SP.IsBest(before.accounts, i)
         then UsedOnce(before.accounts[i], after.accounts[i], charged && submit && cfg.horizon, item.submitted)
         else after.accounts[i] == before.accounts[i]
  }

  lemma BestIsOne(accounts: seq<SP.Account>, i: nat, j: nat)
    requires SP.IsBest(accounts, i) && SP.IsBest(accounts, j)
    ensures i == j
  {
    assert SP.Precedes(accounts[i], i, accounts[j], j) && SP.Precedes(accounts[j], j, accounts[i], i);
  }

  lemma CycleUsesOnce(accounts: seq<SP.Account>, signer: nat, report: Option<bool>)
    requires signer < |accounts|
    ensures var after := LeaseCycle(accounts, signer, report);
            && |after| == |accounts| && (forall i :: 0 <= i < |after| && i != signer ==> after[i] == accounts[i])
            && UsedOnce(accounts[signer], after[signer], report.Some?, report == Some(true))
  {
  }

  lemma OutcomeOutright(cfg: Config, m: Memory, key: ApiKey, submit: bool, item: Item)
    ensures var o := ItemOutcome(cfg, m, key, submit, item);
            Outright(cfg, m, o.memory, o.ok, key, submit, item)
  {
    SP.LeasesTheBest(m.accounts);
    ReadSpendIs(m.ledger, Reads(item.readAt, |m.ledger|), key.tenant);
    var lease := SP.Choose(m.accounts);
    if item.valid && lease.Some? {
      var report := if Affordable(m.ledger, key, item) then Verdict(cfg, submit, item.submitted) else None;
      CycleUsesOnce(m.accounts, lease.value, report);
      forall i | SP.IsBest(m.accounts, i)
        ensures i == lease.value
      {
        BestIsOne(m.accounts, i, lease.value);
      }
    }
  }

  datatype BatchOutcome = BatchOutcome(memory: Memory, done: nat)

  /** The items from `done` on, up to the first that fails. */
  function ItemsOutcome(cfg: Config, m: Memory, key: ApiKey, submit: bool, items: seq<Item>, done: nat): BatchOutcome
    requires done <= |items|
    decreases |items| - done
  {
    if done == |items| then BatchOutcome(m, done)
    else
      var first := ItemOutcome(cfg, m, key, submit, items[done]);
      if first.ok then ItemsOutcome(cfg, first.memory, key, submit, items, done + 1)
      else BatchOutcome(first.memory, done)
  }

  /** One item of a batch: what is left to work out, and what was charged. */
  lemma NextOutcome(cfg: Config, m: Memory, key: ApiKey, submit: bool, items: seq<Item>, done: nat, o: Outcome)
    requires done < |items| && o == ItemOutcome(cfg, m, key, submit, items[done])
    ensures ItemsOutcome(cfg, m, key, submit, items, done) ==
            if o.ok then ItemsOutcome(cfg, o.memory, key, submit, items, done + 1) else BatchOutcome(o.memory, done)
    ensures o.memory.ledger == m.ledger + [RecordOf(key, items[done])] || (!o.ok && o.memory.ledger == m.ledger)
  {
  }

  /** `Outright`, of any two memories, result and item. */
  ghost function Told(cfg: Config, key: ApiKey, submit: bool): (Memory, Memory, bool, Item) -> bool {
    (before: Memory, after: Memory, ok: bool, item: Item) => Outright(cfg, before, after, ok, key, submit, item)
  }

  /**
   Items from position `from` on, worked through one by one: `memories` is what there was before and
   after each. Those before `done` succeed, and the one at `done`, if there is one, fails and is the last.
   */
  ghost predicate Worked(told: (Memory, Memory, bool, Item) -> bool, memories: seq<Memory>, items: seq<Item>,
                         from: nat, done: nat)
  {
    && from <= done <= |items| && |memories| == done - from + (if done == |items| then 1 else 2)
    && (forall i :: from <= i < done ==> told(memories[i - from], memories[i - from + 1], true, items[i]))
    && (done < |items| ==> told(memories[done - from], memories[done - from + 1], false, items[done]))
  }

  lemma WorkedNext(told: (Memory, Memory, bool, Item) -> bool, m: Memory, memories: seq<Memory>, items: seq<Item>,
                   from: nat, done: nat)
    requires from < |items| && Worked(told, memories, items, from + 1, done)
    requires told(m, memories[0], true, items[from])
    ensures Worked(told, [m] + memories, items, from, done)
  {
    var all := [m] + memories;
    forall i | from <= i < done
      ensures told(all[i - from], all[i - from + 1], true, items[i])
    {
      if i > from { assert all[i - from] == memories[i - (from + 1)]; }
    }
  }

  /** How a batch goes on from what its next item leaves. */
  ghost predicate GoesOn(o: BatchOutcome, first: Outcome, rest: BatchOutcome, from: nat) {
    o == if first.ok then rest else BatchOutcome(first.memory, from)
  }

  lemma BatchNext(cfg: Config, m: Memory, key: ApiKey, submit: bool, items: seq<Item>, from: nat)
    returns (first: Outcome)
    requires from < |items|
    ensures Told(cfg, key, submit)(m, first.memory, first.ok, items[from])
    ensures GoesOn(ItemsOutcome(cfg, m, key, submit, items, from), first,
                   ItemsOutcome(cfg, first.memory, key, submit, items, from + 1), from)
  {
    first := ItemOutcome(cfg, m, key, submit, items[from]);
    OutcomeOutright(cfg, m, key, submit, items[from]);
  }

  /** A batch whose outcome from every position and memory is that of its next item and the rest is worked through. */
  lemma {:induction false} WorksThrough(told: (Memory, Memory, bool, Item) -> bool,
                                        outcome: (Memory, nat) -> BatchOutcome, items: seq<Item>, m: Memory, from: nat)
    returns (memories: seq<Memory>)
    requires from <= |items| && forall x :: outcome(x, |items|) == BatchOutcome(x, |items|)
    requires forall x, i: nat :: i < |items| ==> GoesBy(told, outcome, items, x, i)
    ensures Worked(told, memories, items, from, outcome(m, from).done)
    ensures memories[0] == m && memories[|memories| - 1] == outcome(m, from).memory
    decreases |items| - from
  {
    if from == |items| {
      memories := [m];
    } else {
      assert GoesBy(told, outcome, items, m, from);
      var first: Outcome :| told(m, first.memory, first.ok, items[from]) &&
        GoesOn(outcome(m, from), first, outcome(first.memory, from + 1), from);
      if first.ok {
        memories := WorksThrough(told, outcome, items, first.memory, from + 1);
        WorkedNext(told, m, memories, items, from, outcome(m, from).done);
        memories := [m] + memories;
      } else {
        memories := [m, first.memory];
      }
    }
  }

  ghost predicate GoesBy(told: (Memory, Memory, bool, Item) -> bool, outcome: (Memory, nat) -> BatchOutcome,
                         items: seq<Item>, m: Memory, from: nat)
    requires from < |items|
  {
    exists first: Outcome :: told(m, first.memory, first.ok, items[from]) &&
      GoesOn(outcome(m, from), first, outcome(first.memory, from + 1), from)
  }

  lemma GoesByFirst(told: (Memory, Memory, bool, Item) -> bool, outcome: (Memory, nat) -> BatchOutcome,
                    items: seq<Item>, m: Memory, from: nat, first: Outcome)
    requires from < |items| && told(m, first.memory, first.ok, items[from])
    requires GoesOn(outcome(m, from), first, outcome(first.memory, from + 1), from)
    ensures GoesBy(told, outcome, items, m, from)
  {
  }

  /** The outcome of a batch from a position on; past the end there is nothing to do. */
  ghost function OutcomeFrom(cfg: Config, key: ApiKey, submit: bool, items: seq<Item>): (Memory, nat) -> BatchOutcome {
    (m: Memory, i: nat) =>
      if i < |items| then ItemsOutcome(cfg, m, key, submit, items, i) else BatchOutcome(m, i)
  }

  lemma OutcomeFromIs(cfg: Config, m: Memory, key: ApiKey, submit: bool, items: seq<Item>, i: nat)
    requires i <= |items|
    ensures OutcomeFrom(cfg, key, submit, items)(m, i) == ItemsOutcome(cfg, m, key, submit, items, i)
  {
  }

  lemma ItemsWorked(cfg: Config, m: Memory, key: ApiKey, submit: bool, items: seq<Item>)
    returns (memories: seq<Memory>)
    ensures var o := ItemsOutcome(cfg, m, key, submit, items, 0);
            && Worked(Told(cfg, key, submit), memories, items, 0, o.done)
            && memories[0] == m && memories[|memories| - 1] == o.memory
  {
    var told, outcome := Told(cfg, key, submit), OutcomeFrom(cfg, key, submit, items);
    forall x, i: nat | i < |items|
      ensures GoesBy(told, outcome, items, x, i)
    {
      ItemGoes(cfg, x, key, submit, items, i, told, outcome);
    }
    memories := WorksThrough(told, outcome, items, m, 0);
    OutcomeFromIs(cfg, m, key, submit, items, 0);
  }

  lemma ItemGoes(cfg: Config, m: Memory, key: ApiKey, submit: bool, items: seq<Item>, i: nat,
                 told: (Memory, Memory, bool, Item) -> bool, outcome: (Memory, nat) -> BatchOutcome)
    requires told == Told(cfg, key, submit) && outcome == OutcomeFrom(cfg, key, submit, items) && i < |items|
    ensures GoesBy(told, outcome, items, m, i)
  {
    var first := BatchNext(cfg, m, key, submit, items, i);
    OutcomeFromIs(cfg, m, key, submit, items, i);
    OutcomeFromIs(cfg, first.memory, key, submit, items, i + 1);
    GoesByFirst(told, outcome, items, m, i, first);
  }

  class Gateway {
    const cfg: Config
    const pool: SP.Pool
    var clock: nat
    var ledger: seq<Record>

    constructor (cfg: Config, pool: SP.Pool)
      ensures this.cfg == cfg && this.pool == pool && clock == 0 && ledger == []
    {
      this.cfg, this.pool, clock, ledger := cfg, pool, 0, [];
    }

    /** The machine's state with this server's memory and the given tasks. */
    ghost function Now(tasks: seq<Task>): State
      reads this, pool
    {
      State(clock, pool.accounts, tasks, ledger)
    }

    /** The sum over the ledger, with the day start taken anew at each record. */
    method CurrentSpend(tenant: string, readAt: nat -> nat) returns (spend: nat)
      ensures spend == ReadSpend(ledger, Reads(readAt, |ledger|), tenant)
      ensures spend == SpentByDays(ledger, Reads(readAt, |ledger|), tenant)
    {
      spend := 0;
      ghost var times := Reads(readAt, |ledger|);
      for k := 0 to |ledger|
        invariant spend == ReadSpend(ledger[..k], times[..k], tenant)
      {
        assert ledger[..k + 1][..k] == ledger[..k] && times[..k + 1][..k] == times[..k];
        if ledger[k].tenant == tenant && ledger[k].createdAt >= DayStart(readAt(k)) {
          spend := spend + ledger[k].fee;
        }
      }
      assert ledger[..|ledger|] == ledger && times[..|ledger|] == times;
      ReadSpendIs(ledger, times, tenant);
    }

    /** The part of a request after the push. */
    method Settle(signer: nat, submit: bool, submitted: bool, ghost tasks: seq<Task>, ghost t: nat)
      returns (ok: bool, ghost trace: seq<Action>)
      requires t < |tasks| && tasks[t].submit == submit && tasks[t].phase == Recorded(signer)
      modifies pool
      ensures ok == Succeeds(cfg, submit, submitted)
      ensures pool.accounts == ReportedAt(old(pool.accounts), signer, Verdict(cfg, submit, submitted))
      ensures Steps(cfg, old(Now(tasks)), trace) == Now(tasks[t := tasks[t].(phase := Releasing(signer, ok))])
    {
      ghost var s := Now(tasks);
      if !submit {
        trace := SettlesAlone(cfg, s, t);
        return true, trace;
      }
      if !cfg.horizon {
        trace := SettlesAlone(cfg, s, t);
        return false, trace;
      }
      trace := SettlesByAnswer(cfg, s, t, submitted);
      if submitted {
        pool.ReportSuccess(signer);
      } else {
        pool.ReportFailure(signer);
      }
      return submitted, trace;
    }

    /** The part of a request that holds a lease. */
    method Sponsor(signer: nat, key: ApiKey, submit: bool, item: Item, ghost tasks: seq<Task>, ghost t: nat)
      returns (ok: bool, ghost trace: seq<Action>)
      requires t < |tasks| && tasks[t].key == key && tasks[t].submit == submit && tasks[t].phase == Leased(signer)
      requires OnTime(clock, item)
      modifies this, pool
      ensures ok == (Affordable(old(ledger), key, item) && Succeeds(cfg, submit, item.submitted))
      ensures pool.accounts == ReportedAt(old(pool.accounts), signer,
                if Affordable(old(ledger), key, item) then Verdict(cfg, submit, item.submitted) else None)
      ensures ledger ==
              if Affordable(old(ledger), key, item) then old(ledger) + [RecordOf(key, item)] else old(ledger)
      ensures old(clock) <= clock <= item.pushedAt
      ensures Steps(cfg, old(Now(tasks)), trace) == Now(tasks[t := tasks[t].(phase := Releasing(signer, ok))])
    {
      ghost var s := Now(tasks);
      NoSteps(cfg, s);
      if item.fee.None? {
        Advance(cfg, s, [], CreateFails(t));
        return false, [] + [CreateFails(t)];
      }
      var fee := item.fee.value;
      var spend := CurrentSpend(key.tenant, item.readAt);
      clock := item.checkedAt;
      ghost var check := CheckQuota(t, Reads(item.readAt, |ledger|), clock);
      if spend + fee > key.quota {
        trace := QuotaRefuses(cfg, s, t, fee, check);
        return false, trace;
      }
      trace := QuotaClears(cfg, s, t, fee, check, item.pushedAt);
      clock := item.pushedAt;
      ledger := ledger + [Record(clock, fee, key.tenant)];
      ghost var recorded := tasks[t := tasks[t].(phase := Recorded(signer))];
      ghost var rest;
      ok, rest := Settle(signer, submit, item.submitted, recorded, t);
      StepsConcat(cfg, s, trace, rest);
      assert recorded[t := recorded[t].(phase := Releasing(signer, ok))] ==
          tasks[t := tasks[t].(phase := Releasing(signer, ok))];
      trace := trace + rest;
    }

    /** The lease at the start of a request, as far as the steps need it. */
    method TakeLease() returns (lease: Option<nat>)
      modifies pool
      ensures lease == SP.Choose(old(pool.accounts))
      ensures lease.None? ==> pool.accounts == old(pool.accounts)
      ensures lease.Some? ==> var i := lease.value;
                pool.accounts == old(pool.accounts)[i := SP.Leased(old(pool.accounts)[i])]
    {
      lease := pool.Acquire();
    }

    /** Its return at the end. */
    method ReturnLease(signer: nat)
      modifies pool
      ensures pool.accounts == SP.UpdateAt(old(pool.accounts), signer, SP.Released)
    {
      pool.Release(signer);
    }

    /** The body of `process_fee_bump_request`, as task `t` among any others. */
    method Handle(key: ApiKey, submit: bool, item: Item, ghost tasks: seq<Task>, ghost t: nat)
      returns (ok: bool, ghost trace: seq<Action>)
      requires t < |tasks| && tasks[t].key == key && tasks[t].submit == submit && tasks[t].phase == Waiting
      requires OnTime(clock, item)
      modifies this, pool
      ensures Outcome(Memory(pool.accounts, ledger), ok) ==
              ItemOutcome(cfg, Memory(old(pool.accounts), old(ledger)), key, submit, item)
      ensures old(clock) <= clock <= item.pushedAt
      ensures Steps(cfg, old(Now(tasks)), trace) == Now(tasks[t := ItemOver(tasks[t], ok)])
    {
      ghost var s := Now(tasks);
      NoSteps(cfg, s);
      if !item.valid {
        Advance(cfg, s, [], Reject(t));
        return false, [] + [Reject(t)];
      }
      var lease := TakeLease();
      trace := TakesLease(cfg, s, t);
      if lease.None? {
        return false, trace;
      }
      ghost var leased := tasks[t := tasks[t].(phase := Leased(lease.value))];
      ghost var rest;
      ok, rest := Sponsor(lease.value, key, submit, item, leased, t);
      ghost var held := Now(leased[t := leased[t].(phase := Releasing(lease.value, ok))]);
      trace := ReturnsLease(cfg, s, trace, rest, held, tasks, t);
      ReturnLease(lease.value);
    }

    /** `process_fee_bump_request`: what it does, told outright, as a run of the pipeline's steps. */
    method Process(key: ApiKey, submit: bool, item: Item, ghost tasks: seq<Task>, ghost t: nat)
      returns (ok: bool, ghost trace: seq<Action>)
      requires t < |tasks| && tasks[t].key == key && tasks[t].submit == submit && tasks[t].phase == Waiting
      requires OnTime(clock, item)
      modifies this, pool
      ensures var before, after := Memory(old(pool.accounts), old(ledger)), Memory(pool.accounts, ledger);
              Outright(cfg, before, after, ok, key, submit, item)
      ensures SameLeases(old(pool.accounts), pool.accounts) && old(clock) <= clock <= item.pushedAt
      ensures Steps(cfg, old(Now(tasks)), trace) == Now(tasks[t := ItemOver(tasks[t], ok)])
    {
      OutcomeOutright(cfg, Memory(pool.accounts, ledger), key, submit, item);
      OutcomeKeepsLeases(cfg, Memory(pool.accounts, ledger), key, submit, item);
      ok, trace := Handle(key, submit, item, tasks, t);
    }

    /** A batch that started in `s` has done `done` items, all of them with success, and goes on. */
    ghost predicate SoFar(key: ApiKey, submit: bool, items: seq<Item>, done: nat,
                          tasks: seq<Task>, t: nat, s: State, trace: seq<Action>)
      reads this, pool
      requires t < |tasks|
    {
      && done <= |items| && clock <= (if done == 0 then s.clock else items[done - 1].pushedAt)
      && SameLeases(s.accounts, pool.accounts)
      && ledger == s.ledger + Records(key, items, done)
      && ItemsOutcome(cfg, Memory(pool.accounts, ledger), key, submit, items, done) ==
         ItemsOutcome(cfg, Memory(s.accounts, s.ledger), key, submit, items, 0)
      && Steps(cfg, s, trace) == Now(tasks[t := Turned(key, submit, |items|, done)])
    }

    /** A batch that started in `s` has ended after `done` successful items. */
    ghost predicate Over(key: ApiKey, submit: bool, items: seq<Item>, done: nat,
                         tasks: seq<Task>, t: nat, s: State, trace: seq<Action>)
      reads this, pool
      requires t < |tasks|
    {
      && done <= |items| && SameLeases(s.accounts, pool.accounts)
      && (ledger == s.ledger + Records(key, items, done)
          || (done < |items| && ledger == s.ledger + Records(key, items, done + 1)))
      && ItemsOutcome(cfg, Memory(s.accounts, s.ledger), key, submit, items, 0) ==
         BatchOutcome(Memory(pool.accounts, ledger), done)
      && Steps(cfg, s, trace) == Now(tasks[t := Ended(key, submit, |items|, done)])
    }

    lemma BatchBegins(key: ApiKey, submit: bool, items: seq<Item>, tasks: seq<Task>, t: nat)
      requires t < |tasks| && tasks[t] == Turned(key, submit, |items|, 0)
      ensures SoFar(key, submit, items, 0, tasks, t, Now(tasks), [])
    {
      NoSteps(cfg, Now(tasks));
      assert tasks[t := tasks[t]] == tasks;
    }

    lemma BatchEnds(key: ApiKey, submit: bool, items: seq<Item>, tasks: seq<Task>, t: nat, s: State, trace: seq<Action>)
      requires t < |tasks| && SoFar(key, submit, items, |items|, tasks, t, s, trace)
      ensures Over(key, submit, items, |items|, tasks, t, s, trace)
    {
    }

    /** One turn of a batch, after the turns that `before` traces. */
    method TakeTurn(key: ApiKey, submit: bool, items: seq<Item>, done: nat,
                    ghost tasks: seq<Task>, ghost t: nat, ghost s: State, ghost before: seq<Action>)
      returns (ok: bool, ghost trace: seq<Action>)
      requires t < |tasks| && SoFar(key, submit, items, done, tasks, t, s, before)
      requires done < |items| && InOrder(s.clock, items)
      modifies this, pool
      ensures ok ==> SoFar(key, submit, items, done + 1, tasks, t, s, trace)
      ensures !ok ==> Over(key, submit, items, done, tasks, t, s, trace)
    {
      InOrderAt(s.clock, items, done, clock);
      ghost var rest;
      ghost var m := Memory(pool.accounts, ledger);
      OutcomeKeepsLeases(cfg, m, key, submit, items[done]);
      ok, rest := Handle(key, submit, items[done], tasks[t := Turn(key, submit, |items|, done)], t);
      StepsConcat(cfg, s, before, rest);
      trace := before + rest;
      TurnOver(key, submit, |items|, done, tasks, t, ok);
      NextOutcome(cfg, m, key, submit, items, done, Outcome(Memory(pool.accounts, ledger), ok));
    }

    /** The loop of `fee_bump_batch`, which stops at the first item that fails. */
    method WorkThrough(key: ApiKey, submit: bool, items: seq<Item>, ghost tasks: seq<Task>, ghost t: nat)
      returns (ok: bool, done: nat, ghost trace: seq<Action>)
      requires t < |tasks| && tasks[t] == Turned(key, submit, |items|, 0)
      requires InOrder(clock, items)
      modifies this, pool
      ensures ok <==> done == |items|
      ensures Over(key, submit, items, done, tasks, t, old(Now(tasks)), trace)
    {
      done, trace := 0, [];
      BatchBegins(key, submit, items, tasks, t);
      while done < |items|
        invariant done <= |items| && SoFar(key, submit, items, done, tasks, t, old(Now(tasks)), trace)
      {
        ok, trace := TakeTurn(key, submit, items, done, tasks, t, old(Now(tasks)), trace);
        if !ok {
          return false, done, trace;
        }
        done := done + 1;
      }
      BatchEnds(key, submit, items, tasks, t, old(Now(tasks)), trace);
      ok := true;
    }

    /**
     `fee_bump_batch`: the items are processed one after the other, each as `Outright` tells, up to the
     first that fails. Those done before it stay charged, and so does the failing one if it failed after
     the push.
     */
    method Batch(key: ApiKey, submit: bool, items: seq<Item>, ghost tasks: seq<Task>, ghost t: nat)
      returns (ok: bool, done: nat, ghost trace: seq<Action>, ghost memories: seq<Memory>)
      requires t < |tasks| && tasks[t] == Turned(key, submit, |items|, 0)
      requires InOrder(clock, items)
      modifies this, pool
      ensures ok <==> done == |items|
      ensures Worked(Told(cfg, key, submit), memories, items, 0, done)
      ensures memories[0] == Memory(old(pool.accounts), old(ledger))
      ensures memories[|memories| - 1] == Memory(pool.accounts, ledger)
      ensures Over(key, submit, items, done, tasks, t, old(Now(tasks)), trace)
    {
      memories := ItemsWorked(cfg, Memory(pool.accounts, ledger), key, submit, items);
      ok, done, trace := WorkThrough(key, submit, items, tasks, t);
    }
  }

  /** A batch task whose turn it is to process item `done`. */
  function Turn(key: ApiKey, submit: bool, items: nat, done: nat): Task
    requires done < items
  {
    Task(key, submit, items - 1 - done, Waiting)
  }

  /** A batch task that ended with `done` results. */
  function Ended(key: ApiKey, submit: bool, items: nat, done: nat): Task
    requires done <= items
  {
    if done == items then Task(key, submit, 0, Finished(true)) else Task(key, submit, items - 1 - done, Finished(false))
  }

  function Turned(key: ApiKey, submit: bool, items: nat, done: nat): Task
    requires done <= items
  {
    if done < items then Turn(key, submit, items, done) else Ended(key, submit, items, done)
  }

  lemma TurnOver(key: ApiKey, submit: bool, items: nat, done: nat, tasks: seq<Task>, t: nat, ok: bool)
    requires done < items && t < |tasks|
    ensures var now := tasks[t := Turn(key, submit, items, done)];
            now[t := ItemOver(now[t], ok)] ==
            tasks[t := if ok then Turned(key, submit, items, done + 1) else Ended(key, submit, items, done)]
  {
  }

  /** The ledger records of the first `n` items. */
  function Records(key: ApiKey, items: seq<Item>, n: nat): seq<Record>
    requires n <= |items|
  {
    if n == 0 then []
    else Records(key, items, n - 1) + [RecordOf(key, items[n - 1])]
  }

  function RecordOf(key: ApiKey, item: Item): Record {
    Record(item.pushedAt, if item.fee.Some? then item.fee.value else 0, key.tenant)
  }

  /** The clock readings of a batch follow one another. */
  ghost predicate InOrder(clock: nat, items: seq<Item>) {
    forall i :: 0 <= i < |items| ==> OnTime(if i == 0 then clock else items[i - 1].pushedAt, items[i])
  }

  lemma InOrderAt(clock: nat, items: seq<Item>, i: nat, now: nat)
    requires InOrder(clock, items) && i < |items| && now <= if i == 0 then clock else items[i - 1].pushedAt
    ensures OnTime(now, items[i])
  {
  }

  ghost predicate SameLeases(before: seq<SP.Account>, after: seq<SP.Account>) {
    |after| == |before| && forall i :: 0 <= i < |after| ==> after[i].inFlight == before[i].inFlight
  }

  lemma OutcomeKeepsLeases(cfg: Config, m: Memory, key: ApiKey, submit: bool, item: Item)
    ensures SameLeases(m.accounts, ItemOutcome(cfg, m, key, submit, item).memory.accounts)
  {
    var lease := SP.Choose(m.accounts);
    if item.valid && lease.Some? {
      LeaseBalanced(m.accounts, lease.value,
                    if Affordable(m.ledger, key, item) then Verdict(cfg, submit, item.submitted) else None);
    }
  }

  /** Leasing, reporting and releasing leave all leases as they were. */
  lemma LeaseBalanced(accounts: seq<SP.Account>, signer: nat, report: Option<bool>)
    requires signer < |accounts|
    ensures SameLeases(accounts, LeaseCycle(accounts, signer, report))
  {
  }

  lemma TakesLease(cfg: Config, s: State, t: nat) returns (trace: seq<Action>)
    requires t < |s.tasks| && s.tasks[t].phase.Waiting?
    ensures var lease := SP.Choose(s.accounts);
            Steps(cfg, s, trace) ==
            if lease.None? then To(s, t, Finished(false))
            else
              To(s, t, Leased(lease.value))
              .(accounts := s.accounts[lease.value := SP.Leased(s.accounts[lease.value])])
  {
    NoSteps(cfg, s);
    Advance(cfg, s, [], Acquire(t));
    trace := [] + [Acquire(t)];
  }

  lemma ReturnsLease(cfg: Config, s: State, first: seq<Action>, rest: seq<Action>, held: State, tasks: seq<Task>,
                     t: nat)
    returns (trace: seq<Action>)
    requires Steps(cfg, Steps(cfg, s, first), rest) == held && t < |tasks| && |held.tasks| == |tasks|
    requires held.tasks[t].phase.Releasing? && tasks[t].phase.Waiting?
    requires held.tasks == tasks[t := tasks[t].(phase := held.tasks[t].phase)]
    ensures Steps(cfg, s, trace) ==
            held.(tasks := tasks[t := ItemOver(tasks[t], held.tasks[t].phase.ok)],
                  accounts := SP.UpdateAt(held.accounts, held.tasks[t].phase.signer, SP.Released))
  {
    StepsConcat(cfg, s, first, rest);
    Advance(cfg, s, first + rest, Release(t));
    trace := first + rest + [Release(t)];
    assert held.tasks[t := ItemOver(tasks[t], held.tasks[t].phase.ok)] ==
        tasks[t := ItemOver(tasks[t], held.tasks[t].phase.ok)];
  }

  /** A request that does not go to Horizon, because it need not or cannot. */
  lemma SettlesAlone(cfg: Config, s: State, t: nat) returns (trace: seq<Action>)
    requires t < |s.tasks| && s.tasks[t].phase.Recorded? && (!s.tasks[t].submit || !cfg.horizon)
    ensures Steps(cfg, s, trace) == To(s, t, Releasing(s.tasks[t].phase.signer, !s.tasks[t].submit))
  {
    NoSteps(cfg, s);
    Advance(cfg, s, [], Settle(t));
    trace := [] + [Settle(t)];
  }

  /** A request that does: Horizon answers, and the pool is told. */
  lemma SettlesByAnswer(cfg: Config, s: State, t: nat, ok: bool) returns (trace: seq<Action>)
    requires t < |s.tasks| && s.tasks[t].phase.Recorded? && s.tasks[t].submit && cfg.horizon
    ensures Steps(cfg, s, trace) ==
            To(s, t, Releasing(s.tasks[t].phase.signer, ok))
            .(accounts := ReportedAt(s.accounts, s.tasks[t].phase.signer, Some(ok)))
  {
    NoSteps(cfg, s);
    Advance(cfg, s, [], Submit(t, ok));
    Advance(cfg, s, [] + [Submit(t, ok)], Report(t));
    trace := [] + [Submit(t, ok)] + [Report(t)];
    var task, signer := s.tasks[t], s.tasks[t].phase.signer;
    assert s.tasks[t := task.(phase := Answered(signer, ok))][t := task.(phase := Releasing(signer, ok))]
        == s.tasks[t := task.(phase := Releasing(signer, ok))];
  }

  /** Building and the quota check, refused. */
  lemma QuotaRefuses(cfg: Config, s: State, t: nat, fee: nat, check: Action) returns (trace: seq<Action>)
    requires t < |s.tasks| && s.tasks[t].phase.Leased?
    requires check.CheckQuota? && check.task == t && ReadsNow(s, check.readAt, check.now)
    requires ReadSpend(s.ledger, check.readAt, s.tasks[t].key.tenant) + fee > s.tasks[t].key.quota
    ensures Steps(cfg, s, trace) == To(s, t, Releasing(s.tasks[t].phase.signer, false)).(clock := check.now)
  {
    NoSteps(cfg, s);
    Advance(cfg, s, [], Create(t, fee));
    Advance(cfg, s, [] + [Create(t, fee)], check);
    trace := [] + [Create(t, fee)] + [check];
    var signer := s.tasks[t].phase.signer;
    assert s.tasks[t := s.tasks[t].(phase := Priced(signer, fee))][t := s.tasks[t].(phase := Releasing(signer, false))]
        == s.tasks[t := s.tasks[t].(phase := Releasing(signer, false))];
  }

  /** Building, a quota check that passes, and the push. */
  lemma QuotaClears(cfg: Config, s: State, t: nat, fee: nat, check: Action, pushedAt: nat) returns (trace: seq<Action>)
    requires t < |s.tasks| && s.tasks[t].phase.Leased?
    requires check.CheckQuota? && check.task == t && ReadsNow(s, check.readAt, check.now)
    requires ReadSpend(s.ledger, check.readAt, s.tasks[t].key.tenant) + fee <= s.tasks[t].key.quota
    requires check.now <= pushedAt
    ensures Steps(cfg, s, trace) ==
            To(s, t, Recorded(s.tasks[t].phase.signer))
            .(clock := pushedAt, ledger := s.ledger + [Record(pushedAt, fee, s.tasks[t].key.tenant)])
  {
    NoSteps(cfg, s);
    Advance(cfg, s, [], Create(t, fee));
    Advance(cfg, s, [] + [Create(t, fee)], check);
    Advance(cfg, s, [] + [Create(t, fee)] + [check], Push(t, pushedAt));
    trace := [] + [Create(t, fee)] + [check] + [Push(t, pushedAt)];
    var task, signer := s.tasks[t], s.tasks[t].phase.signer;
    assert s.tasks[t := task.(phase := Priced(signer, fee))][t := task.(phase := Cleared(signer, fee))]
                  [t := task.(phase := Recorded(signer))] == s.tasks[t := task.(phase := Recorded(signer))];
  }
}
