/** The signer pool of `paymaster-server/src/state.rs`. */
module SignerPool {
  import opened Prelude

  const FAILURE_THRESHOLD: nat := 3

  datatype Account = Account(active: bool, balance: Option<nat>, failures: nat, totalUses: nat, inFlight: nat)

  function Balance(a: Account): nat {
    if a.balance.Some? then a.balance.value else 0
  }

  /** The order of `max_by_key`: higher balance first, then fewer leases in flight. */
  predicate AtLeast(a: Account, b: Account) {
    Balance(a) > Balance(b) || (Balance(a) == Balance(b) && a.inFlight <= b.inFlight)
  }

  /** The last of the best active accounts. */
  function Choose(accounts: seq<Account>): (r: Option<nat>)
    ensures r.Some? ==> r.value < |accounts|
  {
    if accounts == [] then None
    else
      var n := |accounts| - 1;
      var best := Choose(accounts[..n]);
      if accounts[n].active && (best.None? || AtLeast(accounts[n], accounts[best.value])) then Some(n) else best
  }

  function Leased(a: Account): Account {
    a.(inFlight := a.inFlight + 1, totalUses := a.totalUses + 1)
  }

  function Released(a: Account): Account {
    a.(inFlight := if a.inFlight == 0 then 0 else a.inFlight - 1)
  }

  function Succeeded(a: Account): Account {
    a.(failures := 0)
  }

  function Failed(a: Account): Account {
    a.(failures := a.failures + 1, active := a.active && a.failures + 1 < FAILURE_THRESHOLD)
  }

  /** What a revalidation answer does, given whether the account was active when the round started. */
  function Revalidated(a: Account, balance: Option<nat>, wasActive: bool): Account {
    if wasActive then a.(balance := balance) else a.(balance := balance, active := true, failures := 0)
  }

  /** An update of one account; an index out of range changes nothing. */
  function UpdateAt(accounts: seq<Account>, i: nat, f: Account -> Account): seq<Account> {
    if i < |accounts| then accounts[i := f(accounts[i])] else accounts
  }

  datatype PoolError = NoSecrets | BadSecret(index: nat)

  class Pool {
    var accounts: seq<Account>

    constructor (accounts: seq<Account>)
      ensures this.accounts == accounts
    {
      this.accounts := accounts;
    }

    /** `SignerPool::new`: a pool needs at least one secret, and every secret has to decode. */
    static method Create(secrets: seq<string>, decodes: string -> bool) returns (pool: Pool?, error: Option<PoolError>)
      ensures pool == null <==> error.Some?
      ensures error == Some(NoSecrets) <==> secrets == []
      ensures error.Some? && secrets != [] ==>
                && error.value.BadSecret? && error.value.index < |secrets| && !decodes(secrets[error.value.index])
                && forall i :: 0 <= i < error.value.index ==> decodes(secrets[i])
      ensures pool != null ==>
                && fresh(pool) && pool.accounts == Fresh(|secrets|)
                && forall i :: 0 <= i < |secrets| ==> decodes(secrets[i])
    {
      if |secrets| == 0 {
        return null, Some(NoSecrets);
      }
      var accounts: seq<Account> := [];
      for i := 0 to |secrets|
        invariant accounts == Fresh(i)
        invariant forall j :: 0 <= j < i ==> decodes(secrets[j])
      {
        if !decodes(secrets[i]) {
          return null, Some(BadSecret(i));
        }
        accounts := accounts + [Account(true, None, 0, 0, 0)];
      }
      pool := new Pool(accounts);
      error := None;
    }

    /** `acquire`: the index of the leased account, or none when no account is active. */
    method Acquire() returns (lease: Option<nat>)
      modifies this
      ensures lease == Choose(old(accounts))
      ensures lease.Some? <==> exists i :: 0 <= i < |old(accounts)| && old(accounts)[i].active
      ensures lease.None? ==> accounts == old(accounts)
      ensures lease.Some? ==>
                && IsBest(old(accounts), lease.value)
                && var a, i := old(accounts)[lease.value], lease.value;
                   accounts == old(accounts)[i := a.(inFlight := a.inFlight + 1, totalUses := a.totalUses + 1)]
    {
      lease := None;
      for i := 0 to |accounts|
        invariant accounts == old(accounts)
        invariant lease == Choose(accounts[..i])
      {
        assert accounts[..i + 1][..i] == accounts[..i];
        if accounts[i].active && (lease.None? || AtLeast(accounts[i], accounts[lease.value])) {
          lease := Some(i);
        }
      }
      assert accounts[..|accounts|] == accounts;
      LeasesTheBest(accounts);
      if lease.Some? {
        accounts := accounts[lease.value := Leased(accounts[lease.value])];
      }
    }

    method Release(i: nat)
      modifies this
      ensures accounts == UpdateAt(old(accounts), i, Released)
      ensures i < |old(accounts)| ==>
                var a := old(accounts)[i];
                accounts == old(accounts)[i := a.(inFlight := if a.inFlight == 0 then 0 else a.inFlight - 1)]
    {
      if i < |accounts| {
        var a := accounts[i];
        accounts := accounts[i := a.(inFlight := if a.inFlight >= 1 then a.inFlight - 1 else 0)];
      }
    }

    method ReportSuccess(i: nat)
      modifies this
      ensures accounts == UpdateAt(old(accounts), i, Succeeded)
      ensures i < |old(accounts)| ==> accounts == old(accounts)[i := old(accounts)[i].(failures := 0)]
    {
      if i < |accounts| {
        accounts := accounts[i := accounts[i].(failures := 0)];
      }
    }

    method ReportFailure(i: nat)
      modifies this
      ensures accounts == UpdateAt(old(accounts), i, Failed)
      ensures i < |old(accounts)| ==>
                var a := old(accounts)[i];
                accounts == old(accounts)[i := a.(failures := a.failures + 1, active := a.active && a.failures < 2)]
    {
      if i < |accounts| {
        var a := accounts[i].(failures := accounts[i].failures + 1);
        if a.failures >= FAILURE_THRESHOLD && a.active {
          a := a.(active := false);
        }
        accounts := accounts[i := a];
      }
    }

    /** The update `revalidate` makes when the answer for one account arrives. */
    method Revalidate(i: nat, balance: Option<nat>, wasActive: bool)
      modifies this
      ensures accounts == UpdateAt(old(accounts), i, a => Revalidated(a, balance, wasActive))
      ensures i < |old(accounts)| ==>
                var a := old(accounts)[i];
                var failures := if wasActive then a.failures else 0;
                var active := a.active || !wasActive;
                accounts == old(accounts)[i := a.(active := active, balance := balance, failures := failures)]
    {
      if i < |accounts| {
        var a := accounts[i].(balance := balance);
        if !wasActive {
          a := a.(active := true, failures := 0);
        }
        accounts := accounts[i := a];
      }
    }
  }

  function Fresh(n: nat): (s: seq<Account>)
    ensures |s| == n
  {
    seq(n, _ => Account(true, None, 0, 0, 0))
  }

  // -------------------------------------------------------------- selection

  /** A choice is made exactly when some account is active, and no active account is better. */
  lemma {:induction false} ChoosesTheBest(accounts: seq<Account>)
    ensures Choose(accounts).Some? <==> exists i :: 0 <= i < |accounts| && accounts[i].active
    ensures Choose(accounts).Some? ==>
              var best := accounts[Choose(accounts).value];
              best.active && forall j :: 0 <= j < |accounts| && accounts[j].active ==> AtLeast(best, accounts[j])
    ensures Choose(accounts).Some? ==>
              forall j :: Choose(accounts).value < j < |accounts| && accounts[j].active ==>
                !AtLeast(accounts[j], accounts[Choose(accounts).value])
  {
    if accounts == [] {
    } else {
      var n := |accounts| - 1;
      ChoosesTheBest(accounts[..n]);
      assert forall i :: 0 <= i < n ==> accounts[..n][i] == accounts[i];
    }
  }

  /** Account `a` at position `i` goes before `b` at `j`: higher balance, then fewer leases, then the later position. */
  predicate Precedes(a: Account, i: nat, b: Account, j: nat) {
    var x := match a.balance case Some(v) => v case None => 0;
    var y := match b.balance case Some(v) => v case None => 0;
    x > y || (x == y && a.inFlight < b.inFlight) || (x == y && a.inFlight == b.inFlight && j <= i)
  }

  ghost predicate IsBest(accounts: seq<Account>, i: nat) {
    && i < |accounts| && accounts[i].active
    && forall j :: 0 <= j < |accounts| && accounts[j].active ==> Precedes(accounts[i], i, accounts[j], j)
  }

  /** The account leased is active, of the highest known balance, then of the fewest leases, and the last such. */
  lemma LeasesTheBest(accounts: seq<Account>)
    ensures Choose(accounts).Some? <==> exists i :: 0 <= i < |accounts| && accounts[i].active
    ensures Choose(accounts).Some? ==> IsBest(accounts, Choose(accounts).value)
  {
    ChoosesTheBest(accounts);
    if Choose(accounts).Some? {
      var i := Choose(accounts).value;
      forall j | 0 <= j < |accounts| && accounts[j].active
        ensures Precedes(accounts[i], i, accounts[j], j)
      {
        assert AtLeast(accounts[i], accounts[j]);
      }
    }
  }

  /** An account that is active has failed fewer than three times in a row. */
  ghost predicate Trusted(accounts: seq<Account>) {
    forall i :: 0 <= i < |accounts| && accounts[i].active ==> accounts[i].failures < FAILURE_THRESHOLD
  }

  // ------------------------------------------------------------- fair sharing

  /** The pool after `k` acquisitions and no release. */
  function AcquireMany(accounts: seq<Account>, k: nat): seq<Account> {
    if k == 0 then accounts
    else
      var before := AcquireMany(accounts, k - 1);
      var lease := Choose(before);
      if lease.Some? then before[lease.value := Leased(before[lease.value])] else before
  }

  /** Active accounts of one balance, each holding `low` or `low + 1` leases. */
  ghost predicate Level(accounts: seq<Account>, balance: nat, low: nat) {
    forall i :: 0 <= i < |accounts| ==>
      accounts[i].active && Balance(accounts[i]) == balance && low <= accounts[i].inFlight <= low + 1
  }

  lemma LevelStep(accounts: seq<Account>, balance: nat, low: nat) returns (low': nat)
    requires Level(accounts, balance, low) && Choose(accounts).Some?
    ensures Level(accounts[Choose(accounts).value := Leased(accounts[Choose(accounts).value])], balance, low')
  {
    ChoosesTheBest(accounts);
    var i := Choose(accounts).value;
    low' := accounts[i].inFlight;
    assert forall j :: 0 <= j < |accounts| ==> AtLeast(accounts[i], accounts[j]);
  }

  lemma {:induction false} StaysLevel(accounts: seq<Account>, balance: nat, k: nat) returns (low: nat)
    requires Level(accounts, balance, 0) && forall i :: 0 <= i < |accounts| ==> accounts[i].inFlight == 0
    ensures |AcquireMany(accounts, k)| == |accounts| && Level(AcquireMany(accounts, k), balance, low)
  {
    if k == 0 {
      low := 0;
    } else {
      low := StaysLevel(accounts, balance, k - 1);
      if Choose(AcquireMany(accounts, k - 1)).Some? {
        low := LevelStep(AcquireMany(accounts, k - 1), balance, low);
      }
    }
  }

  /** From an idle pool of active accounts with equal balances, any number of leases is spread within one. */
  lemma LeasesSpreadEvenly(accounts: seq<Account>, balance: nat, k: nat)
    requires forall i :: 0 <= i < |accounts| ==>
               accounts[i].active && Balance(accounts[i]) == balance && accounts[i].inFlight == 0
    ensures |AcquireMany(accounts, k)| == |accounts|
    ensures forall i, j :: 0 <= i < |accounts| && 0 <= j < |accounts| ==>
              AcquireMany(accounts, k)[i].inFlight <= AcquireMany(accounts, k)[j].inFlight + 1
  {
    var low := StaysLevel(accounts, balance, k);
  }
}
