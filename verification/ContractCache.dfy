/** The TTL cache of `paymaster-server/src/contract_cache.rs` and its background eviction. */
module ContractCache {
  import opened Prelude

  datatype Definition = Definition(contractId: string, wasmHash: string, network: string,
                                   wasmBytes: Option<seq<byte>>, cachedAtMs: nat)

  datatype Footprint = Footprint(contractId: string, readOnly: seq<string>, readWrite: seq<string>, cachedAtMs: nat)

  datatype Entry<T> = Entry(value: T, expiresAt: nat)

  // -------------------------------------------------------------- one table

  /** What happens to one of the two maps. Eviction reads the clock once per entry it examines. */
  datatype TableOp<T> =
    | Insert(id: string, value: T, now: nat)
    | Remove(id: string)
    | Evict(examinedAt: string -> nat, now: nat)
    | Nothing

  function Lookup<T>(table: map<string, Entry<T>>, id: string, now: nat): Option<T> {
    if id in table && now < table[id].expiresAt then Some(table[id].value) else None
  }

  function Update<T>(ttl: nat, table: map<string, Entry<T>>, op: TableOp<T>): map<string, Entry<T>> {
    match op
    case Insert(id, value, now) => table[id := Entry(value, now + ttl)]
    case Remove(id) => table - {id}
    case Evict(examinedAt, _) => map id | id in table && examinedAt(id) < table[id].expiresAt :: table[id]
    case Nothing => table
  }

  // -------------------------------------------------------------- the cache

  datatype Op =
    | SetDefinition(definition: Definition, now: nat)
    | SetFootprint(footprint: Footprint, now: nat)
    | Invalidate(id: string, now: nat)
    | EvictDefinitions(examinedAt: string -> nat, now: nat)
    | EvictFootprints(examinedAt: string -> nat, now: nat)

  function OnDefinitions(op: Op): TableOp<Definition> {
    match op
    case SetDefinition(d, now) => Insert(d.contractId, d, now)
    case Invalidate(id, _) => Remove(id)
    case EvictDefinitions(examinedAt, now) => Evict(examinedAt, now)
    case _ => Nothing
  }

  function OnFootprints(op: Op): TableOp<Footprint> {
    match op
    case SetFootprint(f, now) => Insert(f.contractId, f, now)
    case Invalidate(id, _) => Remove(id)
    case EvictFootprints(examinedAt, now) => Evict(examinedAt, now)
    case _ => Nothing
  }

  class Cache {
    var definitions: map<string, Entry<Definition>>
    var footprints: map<string, Entry<Footprint>>
    const ttl: nat

    constructor (ttl: nat)
      ensures definitions == map[] && footprints == map[] && this.ttl == ttl
    {
      definitions, footprints := map[], map[];
      this.ttl := ttl;
    }

    method GetDefinition(id: string, now: nat) returns (r: Option<Definition>)
      ensures r == Lookup(definitions, id, now)
      ensures forall d :: r == Some(d) <==>
                id in definitions && definitions[id].value == d && now < definitions[id].expiresAt
    {
      r := if id in definitions && !(now >= definitions[id].expiresAt) then Some(definitions[id].value) else None;
    }

    method GetFootprint(id: string, now: nat) returns (r: Option<Footprint>)
      ensures r == Lookup(footprints, id, now)
      ensures forall f :: r == Some(f) <==>
                id in footprints && footprints[id].value == f && now < footprints[id].expiresAt
    {
      r := if id in footprints && !(now >= footprints[id].expiresAt) then Some(footprints[id].value) else None;
    }

    method PutDefinition(d: Definition, now: nat)
      modifies this`definitions
      ensures definitions == Update(ttl, old(definitions), OnDefinitions(SetDefinition(d, now)))
      ensures definitions == old(definitions)[d.contractId := Entry(d, now + ttl)]
    {
      definitions := definitions[d.contractId := Entry(d, now + ttl)];
    }

    method PutFootprint(f: Footprint, now: nat)
      modifies this`footprints
      ensures footprints == Update(ttl, old(footprints), OnFootprints(SetFootprint(f, now)))
      ensures footprints == old(footprints)[f.contractId := Entry(f, now + ttl)]
    {
      footprints := footprints[f.contractId := Entry(f, now + ttl)];
    }

    method InvalidateId(id: string, now: nat)
      modifies this
      ensures definitions == Update(ttl, old(definitions), OnDefinitions(Invalidate(id, now)))
      ensures footprints == Update(ttl, old(footprints), OnFootprints(Invalidate(id, now)))
      ensures definitions == old(definitions) - {id} && footprints == old(footprints) - {id}
    {
      definitions := definitions - {id};
      footprints := footprints - {id};
    }

    /** The first half of `evict_expired`, under the lock of the definitions. */
    method EvictExpiredDefinitions(examinedAt: string -> nat, now: nat) returns (evicted: nat)
      modifies this`definitions
      ensures definitions == Update(ttl, old(definitions), OnDefinitions(EvictDefinitions(examinedAt, now)))
      ensures forall id :: id in definitions <==>
                id in old(definitions) && examinedAt(id) < old(definitions)[id].expiresAt
      ensures forall id :: id in definitions ==> definitions[id] == old(definitions)[id]
      ensures evicted + |definitions| == old(|definitions|)
    {
      var before := |definitions|;
      ghost var keys := definitions.Keys;
      definitions := map id | id in definitions && !(examinedAt(id) >= definitions[id].expiresAt) :: definitions[id];
      assert definitions.Keys <= keys;
      SmallerSet(definitions.Keys, keys);
      evicted := before - |definitions|;
    }

    /** The second half of `evict_expired`, under the lock of the footprints. */
    method EvictExpiredFootprints(examinedAt: string -> nat, now: nat) returns (evicted: nat)
      modifies this`footprints
      ensures footprints == Update(ttl, old(footprints), OnFootprints(EvictFootprints(examinedAt, now)))
      ensures forall id :: id in footprints <==>
                id in old(footprints) && examinedAt(id) < old(footprints)[id].expiresAt
      ensures forall id :: id in footprints ==> footprints[id] == old(footprints)[id]
      ensures evicted + |footprints| == old(|footprints|)
    {
      var before := |footprints|;
      ghost var keys := footprints.Keys;
      footprints := map id | id in footprints && !(examinedAt(id) >= footprints[id].expiresAt) :: footprints[id];
      assert footprints.Keys <= keys;
      SmallerSet(footprints.Keys, keys);
      evicted := before - |footprints|;
    }
  }

  lemma SmallerSet(a: set<string>, b: set<string>)
    requires a <= b
    ensures |a| <= |b|
  {
    assert b == a + (b - a);
  }

  // ------------------------------------------------------------------- runs

  function Time<T>(op: TableOp<T>, before: nat): nat {
    match op case Insert(_, _, now) => now case Evict(_, now) => now case _ => before
  }

  function Clock<T>(run: seq<TableOp<T>>): nat {
    if run == [] then 0 else Time(run[|run| - 1], Clock(run[..|run| - 1]))
  }

  /** The clock never goes back, and an eviction examines each entry before it is over. */
  ghost predicate Timed<T>(run: seq<TableOp<T>>) {
    run == [] || (
      var init, last := run[..|run| - 1], run[|run| - 1];
      && Timed(init) && Clock(init) <= Time(last, Clock(init))
      && (last.Evict? ==> forall id :: last.examinedAt(id) <= last.now)
    )
  }

  function Table<T>(ttl: nat, run: seq<TableOp<T>>): map<string, Entry<T>> {
    if run == [] then map[] else Update(ttl, Table(ttl, run[..|run| - 1]), run[|run| - 1])
  }

  /** The last value set for `id` and not removed since, with the time it was set. */
  datatype Stored<T> = Stored(value: T, at: nat)

  function LastSet<T>(run: seq<TableOp<T>>, id: string): Option<Stored<T>> {
    if run == [] then None
    else
      var last := run[|run| - 1];
      if last.Insert? && last.id == id then Some(Stored(last.value, last.now))
      else if last.Remove? && last.id == id then None
      else LastSet(run[..|run| - 1], id)
  }

  /** The lookup of a cache that never evicts. */
  function Expected<T>(ttl: nat, run: seq<TableOp<T>>, id: string, now: nat): Option<T> {
    var stored := LastSet(run, id);
    if stored.Some? && now < stored.value.at + ttl then Some(stored.value.value) else None
  }

  /** A missing entry was never set, was removed, or had already expired. */
  ghost predicate Faithful<T>(ttl: nat, run: seq<TableOp<T>>, id: string) {
    var table, stored := Table(ttl, run), LastSet(run, id);
    if stored.None? then id !in table
    else if id in table then table[id] == Entry(stored.value.value, stored.value.at + ttl)
    else stored.value.at + ttl <= Clock(run)
  }

  lemma {:induction false} RunFaithful<T>(ttl: nat, run: seq<TableOp<T>>, id: string)
    requires Timed(run)
    ensures Faithful(ttl, run, id)
    decreases |run|
  {
    if run == [] {
    } else {
      RunFaithful(ttl, run[..|run| - 1], id);
    }
  }

  /** Eviction is invisible: every lookup is that of a cache that never evicts. */
  lemma {:induction false} EvictionInvisible<T>(ttl: nat, run: seq<TableOp<T>>, id: string, now: nat)
    requires Timed(run) && Clock(run) <= now
    ensures Lookup(Table(ttl, run), id, now) == Expected(ttl, run, id, now)
  {
    RunFaithful(ttl, run, id);
  }

  // ----------------------------------------------------------- both tables

  function DefinitionRun(run: seq<Op>): seq<TableOp<Definition>> {
    seq(|run|, i requires 0 <= i < |run| => OnDefinitions(run[i]))
  }

  function FootprintRun(run: seq<Op>): seq<TableOp<Footprint>> {
    seq(|run|, i requires 0 <= i < |run| => OnFootprints(run[i]))
  }

  ghost predicate TimedRun(run: seq<Op>) {
    && (forall i, j :: 0 <= i < j < |run| ==> run[i].now <= run[j].now)
    && (forall i :: 0 <= i < |run| && run[i].EvictDefinitions? ==> forall id :: run[i].examinedAt(id) <= run[i].now)
    && (forall i :: 0 <= i < |run| && run[i].EvictFootprints? ==> forall id :: run[i].examinedAt(id) <= run[i].now)
  }

  lemma {:induction false} DefinitionsTimed(run: seq<Op>, now: nat)
    requires TimedRun(run) && forall i :: 0 <= i < |run| ==> run[i].now <= now
    ensures Timed(DefinitionRun(run)) && Clock(DefinitionRun(run)) <= now
    decreases |run|
  {
    if run == [] {
    } else {
      var init := run[..|run| - 1];
      DefinitionsTimed(init, run[|run| - 1].now);
      assert DefinitionRun(run)[..|run| - 1] == DefinitionRun(init);
    }
  }

  lemma {:induction false} FootprintsTimed(run: seq<Op>, now: nat)
    requires TimedRun(run) && forall i :: 0 <= i < |run| ==> run[i].now <= now
    ensures Timed(FootprintRun(run)) && Clock(FootprintRun(run)) <= now
    decreases |run|
  {
    if run == [] {
    } else {
      var init := run[..|run| - 1];
      FootprintsTimed(init, run[|run| - 1].now);
      assert FootprintRun(run)[..|run| - 1] == FootprintRun(init);
    }
  }

  /** At `k`, a value was set for `id` that was neither replaced nor removed since. */
  ghost predicate SetLast<T(!new)>(run: seq<TableOp<T>>, id: string, k: nat) {
    && k < |run| && run[k].Insert? && run[k].id == id
    && forall j :: k < j < |run| ==> !(run[j].Insert? && run[j].id == id) && !(run[j].Remove? && run[j].id == id)
  }

  lemma {:induction false} LastSetAt<T(!new)>(run: seq<TableOp<T>>, id: string) returns (k: nat)
    requires LastSet(run, id).Some?
    ensures SetLast(run, id, k) && LastSet(run, id) == Some(Stored(run[k].value, run[k].now))
  {
    k := |run| - 1;
    if !(run[k].Insert? && run[k].id == id) {
      k := LastSetAt(run[..k], id);
    }
  }

  lemma {:induction false} SetLastIs<T(!new)>(run: seq<TableOp<T>>, id: string, k: nat)
    requires SetLast(run, id, k)
    ensures LastSet(run, id) == Some(Stored(run[k].value, run[k].now))
  {
    if k < |run| - 1 {
      SetLastIs(run[..|run| - 1], id, k);
    }
  }

  /** At `k` a definition was set for `id`, and since then none was and `id` was not invalidated. */
  ghost predicate DefinitionSet(run: seq<Op>, id: string, k: nat) {
    && k < |run| && run[k].SetDefinition? && run[k].definition.contractId == id
    && forall j :: k < j < |run| ==>
         !(run[j].SetDefinition? && run[j].definition.contractId == id) && !(run[j].Invalidate? && run[j].id == id)
  }

  ghost predicate FootprintSet(run: seq<Op>, id: string, k: nat) {
    && k < |run| && run[k].SetFootprint? && run[k].footprint.contractId == id
    && forall j :: k < j < |run| ==>
         !(run[j].SetFootprint? && run[j].footprint.contractId == id) && !(run[j].Invalidate? && run[j].id == id)
  }

  /** The definition was set less than a full TTL ago. */
  ghost predicate DefinitionLive(ttl: nat, run: seq<Op>, id: string, now: nat, d: Definition) {
    exists k: nat :: DefinitionSet(run, id, k) && run[k].definition == d && now < run[k].now + ttl
  }

  ghost predicate FootprintLive(ttl: nat, run: seq<Op>, id: string, now: nat, f: Footprint) {
    exists k: nat :: FootprintSet(run, id, k) && run[k].footprint == f && now < run[k].now + ttl
  }

  lemma DefinitionSetIs(run: seq<Op>, id: string, k: nat)
    ensures DefinitionSet(run, id, k) <==> SetLast(DefinitionRun(run), id, k)
  {
    assert forall j :: 0 <= j < |run| ==> DefinitionRun(run)[j] == OnDefinitions(run[j]);
  }

  lemma DefinitionExpected(ttl: nat, run: seq<Op>, id: string, now: nat, d: Definition)
    ensures Expected(ttl, DefinitionRun(run), id, now) == Some(d) <==> DefinitionLive(ttl, run, id, now, d)
  {
    var ops := DefinitionRun(run);
    if Expected(ttl, ops, id, now) == Some(d) {
      var k := LastSetAt(ops, id);
      DefinitionSetIs(run, id, k);
    }
    if DefinitionLive(ttl, run, id, now, d) {
      var k: nat :| DefinitionSet(run, id, k) && run[k].definition == d && now < run[k].now + ttl;
      DefinitionSetIs(run, id, k);
      SetLastIs(ops, id, k);
    }
  }

  lemma FootprintSetIs(run: seq<Op>, id: string, k: nat)
    ensures FootprintSet(run, id, k) <==> SetLast(FootprintRun(run), id, k)
  {
    assert forall j :: 0 <= j < |run| ==> FootprintRun(run)[j] == OnFootprints(run[j]);
  }

  lemma FootprintExpected(ttl: nat, run: seq<Op>, id: string, now: nat, f: Footprint)
    ensures Expected(ttl, FootprintRun(run), id, now) == Some(f) <==> FootprintLive(ttl, run, id, now, f)
  {
    var ops := FootprintRun(run);
    if Expected(ttl, ops, id, now) == Some(f) {
      var k := LastSetAt(ops, id);
      FootprintSetIs(run, id, k);
    }
    if FootprintLive(ttl, run, id, now, f) {
      var k: nat :| FootprintSet(run, id, k) && run[k].footprint == f && now < run[k].now + ttl;
      FootprintSetIs(run, id, k);
      SetLastIs(ops, id, k);
    }
  }

  /**
   In every interleaving of sets, invalidations and evictions, a lookup of either kind returns the
   last value set for the id, unless it was invalidated since or is a full TTL old.
   */
  lemma CacheLookups(ttl: nat, run: seq<Op>, id: string, now: nat)
    requires TimedRun(run) && forall i :: 0 <= i < |run| ==> run[i].now <= now
    ensures forall d :: Lookup(Table(ttl, DefinitionRun(run)), id, now) == Some(d) <==>
                        DefinitionLive(ttl, run, id, now, d)
    ensures forall f :: Lookup(Table(ttl, FootprintRun(run)), id, now) == Some(f) <==>
                        FootprintLive(ttl, run, id, now, f)
  {
    DefinitionsTimed(run, now);
    FootprintsTimed(run, now);
    EvictionInvisible(ttl, DefinitionRun(run), id, now);
    EvictionInvisible(ttl, FootprintRun(run), id, now);
    forall d
      ensures Lookup(Table(ttl, DefinitionRun(run)), id, now) == Some(d) <==> DefinitionLive(ttl, run, id, now, d)
    {
      DefinitionExpected(ttl, run, id, now, d);
    }
    forall f
      ensures Lookup(Table(ttl, FootprintRun(run)), id, now) == Some(f) <==> FootprintLive(ttl, run, id, now, f)
    {
      FootprintExpected(ttl, run, id, now, f);
    }
  }

  /** The entries counted after an eviction at `now` are exactly those a lookup at `now` would find. */
  lemma {:induction false} EvictionLeavesTheLive<T>(ttl: nat, run: seq<TableOp<T>>, now: nat, id: string)
    requires Timed(run) && Clock(run) <= now
    ensures id in Update(ttl, Table(ttl, run), Evict(_ => now, now)) <==> Expected(ttl, run, id, now).Some?
  {
    EvictionInvisible(ttl, run, id, now);
  }
}
