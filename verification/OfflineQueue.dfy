/**
 The offline queue of `client/src/queue.ts` as a machine: `add`, `clear` and `flush` may be called
 whenever a running flush awaits, and every answer may arrive at any later time.
 */
module OfflineQueue {
  import opened Prelude
  import opened Sums

  datatype Item = Item(id: string, xdr: string, submit: bool, queuedAt: int, retryCount: nat)

  /** What the queue did, in order. */
  datatype Event =
    | Added(item: Item)
    | Sent(item: Item)
    | Succeeded(id: string)     // onSuccess
    | Failed(id: string)        // onError
    | Expired(id: string)
    | Cleared
    | QueueCleared              // onQueueCleared
    | FlushStarted              // a flush has taken its snapshot

  /** A running flush: the rest of its snapshot, and the item whose answer it awaits. */
  datatype Flush = Flush(queue: seq<Item>, sending: Option<Item>)

  datatype State = State(storage: seq<Item>, isFlushing: bool, flushes: seq<Flush>, log: seq<Event>)

  datatype Action =
    | Add(id: string, xdr: string, submit: bool, now: int)
    | Clear
    | StartFlush
    | Begin(flush: nat, now: int)
    | Resolve(flush: nat, ok: bool)
    | Finish(flush: nat)

  const AGE_LIMIT_MS: int := 180_000

  const EMPTY: State := State([], false, [], [])

  /** `removeFromStorage`. */
  function Remove(items: seq<Item>, id: string): seq<Item> {
    if items == [] then []
    else
      var n := |items| - 1;
      if items[n].id == id then Remove(items[..n], id) else Remove(items[..n], id) + [items[n]]
  }

  /** `updateInStorage`: it replaces, and never inserts. */
  function Update(items: seq<Item>, item: Item): seq<Item> {
    seq(|items|, i requires 0 <= i < |items| => if items[i].id == item.id then item else items[i])
  }

  /** `removeFromStorage` and what is reported with it. */
  function Drop(s: State, id: string, e: Event): State {
    s.(storage := Remove(s.storage, id), log := s.log + [e])
  }

  function BeginItem(s: State, f: nat, now: int): State
    requires f < |s.flushes| && s.flushes[f].queue != []
  {
    var item, rest := s.flushes[f].queue[0], s.flushes[f].queue[1..];
    if now - item.queuedAt > AGE_LIMIT_MS then
      Drop(s.(flushes := s.flushes[f := Flush(rest, None)]), item.id, Expired(item.id))
    else
      s.(flushes := s.flushes[f := Flush(rest, Some(item))], log := s.log + [Sent(item)])
  }

  function ResolveItem(maxRetries: int, s: State, f: nat, ok: bool): State
    requires f < |s.flushes| && s.flushes[f].sending.Some?
  {
    var item := s.flushes[f].sending.value;
    var s := s.(flushes := s.flushes[f := s.flushes[f].(sending := None)]);
    if ok then Drop(s, item.id, Succeeded(item.id))
    else if item.retryCount + 1 >= maxRetries then Drop(s, item.id, Failed(item.id))
    else s.(storage := Update(s.storage, item.(retryCount := item.retryCount + 1)))
  }

  function FinishFlush(s: State, f: nat): State
    requires f < |s.flushes|
  {
    s.(isFlushing := false, flushes := s.flushes[..f] + s.flushes[f + 1..],
       log := if s.storage == [] then s.log + [QueueCleared] else s.log)
  }

  /** One step; a step that is not due changes nothing. */
  function Step(maxRetries: int, s: State, a: Action): State {
    match a
    case Add(id, xdr, submit, now) =>
      var item := Item(id, xdr, submit, now, 0);
      s.(storage := s.storage + [item], log := s.log + [Added(item)])
    case Clear => s.(storage := [], log := s.log + [Cleared])
    case StartFlush =>
      if s.isFlushing || s.storage == [] then s
      else s.(isFlushing := true, flushes := s.flushes + [Flush(s.storage, None)], log := s.log + [FlushStarted])
    case Begin(f, now) =>
      if f < |s.flushes| && s.flushes[f].sending.None? && s.flushes[f].queue != [] then BeginItem(s, f, now) else s
    case Resolve(f, ok) =>
      if f < |s.flushes| && s.flushes[f].sending.Some? then ResolveItem(maxRetries, s, f, ok) else s
    case Finish(f) =>
      if f < |s.flushes| && s.flushes[f] == Flush([], None) then FinishFlush(s, f) else s
  }

  function Steps(maxRetries: int, s: State, run: seq<Action>): State {
    if run == [] then s else Step(maxRetries, Steps(maxRetries, s, run[..|run| - 1]), run[|run| - 1])
  }

  /** The state after a run from an empty queue. */
  function After(maxRetries: int, run: seq<Action>): State {
    Steps(maxRetries, EMPTY, run)
  }

  // ---------------------------------------------------------------- histories

  function Ids(items: seq<Item>): seq<string> {
    if items == [] then [] else Ids(items[..|items| - 1]) + [items[|items| - 1].id]
  }

  /** The ids added, in order. */
  function AddedIds(log: seq<Event>): seq<string> {
    if log == [] then []
    else
      var e := log[|log| - 1];
      if e.Added? then AddedIds(log[..|log| - 1]) + [e.item.id] else AddedIds(log[..|log| - 1])
  }

  /** An event that takes an item out of the queue. */
  predicate Ends(e: Event, id: string) {
    e == Succeeded(id) || e == Failed(id) || e == Expired(id) || e == Cleared
  }

  /** The item was added and something took it out since. */
  predicate Gone(log: seq<Event>, id: string) {
    log != [] && (Gone(log[..|log| - 1], id) || (Ends(log[|log| - 1], id) && id in AddedIds(log[..|log| - 1])))
  }

  /** Those of `ids` that are not gone. */
  function Remaining(ids: seq<string>, log: seq<Event>): seq<string> {
    if ids == [] then []
    else
      var id := ids[|ids| - 1];
      if Gone(log, id) then Remaining(ids[..|ids| - 1], log) else Remaining(ids[..|ids| - 1], log) + [id]
  }

  function SendOf(id: string): Event -> nat {
    (e: Event) => if e.Sent? && e.item.id == id then 1 else 0
  }

  function TerminalOf(id: string): Event -> nat {
    (e: Event) => if e == Succeeded(id) || e == Failed(id) then 1 else 0
  }

  /** How often an item was sent. */
  function Sends(log: seq<Event>, id: string): nat {
    SumBy(log, SendOf(id))
  }

  /** How many terminal callbacks it got. */
  function Terminals(log: seq<Event>, id: string): nat {
    SumBy(log, TerminalOf(id))
  }

  function MaxSends(maxRetries: int): nat {
    if maxRetries >= 1 then maxRetries else 1
  }

  ghost predicate Distinct(ids: seq<string>) {
    forall i, j :: 0 <= i < j < |ids| ==> ids[i] != ids[j]
  }

  /** The ids given to `add` are unique. */
  ghost predicate UniqueIds(run: seq<Action>) {
    forall i, j :: 0 <= i < j < |run| && run[i].Add? && run[j].Add? ==> run[i].id != run[j].id
  }

  // ---------------------------------------------------- the queue and its history

  function Without(ids: seq<string>, id: string): seq<string> {
    if ids == [] then []
    else
      var n := |ids| - 1;
      if ids[n] == id then Without(ids[..n], id) else Without(ids[..n], id) + [ids[n]]
  }

  lemma WithoutAppend(ids: seq<string>, x: string, id: string)
    ensures Without(ids + [x], id) == if x == id then Without(ids, id) else Without(ids, id) + [x]
  {
    assert (ids + [x])[..|ids|] == ids;
  }

  lemma {:induction false} RemoveIds(items: seq<Item>, id: string)
    ensures Ids(Remove(items, id)) == Without(Ids(items), id)
  {
    if items == [] {
    } else {
      var n := |items| - 1;
      RemoveIds(items[..n], id);
      IdsAppend(Remove(items[..n], id), items[n]);
      WithoutAppend(Ids(items[..n]), items[n].id, id);
    }
  }

  lemma {:induction false} RemainingWithout(ids: seq<string>, log: seq<Event>, id: string, e: Event)
    requires Ends(e, id) && e != Cleared && forall x :: x in ids ==> x in AddedIds(log)
    ensures Remaining(ids, log + [e]) == Without(Remaining(ids, log), id)
  {
    if ids == [] {
    } else {
      var n := |ids| - 1;
      RemainingWithout(ids[..n], log, id, e);
      GoneNext(log, e);
      assert ids[n] in AddedIds(log);
      WithoutAppend(Remaining(ids[..n], log), ids[n], id);
    }
  }

  lemma IdsAppend(items: seq<Item>, item: Item)
    ensures Ids(items + [item]) == Ids(items) + [item.id]
  {
    assert (items + [item])[..|items|] == items;
  }

  lemma GoneNext(log: seq<Event>, e: Event)
    ensures forall id :: Gone(log + [e], id) <==> Gone(log, id) || (Ends(e, id) && id in AddedIds(log))
    ensures AddedIds(log + [e]) == if e.Added? then AddedIds(log) + [e.item.id] else AddedIds(log)
  {
    assert (log + [e])[..|log|] == log;
  }

  lemma {:induction false} GoneWasAdded(log: seq<Event>, id: string)
    requires Gone(log, id)
    ensures id in AddedIds(log)
  {
    var init := log[..|log| - 1];
    if Gone(init, id) { GoneWasAdded(init, id); }
  }

  lemma {:induction false} RemainingSame(ids: seq<string>, log: seq<Event>, e: Event)
    requires forall id :: id in ids ==> !Ends(e, id)
    ensures Remaining(ids, log + [e]) == Remaining(ids, log)
  {
    GoneNext(log, e);
    if ids == [] {
    } else {
      RemainingSame(ids[..|ids| - 1], log, e);
    }
  }

  lemma {:induction false} NoneRemain(ids: seq<string>, log: seq<Event>)
    requires forall id :: id in ids ==> id in AddedIds(log)
    ensures Remaining(ids, log + [Cleared]) == []
  {
    GoneNext(log, Cleared);
    if ids == [] {
    } else {
      NoneRemain(ids[..|ids| - 1], log);
    }
  }

  lemma {:induction false} UpdateIds(items: seq<Item>, item: Item)
    ensures Ids(Update(items, item)) == Ids(items)
  {
    if items == [] {
    } else {
      var n := |items| - 1;
      UpdateIds(items[..n], item);
      assert Update(items, item)[..n] == Update(items[..n], item);
    }
  }

  /** The stored items are those added and not gone, in the order they were added. */
  ghost predicate Faithful(s: State) {
    Ids(s.storage) == Remaining(AddedIds(s.log), s.log) && Distinct(AddedIds(s.log))
  }

  lemma AddKeepsFaithful(s: State, item: Item)
    requires Faithful(s) && item.id !in AddedIds(s.log)
    ensures Faithful(s.(storage := s.storage + [item], log := s.log + [Added(item)]))
  {
    var ids, log := AddedIds(s.log), s.log + [Added(item)];
    IdsAppend(s.storage, item);
    GoneNext(s.log, Added(item));
    RemainingSame(ids, s.log, Added(item));
    if Gone(s.log, item.id) { GoneWasAdded(s.log, item.id); }
    assert (ids + [item.id])[..|ids|] == ids;
  }

  lemma DropKeepsFaithful(s: State, id: string, e: Event)
    requires Faithful(s) && Ends(e, id) && e != Cleared
    ensures Faithful(Drop(s, id, e))
  {
    GoneNext(s.log, e);
    RemoveIds(s.storage, id);
    RemainingWithout(AddedIds(s.log), s.log, id, e);
  }

  lemma ClearKeepsFaithful(s: State)
    requires Faithful(s)
    ensures Faithful(s.(storage := [], log := s.log + [Cleared]))
  {
    NoneRemain(AddedIds(s.log), s.log);
    GoneNext(s.log, Cleared);
  }

  lemma FinishKeepsFaithful(s: State, f: nat)
    requires Faithful(s) && f < |s.flushes|
    ensures Faithful(FinishFlush(s, f))
  {
    GoneNext(s.log, QueueCleared);
    RemainingSame(AddedIds(s.log), s.log, QueueCleared);
  }

  lemma BeginKeepsFaithful(s: State, f: nat, now: int)
    requires Faithful(s) && f < |s.flushes| && s.flushes[f].queue != []
    ensures Faithful(BeginItem(s, f, now))
  {
    var item := s.flushes[f].queue[0];
    GoneNext(s.log, Sent(item));
    RemainingSame(AddedIds(s.log), s.log, Sent(item));
    DropKeepsFaithful(s.(flushes := s.flushes[f := Flush(s.flushes[f].queue[1..], None)]), item.id, Expired(item.id));
  }

  lemma ResolveKeepsFaithful(maxRetries: int, s: State, f: nat, ok: bool)
    requires Faithful(s) && f < |s.flushes| && s.flushes[f].sending.Some?
    ensures Faithful(ResolveItem(maxRetries, s, f, ok))
  {
    var item := s.flushes[f].sending.value;
    var s' := s.(flushes := s.flushes[f := s.flushes[f].(sending := None)]);
    DropKeepsFaithful(s', item.id, Succeeded(item.id));
    DropKeepsFaithful(s', item.id, Failed(item.id));
    UpdateIds(s.storage, item.(retryCount := item.retryCount + 1));
  }

  // ------------------------------------------------------- sends and callbacks

  predicate About(e: Event, id: string) {
    (e.Sent? && e.item.id == id) || e == Succeeded(id) || e == Failed(id)
  }

  lemma Tally(log: seq<Event>, e: Event, id: string)
    ensures Sends(log + [e], id) == Sends(log, id) + SendOf(id)(e)
    ensures Terminals(log + [e], id) == Terminals(log, id) + TerminalOf(id)(e)
  {
    SumAppend(log, e, SendOf(id));
    SumAppend(log, e, TerminalOf(id));
  }

  /** An item as it was added, except that its retry count says how often it was sent before the `pending` send. */
  ghost predicate Standing(most: nat, log: seq<Event>, item: Item, pending: nat) {
    && Added(item.(retryCount := 0)) in log && item.id in AddedIds(log)
    && Sends(log, item.id) == item.retryCount + pending
    && item.retryCount < most
    && Terminals(log, item.id) == 0
  }

  lemma StandingKept(most: nat, log: seq<Event>, e: Event, item: Item, pending: nat)
    requires Standing(most, log, item, pending) && !About(e, item.id)
    ensures Standing(most, log + [e], item, pending)
  {
    Tally(log, e, item.id);
    GoneNext(log, e);
  }

  function Awaits(flush: Flush, id: string): nat {
    if flush.sending.Some? && flush.sending.value.id == id then 1 else 0
  }

  ghost predicate AllStanding(most: nat, log: seq<Event>, items: seq<Item>, flush: Flush) {
    forall item :: item in items ==> Standing(most, log, item, Awaits(flush, item.id))
  }

  ghost predicate DistinctItems(items: seq<Item>) {
    forall i, j :: 0 <= i < j < |items| ==> items[i].id != items[j].id
  }

  /** What is known of one id at all times. */
  ghost predicate Tallied(most: nat, log: seq<Event>, id: string) {
    && Sends(log, id) <= most && Terminals(log, id) <= 1
    && (Failed(id) in log ==> Sends(log, id) == most && Terminals(log, id) == 1)
    && (id !in AddedIds(log) ==> Sends(log, id) == 0 && Terminals(log, id) == 0)
  }

  ghost predicate Sound(most: nat, storage: seq<Item>, flush: Flush, log: seq<Event>) {
    && AllStanding(most, log, storage, flush)
    && AllStanding(most, log, flush.queue, Flush([], None)) && DistinctItems(flush.queue)
    && (flush.sending.Some? ==>
          && Standing(most, log, flush.sending.value, 1)
          && forall item :: item in flush.queue ==> item.id != flush.sending.value.id)
    && forall id :: Tallied(most, log, id)
  }

  lemma AllStandingKept(most: nat, log: seq<Event>, e: Event, items: seq<Item>, flush: Flush)
    requires AllStanding(most, log, items, flush) && forall item :: item in items ==> !About(e, item.id)
    ensures AllStanding(most, log + [e], items, flush)
  {
    forall item | item in items
      ensures Standing(most, log + [e], item, Awaits(flush, item.id))
    {
      StandingKept(most, log, e, item, Awaits(flush, item.id));
    }
  }

  lemma {:induction false} RemoveMembers(items: seq<Item>, id: string)
    ensures forall item :: item in Remove(items, id) <==> item in items && item.id != id
  {
    if items == [] {
    } else {
      var n := |items| - 1;
      RemoveMembers(items[..n], id);
      assert items == items[..n] + [items[n]];
    }
  }

  lemma TalliedKept(most: nat, log: seq<Event>, e: Event)
    requires (forall id :: Tallied(most, log, id)) && forall id :: !About(e, id)
    ensures forall id :: Tallied(most, log + [e], id)
  {
    forall id
      ensures Tallied(most, log + [e], id)
    {
      assert Tallied(most, log, id) && !About(e, id);
      Tally(log, e, id);
      GoneNext(log, e);
    }
  }

  /** An event that concerns no item, such as a clear. */
  lemma SoundQuiet(most: nat, storage: seq<Item>, flush: Flush, log: seq<Event>, e: Event)
    requires Sound(most, storage, flush, log) && forall id :: !About(e, id)
    ensures Sound(most, storage, flush, log + [e])
  {
    AllStandingKept(most, log, e, storage, flush);
    AllStandingKept(most, log, e, flush.queue, Flush([], None));
    TalliedKept(most, log, e);
    if flush.sending.Some? { StandingKept(most, log, e, flush.sending.value, 1); }
  }

  lemma SoundAdd(most: nat, storage: seq<Item>, flush: Flush, log: seq<Event>, item: Item)
    requires Sound(most, storage, flush, log) && most >= 1 && item.retryCount == 0 && item.id !in AddedIds(log)
    ensures Sound(most, storage + [item], flush, log + [Added(item)])
  {
    SoundQuiet(most, storage, flush, log, Added(item));
    assert Tallied(most, log, item.id);
    Tally(log, Added(item), item.id);
    GoneNext(log, Added(item));
  }

  lemma SoundExpire(most: nat, storage: seq<Item>, queue: seq<Item>, log: seq<Event>)
    requires queue != [] && Sound(most, storage, Flush(queue, None), log)
    ensures Sound(most, Remove(storage, queue[0].id), Flush(queue[1..], None), log + [Expired(queue[0].id)])
  {
    SoundQuiet(most, storage, Flush(queue, None), log, Expired(queue[0].id));
    RemoveMembers(storage, queue[0].id);
  }

  /** A send, or a terminal callback, concerns one id. */
  lemma TalliedSend(most: nat, log: seq<Event>, item: Item)
    requires (forall id :: Tallied(most, log, id)) && Standing(most, log, item, 0)
    ensures forall id :: Tallied(most, log + [Sent(item)], id)
  {
    forall id
      ensures Tallied(most, log + [Sent(item)], id)
    {
      assert Tallied(most, log, id);
      Tally(log, Sent(item), id);
      GoneNext(log, Sent(item));
    }
  }

  lemma TalliedEnd(most: nat, log: seq<Event>, item: Item, e: Event)
    requires (forall id :: Tallied(most, log, id)) && Standing(most, log, item, 1)
    requires e == Succeeded(item.id) || (e == Failed(item.id) && item.retryCount + 1 == most)
    ensures forall id :: Tallied(most, log + [e], id)
  {
    forall id
      ensures Tallied(most, log + [e], id)
    {
      assert Tallied(most, log, id);
      Tally(log, e, id);
      GoneNext(log, e);
    }
  }

  lemma SoundSend(most: nat, storage: seq<Item>, queue: seq<Item>, log: seq<Event>)
    requires queue != [] && Sound(most, storage, Flush(queue, None), log)
    ensures Sound(most, storage, Flush(queue[1..], Some(queue[0])), log + [Sent(queue[0])])
  {
    var item, e := queue[0], Sent(queue[0]);
    assert Standing(most, log, item, 0);
    TalliedSend(most, log, item);
    Tally(log, e, item.id);
    GoneNext(log, e);
    AllStandingKept(most, log, e, queue[1..], Flush([], None));
    forall x | x in storage
      ensures Standing(most, log + [e], x, Awaits(Flush(queue[1..], Some(item)), x.id))
    {
      if x.id != item.id { StandingKept(most, log, e, x, 0); }
    }
  }

  lemma SoundEnd(most: nat, storage: seq<Item>, flush: Flush, log: seq<Event>, e: Event)
    requires flush.sending.Some? && Sound(most, storage, flush, log)
    requires var item := flush.sending.value;
             e == Succeeded(item.id) || (e == Failed(item.id) && item.retryCount + 1 == most)
    ensures Sound(most, Remove(storage, flush.sending.value.id), flush.(sending := None), log + [e])
  {
    var item := flush.sending.value;
    TalliedEnd(most, log, item, e);
    RemoveMembers(storage, item.id);
    AllStandingKept(most, log, e, flush.queue, Flush([], None));
    AllStandingKept(most, log, e, Remove(storage, item.id), flush);
    assert AllStanding(most, log + [e], Remove(storage, item.id), flush.(sending := None));
  }

  lemma SoundRetry(most: nat, storage: seq<Item>, flush: Flush, log: seq<Event>)
    requires flush.sending.Some? && Sound(most, storage, flush, log) && flush.sending.value.retryCount + 1 < most
    ensures var item := flush.sending.value;
            Sound(most, Update(storage, item.(retryCount := item.retryCount + 1)), flush.(sending := None), log)
  {
    var item := flush.sending.value;
    var again := item.(retryCount := item.retryCount + 1);
    assert again.(retryCount := 0) == item.(retryCount := 0);
    assert Standing(most, log, again, 0);
    forall x | x in Update(storage, again)
      ensures Standing(most, log, x, 0)
    {
      if x != again {
        assert x in storage && x.id != item.id;
      }
    }
  }

  lemma SoundStart(most: nat, storage: seq<Item>, log: seq<Event>)
    requires Sound(most, storage, Flush([], None), log) && DistinctItems(storage)
    ensures Sound(most, storage, Flush(storage, None), log)
  {
    forall item | item in storage
      ensures Standing(most, log, item, Awaits(Flush(storage, None), item.id))
    {
      assert Awaits(Flush([], None), item.id) == 0;
    }
  }

  // ------------------------------------------------------------ one step of it

  /** The flush that is running, if any. */
  function Current(s: State): Flush {
    if s.flushes == [] then Flush([], None) else s.flushes[0]
  }

  /** The flag is a lock: at most one flush runs, and the flag says whether one does. */
  ghost predicate OneFlush(s: State) {
    |s.flushes| == if s.isFlushing then 1 else 0
  }

  ghost predicate Inv(maxRetries: int, s: State) {
    OneFlush(s) && Faithful(s) && Sound(MaxSends(maxRetries), s.storage, Current(s), s.log)
  }

  lemma {:induction false} RemainingDistinct(ids: seq<string>, log: seq<Event>)
    requires Distinct(ids)
    ensures Distinct(Remaining(ids, log))
    ensures forall id :: id in Remaining(ids, log) <==> id in ids && !Gone(log, id)
  {
    if ids == [] {
    } else {
      var n := |ids| - 1;
      RemainingDistinct(ids[..n], log);
      assert ids == ids[..n] + [ids[n]];
      assert ids[n] !in ids[..n];
    }
  }

  lemma {:induction false} IdsAt(items: seq<Item>)
    ensures |Ids(items)| == |items| && forall i :: 0 <= i < |items| ==> Ids(items)[i] == items[i].id
  {
    if items == [] {
    } else {
      IdsAt(items[..|items| - 1]);
    }
  }

  lemma StoredDistinct(s: State)
    requires Faithful(s)
    ensures DistinctItems(s.storage)
  {
    RemainingDistinct(AddedIds(s.log), s.log);
    IdsAt(s.storage);
  }

  lemma ResolveKeepsSound(maxRetries: int, s: State, ok: bool)
    requires Inv(maxRetries, s) && |s.flushes| == 1 && s.flushes[0].sending.Some?
    ensures Sound(MaxSends(maxRetries), ResolveItem(maxRetries, s, 0, ok).storage, s.flushes[0].(sending := None),
                  ResolveItem(maxRetries, s, 0, ok).log)
  {
    var most, flush := MaxSends(maxRetries), s.flushes[0];
    var item := flush.sending.value;
    if ok {
      SoundEnd(most, s.storage, flush, s.log, Succeeded(item.id));
    } else if item.retryCount + 1 >= maxRetries {
      SoundEnd(most, s.storage, flush, s.log, Failed(item.id));
    } else {
      SoundRetry(most, s.storage, flush, s.log);
    }
  }

  lemma StepKeepsSound(maxRetries: int, s: State, a: Action)
    requires Inv(maxRetries, s) && Step(maxRetries, s, a) != s && (a.Add? ==> a.id !in AddedIds(s.log))
    ensures OneFlush(Step(maxRetries, s, a))
    ensures var s' := Step(maxRetries, s, a);
            Sound(MaxSends(maxRetries), s'.storage, Current(s'), s'.log)
  {
    var most := MaxSends(maxRetries);
    match a
    case Add(id, xdr, submit, now) =>
      SoundAdd(most, s.storage, Current(s), s.log, Item(id, xdr, submit, now, 0));
    case Clear =>
      SoundQuiet(most, s.storage, Current(s), s.log, Cleared);
    case StartFlush =>
      StoredDistinct(s);
      SoundQuiet(most, s.storage, Flush([], None), s.log, FlushStarted);
      SoundStart(most, s.storage, s.log + [FlushStarted]);
    case Begin(f, now) =>
      SoundExpire(most, s.storage, s.flushes[0].queue, s.log);
      SoundSend(most, s.storage, s.flushes[0].queue, s.log);
    case Resolve(f, ok) =>
      ResolveKeepsSound(maxRetries, s, ok);
    case Finish(f) =>
      SoundQuiet(most, s.storage, Current(s), s.log, QueueCleared);
  }

  lemma StepKeepsInv(maxRetries: int, s: State, a: Action)
    requires Inv(maxRetries, s) && (a.Add? ==> a.id !in AddedIds(s.log))
    ensures Inv(maxRetries, Step(maxRetries, s, a))
  {
    match a {
      case Add(id, xdr, submit, now) =>
        AddKeepsFaithful(s, Item(id, xdr, submit, now, 0));
      case Clear =>
        ClearKeepsFaithful(s);
      case StartFlush =>
        GoneNext(s.log, FlushStarted);
        RemainingSame(AddedIds(s.log), s.log, FlushStarted);
      case Begin(f, now) =>
        if Step(maxRetries, s, a) != s {
          BeginKeepsFaithful(s, f, now);
        }
      case Resolve(f, ok) =>
        if Step(maxRetries, s, a) != s {
          ResolveKeepsFaithful(maxRetries, s, f, ok);
        }
      case Finish(f) =>
        if Step(maxRetries, s, a) != s {
          FinishKeepsFaithful(s, f);
        }
    }
    if Step(maxRetries, s, a) != s { StepKeepsSound(maxRetries, s, a); }
  }

  // ---------------------------------------------------------------- every run

  /** The ids of the items added by a run are those its `add` calls were given. */
  lemma {:induction false} AddedByRun(maxRetries: int, run: seq<Action>, id: string)
    requires id in AddedIds(After(maxRetries, run).log)
    ensures exists k :: 0 <= k < |run| && run[k].Add? && run[k].id == id
    decreases |run|
  {
    if run == [] {
    } else {
      var init, last := run[..|run| - 1], run[|run| - 1];
      AddedByStep(maxRetries, After(maxRetries, init), last);
      if id in AddedIds(After(maxRetries, init).log) {
        AddedByRun(maxRetries, init, id);
        var k :| 0 <= k < |init| && init[k].Add? && init[k].id == id;
        assert run[k].id == id;
      }
    }
  }

  lemma AddedByStep(maxRetries: int, s: State, a: Action)
    ensures forall id :: id in AddedIds(Step(maxRetries, s, a).log) ==> id in AddedIds(s.log) || (a.Add? && a.id == id)
    ensures Step(maxRetries, s, a).log == s.log
         || exists e :: Step(maxRetries, s, a).log == s.log + [e]
  {
    var log := Step(maxRetries, s, a).log;
    if log != s.log {
      GoneNext(s.log, log[|log| - 1]);
    }
  }

  lemma EmptyInv(maxRetries: int)
    ensures Inv(maxRetries, EMPTY)
  {
  }

  lemma {:induction false} RunKeepsInv(maxRetries: int, run: seq<Action>)
    requires UniqueIds(run)
    ensures Inv(maxRetries, After(maxRetries, run))
    decreases |run|
  {
    if run == [] {
      EmptyInv(maxRetries);
    } else {
      var init, last := run[..|run| - 1], run[|run| - 1];
      RunKeepsInv(maxRetries, init);
      if last.Add? && last.id in AddedIds(After(maxRetries, init).log) {
        AddedByRun(maxRetries, init, last.id);
      }
      StepKeepsInv(maxRetries, After(maxRetries, init), last);
    }
  }

  /**
   In every run, the queue holds exactly the items added and not yet delivered, failed, expired or
   cleared, each once and in the order they were added.
   */
  lemma StoredExactly(maxRetries: int, run: seq<Action>)
    requires UniqueIds(run)
    ensures var s := After(maxRetries, run);
            && Ids(s.storage) == Remaining(AddedIds(s.log), s.log) && Distinct(Ids(s.storage))
            && forall id :: id in Ids(s.storage) <==> id in AddedIds(s.log) && !Gone(s.log, id)
  {
    RunKeepsInv(maxRetries, run);
    RemainingDistinct(AddedIds(After(maxRetries, run).log), After(maxRetries, run).log);
  }

  lemma {:induction false} GoneForGood(maxRetries: int, run: seq<Action>, more: seq<Action>, id: string)
    requires Gone(After(maxRetries, run).log, id)
    ensures Gone(After(maxRetries, run + more).log, id)
    decreases |more|
  {
    if more == [] {
      assert run + more == run;
    } else {
      var n := |more| - 1;
      GoneForGood(maxRetries, run, more[..n], id);
      assert (run + more)[..|run + more| - 1] == run + more[..n];
      GoneAfterStep(maxRetries, After(maxRetries, run + more[..n]), more[n], id);
    }
  }

  lemma GoneAfterStep(maxRetries: int, s: State, a: Action, id: string)
    requires Gone(s.log, id)
    ensures Gone(Step(maxRetries, s, a).log, id)
  {
    AddedByStep(maxRetries, s, a);
    if Step(maxRetries, s, a).log != s.log {
      var e :| Step(maxRetries, s, a).log == s.log + [e];
      GoneNext(s.log, e);
    }
  }

  /** An item that has left the queue is never stored again. */
  lemma NeverReinserted(maxRetries: int, run: seq<Action>, more: seq<Action>, id: string)
    requires UniqueIds(run + more) && Gone(After(maxRetries, run).log, id)
    ensures id !in Ids(After(maxRetries, run + more).storage)
  {
    GoneForGood(maxRetries, run, more, id);
    StoredExactly(maxRetries, run + more);
  }

  /**
   In every run each id is sent at most `max(1, maxRetries)` times and gets at most one terminal
   callback, and `onError` only after all of those sends.
   */
  lemma DeliveryBounds(maxRetries: int, run: seq<Action>, id: string)
    requires UniqueIds(run)
    ensures var log := After(maxRetries, run).log;
            && Sends(log, id) <= MaxSends(maxRetries) && Terminals(log, id) <= 1
            && (Failed(id) in log ==> Sends(log, id) == MaxSends(maxRetries))
  {
    RunKeepsInv(maxRetries, run);
    assert Tallied(MaxSends(maxRetries), After(maxRetries, run).log, id);
  }

  /** Never more than one flush at a time. */
  lemma FlushesExclude(maxRetries: int, run: seq<Action>)
    requires UniqueIds(run)
    ensures |After(maxRetries, run).flushes| <= 1
  {
    RunKeepsInv(maxRetries, run);
  }

  /** What is sent at `k` is an item as it was added, not yet answered for good, numbered by its earlier sends. */
  ghost predicate SentProperly(log: seq<Event>, k: nat)
    requires k < |log| && log[k].Sent?
  {
    var item := log[k].item;
    && Added(item.(retryCount := 0)) in log[..k]
    && item.retryCount == Sends(log[..k], item.id)
    && Terminals(log[..k], item.id) == 0
  }

  lemma {:induction false} SendsProper(maxRetries: int, run: seq<Action>, k: nat)
    requires UniqueIds(run) && k < |After(maxRetries, run).log| && After(maxRetries, run).log[k].Sent?
    ensures SentProperly(After(maxRetries, run).log, k)
    decreases |run|
  {
    var init, last := run[..|run| - 1], run[|run| - 1];
    var s := After(maxRetries, init);
    AddedByStep(maxRetries, s, last);
    var log := After(maxRetries, run).log;
    assert log == s.log || log[..|s.log|] == s.log;
    if k < |s.log| {
      SendsProper(maxRetries, init, k);
      assert log[..k] == s.log[..k];
    } else {
      RunKeepsInv(maxRetries, init);
      SendAtHead(maxRetries, s, last);
    }
  }

  lemma SendAtHead(maxRetries: int, s: State, a: Action)
    requires Inv(maxRetries, s)
    requires Step(maxRetries, s, a).log != s.log && Step(maxRetries, s, a).log[|s.log|].Sent?
    ensures var item := Step(maxRetries, s, a).log[|s.log|].item;
            && Added(item.(retryCount := 0)) in s.log
            && item.retryCount == Sends(s.log, item.id) && Terminals(s.log, item.id) == 0
  {
    assert a.Begin?;
    assert Standing(MaxSends(maxRetries), s.log, s.flushes[0].queue[0], 0);
  }

  // ------------------------------------------------------ the queue as an object

  /** What one item of a flush meets: the clock, and the server's answer if it is sent. */
  datatype Answer = Answer(now: int, ok: bool)

  /** The steps of one flush that nothing interrupts. */
  function Turns(answers: nat -> Answer, n: nat): seq<Action> {
    if n == 0 then []
    else Turns(answers, n - 1) + [Begin(0, answers(n - 1).now)] + [Resolve(0, answers(n - 1).ok)]
  }

  lemma Advance(maxRetries: int, s: State, run: seq<Action>, a: Action)
    ensures Steps(maxRetries, s, run + [a]) == Step(maxRetries, Steps(maxRetries, s, run), a)
  {
    assert (run + [a])[..|run|] == run;
  }

  /** What becomes of an item that is processed. */
  function Processed(maxRetries: int, item: Item, answer: Answer): seq<Item> {
    if answer.now - item.queuedAt > 180_000 || answer.ok || item.retryCount + 1 >= maxRetries then []
    else [item.(retryCount := item.retryCount + 1)]
  }

  function Flushed(maxRetries: int, items: seq<Item>, answers: nat -> Answer): seq<Item> {
    if items == [] then []
    else
      var n := |items| - 1;
      Flushed(maxRetries, items[..n], answers) + Processed(maxRetries, items[n], answers(n))
  }

  class PaymasterQueue {
    const maxRetries: int
    var storage: seq<Item>
    var isFlushing: bool
    ghost var log: seq<Event>

    constructor (maxRetries: int)
      ensures this.maxRetries == maxRetries && Now([]) == EMPTY
    {
      this.maxRetries, storage, isFlushing, log := maxRetries, [], false, [];
    }

    ghost function Now(flushes: seq<Flush>): State
      reads this
    {
      State(storage, isFlushing, flushes, log)
    }

    /** `clear`. */
    method ClearAll(ghost flushes: seq<Flush>)
      modifies this
      ensures Now(flushes) == Step(maxRetries, old(Now(flushes)), Clear)
      ensures storage == [] && isFlushing == old(isFlushing)
    {
      storage := [];
      log := log + [Cleared];
    }

    /** `add` up to its flush. */
    method Save(id: string, xdr: string, submit: bool, now: int, ghost flushes: seq<Flush>)
      modifies this
      ensures Now(flushes) == Step(maxRetries, old(Now(flushes)), Add(id, xdr, submit, now))
      ensures storage == old(storage) + [Item(id, xdr, submit, now, 0)] && isFlushing == old(isFlushing)
    {
      var item := Item(id, xdr, submit, now, 0);
      storage := storage + [item];
      log := log + [Added(item)];
    }

    method RemoveFromStorage(id: string)
      modifies this`storage
      ensures storage == Remove(old(storage), id)
      ensures forall item :: item in storage <==> item in old(storage) && item.id != id
    {
      var kept: seq<Item> := [];
      for i := 0 to |storage|
        invariant storage == old(storage) && kept == Remove(storage[..i], id)
      {
        assert storage[..i + 1][..i] == storage[..i];
        if storage[i].id != id {
          kept := kept + [storage[i]];
        }
      }
      assert storage[..|storage|] == storage;
      RemoveMembers(storage, id);
      storage := kept;
    }

    /** `processItem` with no other event before its answer arrives. */
    method ProcessItem(item: Item, answer: Answer, ghost rest: seq<Item>)
      modifies this
      ensures isFlushing == old(isFlushing)
      ensures storage == AfterTurn(maxRetries, old(storage), item, answer)
      ensures Now([Flush(rest, None)]) ==
              Step(maxRetries, Step(maxRetries, old(Now([Flush([item] + rest, None)])), Begin(0, answer.now)),
                   Resolve(0, answer.ok))
    {
      assert ([item] + rest)[1..] == rest;
      if answer.now - item.queuedAt > AGE_LIMIT_MS {
        RemoveFromStorage(item.id);
        log := log + [Expired(item.id)];
        return;
      }
      log := log + [Sent(item)];
      if answer.ok {
        RemoveFromStorage(item.id);
        log := log + [Succeeded(item.id)];
      } else {
        var again := item.(retryCount := item.retryCount + 1);
        if again.retryCount >= maxRetries {
          RemoveFromStorage(item.id);
          log := log + [Failed(item.id)];
        } else {
          storage := Update(storage, again);
        }
      }
    }

    /** The flush that started in `s` has had its first `i` turns. */
    ghost predicate Turned(queue: seq<Item>, i: nat, answers: nat -> Answer, s: State)
      reads this
    {
      && i <= |queue| && isFlushing
      && Now([Flush(queue[i..], None)]) == Steps(maxRetries, s, [StartFlush] + Turns(answers, i))
      && (DistinctItems(queue) ==> storage == Flushed(maxRetries, queue[..i], answers) + queue[i..])
    }

    /** One turn of the flush loop. */
    method TakeTurn(queue: seq<Item>, i: nat, answers: nat -> Answer, ghost s: State)
      requires i < |queue| && Turned(queue, i, answers, s)
      modifies this
      ensures Turned(queue, i + 1, answers, s)
    {
      TurnsNext(maxRetries, s, answers, i);
      assert [queue[i]] + queue[i + 1..] == queue[i..];
      if DistinctItems(queue) { TurnStorage(maxRetries, storage, queue, i, answers); }
      ProcessItem(queue[i], answers(i), queue[i + 1..]);
    }

    /** `flush` with no other event before it returns. */
    method FlushAll(answers: nat -> Answer)
      modifies this
      ensures old(isFlushing) ==> Now([]) == old(Now([]))
      ensures !old(isFlushing) ==>
                && !isFlushing
                && Now([]) ==
                   Steps(maxRetries, old(Now([])), [StartFlush] + Turns(answers, |old(storage)|) + [Finish(0)])
      ensures !old(isFlushing) && DistinctItems(old(storage)) ==> storage == Flushed(maxRetries, old(storage), answers)
    {
      if isFlushing { return; }
      isFlushing := true;
      var queue := storage;
      if |queue| == 0 {
        NothingToFlush(maxRetries, old(Now([])), answers);
        isFlushing := false;
        return;
      }
      log := log + [FlushStarted];
      FlushStarts(maxRetries, old(Now([])), answers);
      assert queue[0..] == queue && queue[..0] == [];
      for i := 0 to |queue|
        invariant Turned(queue, i, answers, old(Now([])))
      {
        TakeTurn(queue, i, answers, old(Now([])));
      }
      assert queue[..|queue|] == queue && queue[|queue|..] == [];
      FlushEnds(maxRetries, old(Now([])), answers, |queue|, Now([Flush([], None)]));
      if storage == [] {
        log := log + [QueueCleared];
      }
      isFlushing := false;
    }
  }

  lemma FlushStarts(maxRetries: int, s: State, answers: nat -> Answer)
    requires !s.isFlushing && s.flushes == []
    ensures Steps(maxRetries, s, [StartFlush] + Turns(answers, 0)) ==
            if s.storage == [] then s
            else s.(isFlushing := true, flushes := [Flush(s.storage, None)], log := s.log + [FlushStarted])
  {
    Advance(maxRetries, s, [], StartFlush);
    assert [StartFlush] + Turns(answers, 0) == [] + [StartFlush];
  }

  lemma NothingToFlush(maxRetries: int, s: State, answers: nat -> Answer)
    requires !s.isFlushing && s.flushes == [] && s.storage == []
    ensures Steps(maxRetries, s, [StartFlush] + Turns(answers, 0) + [Finish(0)]) == s
  {
    FlushStarts(maxRetries, s, answers);
    Advance(maxRetries, s, [StartFlush] + Turns(answers, 0), Finish(0));
  }

  lemma TurnsNext(maxRetries: int, s: State, answers: nat -> Answer, i: nat)
    ensures Steps(maxRetries, s, [StartFlush] + Turns(answers, i + 1)) ==
            Step(maxRetries,
                 Step(maxRetries, Steps(maxRetries, s, [StartFlush] + Turns(answers, i)), Begin(0, answers(i).now)),
                 Resolve(0, answers(i).ok))
  {
    var run := [StartFlush] + Turns(answers, i);
    Advance(maxRetries, s, run, Begin(0, answers(i).now));
    Advance(maxRetries, s, run + [Begin(0, answers(i).now)], Resolve(0, answers(i).ok));
    assert [StartFlush] + Turns(answers, i + 1) == run + [Begin(0, answers(i).now)] + [Resolve(0, answers(i).ok)];
  }

  lemma FlushEnds(maxRetries: int, s: State, answers: nat -> Answer, n: nat, end: State)
    requires Steps(maxRetries, s, [StartFlush] + Turns(answers, n)) == end && end.flushes == [Flush([], None)]
    ensures Steps(maxRetries, s, [StartFlush] + Turns(answers, n) + [Finish(0)]) ==
            end.(isFlushing := false, flushes := [],
                 log := if end.storage == [] then end.log + [QueueCleared] else end.log)
  {
    Advance(maxRetries, s, [StartFlush] + Turns(answers, n), Finish(0));
  }

  /** Removing or updating the item between two parts that do not hold its id. */
  lemma {:induction false} ReplaceBetween(a: seq<Item>, item: Item, b: seq<Item>, again: Item)
    requires again.id == item.id && forall x :: x in a || x in b ==> x.id != item.id
    ensures Remove(a + [item] + b, item.id) == a + b
    ensures Update(a + [item] + b, again) == a + [again] + b
    decreases |b|
  {
    if b == [] {
      RemoveOther(a, item.id);
      assert (a + [item] + b)[..|a|] == a && a + b == a;
    } else {
      var n := |b| - 1;
      ReplaceBetween(a, item, b[..n], again);
      assert (a + [item] + b)[..|a| + 1 + n] == a + [item] + b[..n];
      assert b[n] in b;
      assert a + b[..n] + [b[n]] == a + b;
    }
  }

  lemma {:induction false} RemoveOther(items: seq<Item>, id: string)
    requires forall x :: x in items ==> x.id != id
    ensures Remove(items, id) == items
  {
    if items == [] {
    } else {
      var n := |items| - 1;
      assert items == items[..n] + [items[n]] && items[n] in items;
      RemoveOther(items[..n], id);
    }
  }

  lemma {:induction false} FlushedIds(maxRetries: int, items: seq<Item>, answers: nat -> Answer)
    ensures forall x :: x in Flushed(maxRetries, items, answers) ==> exists i :: 0 <= i < |items| && items[i].id == x.id
  {
    if items == [] {
    } else {
      FlushedIds(maxRetries, items[..|items| - 1], answers);
    }
  }

  lemma TurnStorage(maxRetries: int, storage: seq<Item>, queue: seq<Item>, i: nat, answers: nat -> Answer)
    requires i < |queue| && DistinctItems(queue)
    requires storage == Flushed(maxRetries, queue[..i], answers) + queue[i..]
    ensures AfterTurn(maxRetries, storage, queue[i], answers(i)) ==
            Flushed(maxRetries, queue[..i + 1], answers) + queue[i + 1..]
  {
    var done, rest := Flushed(maxRetries, queue[..i], answers), queue[i + 1..];
    FlushedIds(maxRetries, queue[..i], answers);
    assert storage == done + [queue[i]] + rest by { assert queue[i..] == [queue[i]] + rest; }
    AfterTurnBetween(maxRetries, done, queue[i], rest, answers(i));
    assert queue[..i + 1][..i] == queue[..i];
  }

  lemma AfterTurnBetween(maxRetries: int, done: seq<Item>, item: Item, rest: seq<Item>, answer: Answer)
    requires forall x :: x in done || x in rest ==> x.id != item.id
    ensures AfterTurn(maxRetries, done + [item] + rest, item, answer) ==
            done + Processed(maxRetries, item, answer) + rest
  {
    ReplaceBetween(done, item, rest, item.(retryCount := item.retryCount + 1));
    assert done + [] + rest == done + rest;
  }

  /** The storage after an item's turn. */
  function AfterTurn(maxRetries: int, storage: seq<Item>, item: Item, answer: Answer): seq<Item> {
    if Processed(maxRetries, item, answer) == [] then Remove(storage, item.id)
    else Update(storage, item.(retryCount := item.retryCount + 1))
  }
}
