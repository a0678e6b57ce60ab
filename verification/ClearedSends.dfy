/**
 What the offline queue of `client/src/queue.ts` still sends after it was removed: a flush works
 through the snapshot it took when it started, and `clear` empties the storage only.
 */
module ClearedSends {
  import opened Prelude
  import opened OfflineQueue

  /** The queue was cleared since the running flush took its snapshot. */
  predicate ClearedSinceStart(log: seq<Event>) {
    log != [] && (
      var last := log[|log| - 1];
      last == Cleared || (last != FlushStarted && ClearedSinceStart(log[..|log| - 1]))
    )
  }

  /** The item was delivered, has failed for good or has expired. */
  predicate Over(log: seq<Event>, id: string) {
    Succeeded(id) in log || Failed(id) in log || Expired(id) in log
  }

  predicate Finishes(e: Event, id: string) {
    e == Succeeded(id) || e == Failed(id) || e == Expired(id)
  }

  lemma HistoryNext(log: seq<Event>, e: Event)
    ensures ClearedSinceStart(log + [e]) <==> e == Cleared || (e != FlushStarted && ClearedSinceStart(log))
    ensures forall id :: Over(log + [e], id) <==> Over(log, id) || Finishes(e, id)
  {
    assert (log + [e])[..|log|] == log;
  }

  /** An item of the snapshot that is still to come: it is gone only if the queue was cleared meanwhile. */
  ghost predicate Pending(log: seq<Event>, id: string) {
    id in AddedIds(log) && (Gone(log, id) <==> ClearedSinceStart(log)) && !Over(log, id)
  }

  ghost predicate AllPending(log: seq<Event>, queue: seq<Item>) {
    forall item :: item in queue ==> Pending(log, item.id)
  }

  /** Whatever is over is gone. */
  ghost predicate OverIsGone(log: seq<Event>) {
    forall id :: Over(log, id) ==> Gone(log, id)
  }

  ghost predicate Snapshot(s: State) {
    AllPending(s.log, Current(s).queue) && OverIsGone(s.log)
  }

  lemma PendingNext(log: seq<Event>, e: Event, queue: seq<Item>)
    requires AllPending(log, queue) && e != FlushStarted && forall item :: item in queue ==> !Finishes(e, item.id)
    ensures AllPending(log + [e], queue)
  {
    GoneNext(log, e);
    HistoryNext(log, e);
  }

  lemma OverNext(log: seq<Event>, e: Event)
    requires OverIsGone(log) && forall id :: Finishes(e, id) ==> id in AddedIds(log)
    ensures OverIsGone(log + [e])
  {
    GoneNext(log, e);
    HistoryNext(log, e);
  }

  /** A snapshot holds what is stored, and none of that is gone. */
  lemma StartPending(s: State)
    requires Faithful(s) && OverIsGone(s.log)
    ensures AllPending(s.log + [FlushStarted], s.storage)
  {
    GoneNext(s.log, FlushStarted);
    HistoryNext(s.log, FlushStarted);
    RemainingDistinct(AddedIds(s.log), s.log);
    forall item | item in s.storage
      ensures Pending(s.log + [FlushStarted], item.id)
    {
      IdsAt(s.storage);
      var i :| 0 <= i < |s.storage| && s.storage[i] == item;
      assert item.id == Ids(s.storage)[i];
    }
  }

  lemma RestOf(log: seq<Event>, queue: seq<Item>)
    requires queue != [] && DistinctItems(queue) && AllPending(log, queue)
    ensures AllPending(log, queue[1..]) && Pending(log, queue[0].id)
    ensures forall item :: item in queue[1..] ==> item.id != queue[0].id
  {
    assert queue[0] in queue;
    forall item | item in queue[1..]
      ensures item in queue && item.id != queue[0].id
    {
      var i :| 0 <= i < |queue| - 1 && queue[1..][i] == item;
      assert queue[i + 1] == item;
    }
  }

  /** The head of the snapshot expires or is sent. */
  lemma HeadPending(log: seq<Event>, queue: seq<Item>, e: Event)
    requires queue != [] && DistinctItems(queue) && AllPending(log, queue) && OverIsGone(log)
    requires e == Expired(queue[0].id) || e == Sent(queue[0])
    ensures AllPending(log + [e], queue[1..]) && OverIsGone(log + [e])
  {
    RestOf(log, queue);
    PendingNext(log, e, queue[1..]);
    OverNext(log, e);
  }

  lemma BeginPending(maxRetries: int, s: State, now: int)
    requires Inv(maxRetries, s) && Snapshot(s) && |s.flushes| == 1 && s.flushes[0].queue != []
    ensures AllPending(BeginItem(s, 0, now).log, s.flushes[0].queue[1..]) && OverIsGone(BeginItem(s, 0, now).log)
  {
    var queue := s.flushes[0].queue;
    HeadPending(s.log, queue, Expired(queue[0].id));
    HeadPending(s.log, queue, Sent(queue[0]));
  }

  lemma ResolvePending(maxRetries: int, s: State, ok: bool)
    requires Inv(maxRetries, s) && Snapshot(s) && |s.flushes| == 1 && s.flushes[0].sending.Some?
    ensures AllPending(ResolveItem(maxRetries, s, 0, ok).log, s.flushes[0].queue)
    ensures OverIsGone(ResolveItem(maxRetries, s, 0, ok).log)
  {
    var id := s.flushes[0].sending.value.id;
    EndPending(s.log, s.flushes[0].queue, id, Succeeded(id));
    EndPending(s.log, s.flushes[0].queue, id, Failed(id));
  }

  /** The item that was awaited is answered for good. */
  lemma EndPending(log: seq<Event>, queue: seq<Item>, id: string, e: Event)
    requires AllPending(log, queue) && OverIsGone(log) && id in AddedIds(log)
    requires Finishes(e, id) && forall item :: item in queue ==> item.id != id
    ensures AllPending(log + [e], queue) && OverIsGone(log + [e])
  {
    PendingNext(log, e, queue);
    OverNext(log, e);
  }

  lemma StepKeepsSnapshot(maxRetries: int, s: State, a: Action)
    requires Inv(maxRetries, s) && Snapshot(s) && Step(maxRetries, s, a) != s
    ensures Snapshot(Step(maxRetries, s, a))
  {
    match a
    case Add(id, xdr, submit, now) =>
      PendingNext(s.log, Added(Item(id, xdr, submit, now, 0)), Current(s).queue);
      OverNext(s.log, Added(Item(id, xdr, submit, now, 0)));
    case Clear =>
      PendingNext(s.log, Cleared, Current(s).queue);
      OverNext(s.log, Cleared);
    case StartFlush =>
      StartPending(s);
      OverNext(s.log, FlushStarted);
    case Begin(f, now) =>
      BeginPending(maxRetries, s, now);
    case Resolve(f, ok) =>
      ResolvePending(maxRetries, s, ok);
    case Finish(f) =>
      OverNext(s.log, QueueCleared);
  }

  lemma {:induction false} RunKeepsSnapshot(maxRetries: int, run: seq<Action>)
    requires UniqueIds(run)
    ensures Snapshot(After(maxRetries, run))
    decreases |run|
  {
    if run == [] {
    } else {
      var init, last := run[..|run| - 1], run[|run| - 1];
      var s := After(maxRetries, init);
      RunKeepsInv(maxRetries, init);
      RunKeepsSnapshot(maxRetries, init);
      if Step(maxRetries, s, last) != s { StepKeepsSnapshot(maxRetries, s, last); }
    }
  }

  /** A send that comes from the snapshot. */
  ghost predicate SentFromSnapshot(log: seq<Event>, k: nat)
    requires k < |log| && log[k].Sent?
  {
    var id := log[k].item.id;
    (Gone(log[..k], id) <==> ClearedSinceStart(log[..k])) && !Over(log[..k], id)
  }

  lemma SendPending(maxRetries: int, s: State, a: Action)
    requires Inv(maxRetries, s) && Snapshot(s)
    requires Step(maxRetries, s, a).log != s.log && Step(maxRetries, s, a).log[|s.log|].Sent?
    ensures Pending(s.log, Step(maxRetries, s, a).log[|s.log|].item.id)
  {
    assert a.Begin?;
    assert s.flushes[0].queue[0] in Current(s).queue;
  }

  /**
   In every run, an item that is sent has left the queue before if and only if the queue was cleared
   since the running flush took its snapshot. No item is sent once it was delivered, has failed or
   has expired, or was cleared before the flush began.
   */
  lemma {:induction false} SendsGoneExactly(maxRetries: int, run: seq<Action>, k: nat)
    requires UniqueIds(run) && k < |After(maxRetries, run).log| && After(maxRetries, run).log[k].Sent?
    ensures SentFromSnapshot(After(maxRetries, run).log, k)
    decreases |run|
  {
    var init, last := run[..|run| - 1], run[|run| - 1];
    var s := After(maxRetries, init);
    AddedByStep(maxRetries, s, last);
    var log := After(maxRetries, run).log;
    assert log == s.log || log[..|s.log|] == s.log;
    if k < |s.log| {
      SendsGoneExactly(maxRetries, init, k);
      assert log[..k] == s.log[..k];
    } else {
      RunKeepsInv(maxRetries, init);
      RunKeepsSnapshot(maxRetries, init);
      SendPending(maxRetries, s, last);
    }
  }

  /** One item, a flush that has taken its snapshot, and a clear before it is sent. */
  function ClearedTooLate(id: string): seq<Action> {
    [] + [Add(id, "", false, 0)] + [StartFlush] + [Clear] + [Begin(0, 0)]
  }

  /** It happens: such an item is sent although nothing is stored any more. */
  lemma ClearedYetSent(maxRetries: int, id: string)
    ensures var s := After(maxRetries, ClearedTooLate(id));
            var item := Item(id, "", false, 0, 0);
            && s.storage == [] && s.log == [Added(item), FlushStarted, Cleared, Sent(item)]
            && Gone(s.log[..3], id)
  {
    var item := Item(id, "", false, 0, 0);
    Advance(maxRetries, EMPTY, [], Add(id, "", false, 0));
    Advance(maxRetries, EMPTY, [] + [Add(id, "", false, 0)], StartFlush);
    Advance(maxRetries, EMPTY, [] + [Add(id, "", false, 0)] + [StartFlush], Clear);
    Advance(maxRetries, EMPTY, [] + [Add(id, "", false, 0)] + [StartFlush] + [Clear], Begin(0, 0));
    var log: seq<Event> := [Added(item), FlushStarted];
    GoneNext([], Added(item));
    GoneNext([Added(item)], FlushStarted);
    GoneNext(log, Cleared);
    assert [] + [Added(item)] == [Added(item)] && [Added(item)] + [FlushStarted] == log;
    assert After(maxRetries, ClearedTooLate(id)).log[..3] == log + [Cleared];
  }
}
