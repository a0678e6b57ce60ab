/** What the offline queue does, traced back to the calls and answers of the run. */
module QueueActions {
  import opened Prelude
  import opened OfflineQueue

  // ------------------------------------------------------------ what was given

  /** The items given to `add`, in order. */
  function Given(run: seq<Action>): seq<Item> {
    if run == [] then []
    else
      var before, last := run[..|run| - 1], run[|run| - 1];
      if last.Add? then Given(before) + [Item(last.id, last.xdr, last.submit, last.now, 0)] else Given(before)
  }

  function AddedItems(log: seq<Event>): seq<Item> {
    if log == [] then []
    else
      var before, last := log[..|log| - 1], log[|log| - 1];
      if last.Added? then AddedItems(before) + [last.item] else AddedItems(before)
  }

  lemma AddedNext(log: seq<Event>, e: Event)
    ensures AddedItems(log + [e]) == if e.Added? then AddedItems(log) + [e.item] else AddedItems(log)
  {
    assert (log + [e])[..|log|] == log;
  }

  lemma {:induction false} AddedIn(log: seq<Event>, item: Item)
    requires Added(item) in log
    ensures item in AddedItems(log)
  {
    var last := log[|log| - 1];
    if last != Added(item) {
      assert log == log[..|log| - 1] + [last];
      AddedIn(log[..|log| - 1], item);
    }
  }

  lemma StepAdds(maxRetries: int, s: State, a: Action)
    ensures AddedItems(Step(maxRetries, s, a).log) ==
            if a.Add? then AddedItems(s.log) + [Item(a.id, a.xdr, a.submit, a.now, 0)] else AddedItems(s.log)
  {
    var log := Step(maxRetries, s, a).log;
    if log != s.log { AddedNext(s.log, log[|s.log|]); }
  }

  /** In every run the items added are those the calls of `add` gave, one each and in that order. */
  lemma {:induction false} AddedExactly(maxRetries: int, run: seq<Action>)
    ensures AddedItems(After(maxRetries, run).log) == Given(run)
    decreases |run|
  {
    if run == [] {
    } else {
      AddedExactly(maxRetries, run[..|run| - 1]);
      StepAdds(maxRetries, After(maxRetries, run[..|run| - 1]), run[|run| - 1]);
    }
  }

  lemma {:induction false} GivenBy(run: seq<Action>, item: Item) returns (k: nat)
    requires item in Given(run)
    ensures k < |run| && run[k] == Add(item.id, item.xdr, item.submit, item.queuedAt) && item.retryCount == 0
  {
    k := |run| - 1;
    if item in Given(run[..k]) {
      k := GivenBy(run[..k], item);
    }
  }

  /** Some call of `add` gave this item, up to the retries it has had since. */
  ghost predicate FromAdd(run: seq<Action>, item: Item) {
    exists k :: 0 <= k < |run| && run[k] == Add(item.id, item.xdr, item.submit, item.queuedAt)
  }

  lemma LoggedFromAdd(maxRetries: int, run: seq<Action>, item: Item)
    requires Added(item.(retryCount := 0)) in After(maxRetries, run).log
    ensures FromAdd(run, item)
  {
    AddedExactly(maxRetries, run);
    AddedIn(After(maxRetries, run).log, item.(retryCount := 0));
    var k := GivenBy(run, item.(retryCount := 0));
  }

  /** Everything stored, and everything sent, is what some call of `add` gave. */
  lemma ItemsFromAdds(maxRetries: int, run: seq<Action>)
    requires UniqueIds(run)
    ensures forall item :: item in After(maxRetries, run).storage ==> FromAdd(run, item)
    ensures forall item :: Sent(item) in After(maxRetries, run).log ==> FromAdd(run, item)
  {
    RunKeepsInv(maxRetries, run);
    var s := After(maxRetries, run);
    forall item | item in s.storage
      ensures FromAdd(run, item)
    {
      assert Standing(MaxSends(maxRetries), s.log, item, Awaits(Current(s), item.id));
      LoggedFromAdd(maxRetries, run, item);
    }
    forall item | Sent(item) in s.log
      ensures FromAdd(run, item)
    {
      var k :| 0 <= k < |s.log| && s.log[k] == Sent(item);
      SendsProper(maxRetries, run, k);
      LoggedFromAdd(maxRetries, run, item);
    }
  }

  // ------------------------------------------------------- what caused an event

  /** The last item sent has this id. */
  predicate LastSent(log: seq<Event>, id: string) {
    log != [] && (
      var last := log[|log| - 1];
      if last.Sent? then last.item.id == id else LastSent(log[..|log| - 1], id)
    )
  }

  /** Why an event follows a log: the action at `p` of the run, and what that action met. */
  ghost predicate Caused(run: seq<Action>, p: nat, log: seq<Event>, e: Event)
    requires p < |run|
  {
    match e
    case Added(item) => run[p] == Add(item.id, item.xdr, item.submit, item.queuedAt) && item.retryCount == 0
    case Sent(item) => run[p].Begin? && run[p].now - item.queuedAt <= 180_000
    case Expired(id) => run[p].Begin? && AddedBefore(run, id, run[p].now - 180_000)
    case Succeeded(id) => run[p].Resolve? && run[p].ok && LastSent(log, id)
    case Failed(id) => run[p].Resolve? && !run[p].ok && LastSent(log, id)
    case Cleared => run[p] == Clear
    case QueueCleared => run[p].Finish? && forall id :: id in AddedIds(log) ==> Gone(log, id)
    case FlushStarted => run[p] == StartFlush && exists id :: id in AddedIds(log) && !Gone(log, id)
  }

  ghost predicate AddedBefore(run: seq<Action>, id: string, limit: int) {
    exists k :: 0 <= k < |run| && run[k].Add? && run[k].id == id && run[k].now < limit
  }

  ghost predicate AwaitsLast(s: State) {
    Current(s).sending.Some? ==> LastSent(s.log, Current(s).sending.value.id)
  }

  lemma LastSentNext(log: seq<Event>, e: Event, id: string)
    ensures LastSent(log + [e], id) == if e.Sent? then e.item.id == id else LastSent(log, id)
  {
    assert (log + [e])[..|log|] == log;
  }

  lemma StepAwaitsLast(maxRetries: int, s: State, a: Action)
    requires OneFlush(s) && AwaitsLast(s)
    ensures AwaitsLast(Step(maxRetries, s, a))
  {
    var s' := Step(maxRetries, s, a);
    if s'.log != s.log && Current(s').sending.Some? {
      LastSentNext(s.log, s'.log[|s.log|], Current(s').sending.value.id);
    }
  }

  lemma {:induction false} RunAwaitsLast(maxRetries: int, run: seq<Action>)
    requires UniqueIds(run)
    ensures AwaitsLast(After(maxRetries, run))
    decreases |run|
  {
    if run == [] {
    } else {
      RunKeepsInv(maxRetries, run[..|run| - 1]);
      RunAwaitsLast(maxRetries, run[..|run| - 1]);
      StepAwaitsLast(maxRetries, After(maxRetries, run[..|run| - 1]), run[|run| - 1]);
    }
  }

  lemma ExpiredIsOld(maxRetries: int, run: seq<Action>, now: int)
    requires UniqueIds(run) && Current(After(maxRetries, run)).queue != []
    requires now - Current(After(maxRetries, run)).queue[0].queuedAt > 180_000
    ensures AddedBefore(run, Current(After(maxRetries, run)).queue[0].id, now - 180_000)
  {
    RunKeepsInv(maxRetries, run);
    var s := After(maxRetries, run);
    var item := Current(s).queue[0];
    assert Standing(MaxSends(maxRetries), s.log, item, 0);
    LoggedFromAdd(maxRetries, run, item);
  }

  /** Nothing is stored exactly when everything added is gone. */
  lemma EmptyExactly(maxRetries: int, run: seq<Action>)
    requires UniqueIds(run)
    ensures var s := After(maxRetries, run);
            s.storage == [] <==> forall id :: id in AddedIds(s.log) ==> Gone(s.log, id)
  {
    StoredExactly(maxRetries, run);
    var s := After(maxRetries, run);
    IdsAt(s.storage);
    if s.storage != [] {
      assert Ids(s.storage)[0] in Ids(s.storage);
    }
  }

  lemma StepCaused(maxRetries: int, s: State, a: Action, run: seq<Action>, p: nat)
    requires OneFlush(s) && AwaitsLast(s) && p < |run| && run[p] == a
    requires s.storage == [] <==> forall id :: id in AddedIds(s.log) ==> Gone(s.log, id)
    requires a.Begin? && Current(s).queue != [] && a.now - Current(s).queue[0].queuedAt > 180_000 ==>
               AddedBefore(run, Current(s).queue[0].id, a.now - 180_000)
    ensures var log := Step(maxRetries, s, a).log;
            log != s.log ==> Caused(run, p, s.log, log[|s.log|])
  {
  }

  lemma LastCaused(maxRetries: int, run: seq<Action>, before: seq<Action>, a: Action)
    requires UniqueIds(run) && run == before + [a]
    ensures var s := After(maxRetries, before);
            var log := Step(maxRetries, s, a).log;
            log != s.log ==> Caused(run, |before|, s.log, log[|s.log|])
  {
    assert UniqueIds(before) by { assert forall i :: 0 <= i < |before| ==> run[i] == before[i]; }
    var s := After(maxRetries, before);
    RunKeepsInv(maxRetries, before);
    RunAwaitsLast(maxRetries, before);
    EmptyExactly(maxRetries, before);
    if a.Begin? && Current(s).queue != [] && a.now - Current(s).queue[0].queuedAt > 180_000 {
      ExpiredIsOld(maxRetries, before, a.now);
      MoreRun(before, a, Current(s).queue[0].id, a.now - 180_000);
    }
    StepCaused(maxRetries, s, a, run, |before|);
  }

  lemma MoreRun(run: seq<Action>, a: Action, id: string, limit: int)
    requires AddedBefore(run, id, limit)
    ensures AddedBefore(run + [a], id, limit)
  {
    var k :| 0 <= k < |run| && run[k].Add? && run[k].id == id && run[k].now < limit;
    assert (run + [a])[k] == run[k];
  }

  lemma MoreCaused(run: seq<Action>, a: Action, p: nat, log: seq<Event>, e: Event)
    requires p < |run| && Caused(run, p, log, e)
    ensures Caused(run + [a], p, log, e)
  {
    if e.Expired? { MoreRun(run, a, e.id, run[p].now - 180_000); }
  }

  /**
   Every event of every run has its cause: an item is added by its call, sent within three minutes of
   that call, expires after them, succeeds or fails by the answer to the item last sent, and a flush
   starts when something is stored and reports an empty queue when nothing is.
   */
  lemma {:induction false} EveryEventCaused(maxRetries: int, run: seq<Action>, k: nat) returns (p: nat)
    requires UniqueIds(run) && k < |After(maxRetries, run).log|
    ensures p < |run| && Caused(run, p, After(maxRetries, run).log[..k], After(maxRetries, run).log[k])
    decreases |run|
  {
    var before, a := run[..|run| - 1], run[|run| - 1];
    var s, log := After(maxRetries, before), After(maxRetries, run).log;
    assert run == before + [a];
    AddedByStep(maxRetries, s, a);
    assert log == s.log || log[..|s.log|] == s.log;
    if k < |s.log| {
      p := EveryEventCaused(maxRetries, before, k);
      MoreCaused(before, a, p, s.log[..k], s.log[k]);
      assert log[..k] == s.log[..k];
    } else {
      p := |before|;
      LastCaused(maxRetries, run, before, a);
    }
  }

  // ------------------------------------------------------ what an action causes

  /** What an answer to the item a flush awaits does: success, the last failure, or a retry that is counted. */
  ghost predicate AnswerTold(maxRetries: int, s: State, s': State, id: string, ok: bool) {
    var last := Sends(s.log, id) >= maxRetries;
    && (ok ==> s'.log == s.log + [Succeeded(id)])
    && (!ok && last ==> s'.log == s.log + [Failed(id)])
    && (!ok && !last ==>
          && s'.log == s.log && Ids(s'.storage) == Ids(s.storage)
          && forall item :: item in s'.storage && item.id == id ==> item.retryCount == Sends(s.log, id))
  }

  /** What the next turn of a flush does: the head of the snapshot has expired, or is sent. */
  ghost predicate TurnTold(s: State, s': State, item: Item, rest: seq<Item>, now: int) {
    && (now - item.queuedAt > 180_000 ==> s'.log == s.log + [Expired(item.id)])
    && (now - item.queuedAt <= 180_000 ==>
          s'.log == s.log + [Sent(item)] && s'.storage == s.storage && Current(s').sending == Some(item))
    && Current(s').queue == rest
  }

  /** What an action of a run does, given the snapshot of the flush that is running, if any. */
  ghost predicate ActionTold(maxRetries: int, s: State, a: Action, s': State) {
    var flush, flushing := Current(s), s.flushes != [];
    match a
    case Add(id, xdr, submit, now) => s'.log == s.log + [Added(Item(id, xdr, submit, now, 0))]
    case Clear => s'.log == s.log + [Cleared] && s'.storage == [] && s'.flushes == s.flushes
    case StartFlush =>
      && (flushing || s.storage == [] ==> s' == s)
      && (!flushing && s.storage != [] ==> s'.log == s.log + [FlushStarted] && Current(s').queue == s.storage)
    case Begin(f, now) =>
      f == 0 && flush.sending.None? && flush.queue != [] ==> TurnTold(s, s', flush.queue[0], flush.queue[1..], now)
    case Resolve(f, ok) => f == 0 && flush.sending.Some? ==> AnswerTold(maxRetries, s, s', flush.sending.value.id, ok)
    case Finish(f) =>
      f == 0 && flushing && flush == Flush([], None) ==>
        && s'.flushes == [] && s'.storage == s.storage
        && (s.storage == [] ==> s'.log == s.log + [QueueCleared])
        && (s.storage != [] ==> s'.log == s.log)
  }

  lemma UpdatedItem(items: seq<Item>, again: Item)
    ensures Ids(Update(items, again)) == Ids(items)
    ensures forall x :: x in Update(items, again) && x.id == again.id ==> x == again
  {
    UpdateIds(items, again);
  }

  /** An item that awaits its answer was sent once more than its retry count says. */
  lemma SentOnceMore(maxRetries: int, s: State)
    requires Inv(maxRetries, s) && Current(s).sending.Some?
    ensures Sends(s.log, Current(s).sending.value.id) == Current(s).sending.value.retryCount + 1
  {
    assert Standing(MaxSends(maxRetries), s.log, Current(s).sending.value, 1);
  }

  lemma AnswerIsTold(maxRetries: int, s: State, item: Item, ok: bool)
    requires |s.flushes| == 1 && s.flushes[0].sending == Some(item) && Sends(s.log, item.id) == item.retryCount + 1
    ensures AnswerTold(maxRetries, s, ResolveItem(maxRetries, s, 0, ok), item.id, ok)
  {
    UpdatedItem(s.storage, item.(retryCount := item.retryCount + 1));
  }

  /**
   In every run each action logs exactly what it should. An answer that is an error ends an item exactly
   when it was sent `maxRetries` times or more, and a flush that ends reports an empty queue exactly when
   nothing is stored.
   */
  lemma EveryActionTold(maxRetries: int, run: seq<Action>, a: Action)
    requires UniqueIds(run)
    ensures ActionTold(maxRetries, After(maxRetries, run), a, Step(maxRetries, After(maxRetries, run), a))
  {
    RunKeepsInv(maxRetries, run);
    var s := After(maxRetries, run);
    if a.Resolve? && a.flush == 0 && Current(s).sending.Some? {
      SentOnceMore(maxRetries, s);
      AnswerIsTold(maxRetries, s, Current(s).sending.value, a.ok);
    }
  }
}
