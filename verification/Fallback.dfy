/**
 The fallback request of the SDK clients and the failure state it keeps:
 `client/src/PaymasterClient.ts`, and the same loop in `paymaster-py/paymaster_py/client.py`.
 */
module Fallback {
  import opened Prelude
  import opened Bits
  import opened Sorting
  import opened ServerSelection

  datatype Error = Configuration | Server(status: nat) | Other(message: string) | NoAvailableServer

  datatype Outcome = Answered | Threw(error: Error)

  /** Errors that end the request at once: they are not the server's fault. */
  predicate Fatal(error: Error) {
    error.Configuration? || error == Server(400)
  }

  /** One change of the failure state. */
  datatype Mark = Failed(url: string, now: int) | Succeeded(url: string)

  function Multiplier(failures: nat): nat {
    if failures == 0 then 1 else Min(Pow2(failures - 1), 4)
  }

  /** A server's entry after one more failure. */
  function OneMore(state: FailureState, url: string, now: int): Failure {
    var failures := (if url in state then state[url].failures else 0) + 1;
    Failure(failures, now + COOLDOWN_MS * Multiplier(failures))
  }

  function MarkFailed(state: FailureState, url: string, now: int): FailureState {
    state[url := OneMore(state, url, now)]
  }

  function ApplyMark(state: FailureState, m: Mark): FailureState {
    match m
    case Failed(url, now) => MarkFailed(state, url, now)
    case Succeeded(url) => state - {url}
  }

  function ApplyMarks(state: FailureState, marks: seq<Mark>): FailureState {
    if marks == [] then state else ApplyMark(ApplyMarks(state, marks[..|marks| - 1]), marks[|marks| - 1])
  }

  // ------------------------------------------------------------------ history

  /** Failures of a server since its last success. */
  function Streak(marks: seq<Mark>, url: string): nat {
    if marks == [] then 0
    else
      var m := marks[|marks| - 1];
      if m.url != url then Streak(marks[..|marks| - 1], url)
      else if m.Failed? then Streak(marks[..|marks| - 1], url) + 1
      else 0
  }

  /** When a server last failed. */
  function LastFailure(marks: seq<Mark>, url: string): int {
    if marks == [] then 0
    else
      var m := marks[|marks| - 1];
      if m.Failed? && m.url == url then m.now else LastFailure(marks[..|marks| - 1], url)
  }

  lemma {:induction false} MultiplierValues(failures: nat)
    requires failures >= 1
    ensures Multiplier(failures) == if failures == 1 then 1 else if failures == 2 then 2 else 4
  {
    if failures > 3 {
      MultiplierValues(failures - 1);
    } else {
      assert Pow2(1) == 2 && Pow2(2) == 4;
    }
  }

  /**
   However requests overlap, a server has an entry exactly while it has failed since its last
   success, counting those failures and cooling down for 30, 60 or 120 s from the last of them.
   */
  lemma {:induction false} EntriesFromHistory(marks: seq<Mark>, url: string)
    ensures var state := ApplyMarks(map[], marks);
            && (url in state <==> Streak(marks, url) > 0)
            && (url in state ==>
                  && state[url].failures == Streak(marks, url)
                  && state[url].failedUntil == LastFailure(marks, url) +
                     (if Streak(marks, url) == 1 then 30_000 else if Streak(marks, url) == 2 then 60_000 else 120_000))
  {
    if marks == [] {
    } else {
      EntriesFromHistory(marks[..|marks| - 1], url);
      var m := marks[|marks| - 1];
      if m.Failed? && m.url == url { MultiplierValues(Streak(marks, url)); }
    }
  }

  // ------------------------------------------------------------------ requests

  /** `getRetryDelayMs`. */
  function Delay(attempt: nat): nat {
    Min(BASE_DELAY_MS * Pow2(attempt), MAX_DELAY_MS)
  }

  /** The first `k` delays. */
  function Slept(k: nat): nat {
    if k == 0 then 0 else Slept(k - 1) + Delay(k - 1)
  }

  /** The client sleeps after every failure that has a next server to try. */
  function Sleeps(failed: nat, servers: nat): nat {
    Slept(if failed == servers && failed > 0 then failed - 1 else failed)
  }

  /** The sum of the first delays, of 250, 500, 1000 and then 2000 ms each. */
  lemma {:induction false} SleptIs(k: nat)
    ensures Slept(k) == if k == 0 then 0 else if k == 1 then 250 else if k == 2 then 750 else 1_750 + 2_000 * (k - 3)
  {
    if k == 0 {
    } else {
      SleptIs(k - 1);
      DelaysGrow(k - 1);
    }
  }

  lemma {:induction false} DelaysGrow(attempt: nat)
    ensures Delay(attempt) ==
            if attempt == 0 then 250 else if attempt == 1 then 500 else if attempt == 2 then 1_000 else 2_000
  {
    if attempt > 3 {
      DelaysGrow(attempt - 1);
    } else {
      assert Pow2(1) == 2 && Pow2(2) == 4 && Pow2(3) == 8;
    }
  }

  /** The servers at the positions of an order. */
  function UrlsAt(urls: seq<string>, order: seq<nat>): (r: seq<string>)
    requires forall i :: 0 <= i < |order| ==> order[i] < |urls|
    ensures |r| == |order|
  {
    seq(|order|, i requires 0 <= i < |order| => urls[order[i]])
  }

  /** The entry of a server that failed at `now`, after the failures it had: a cooldown of 30, 60 or 120 s. */
  predicate FailedAt(before: FailureState, entry: Failure, url: string, now: int) {
    && entry.failures == (if url in before then before[url].failures + 1 else 1)
    && entry.failedUntil ==
       now + (if entry.failures == 1 then 30_000 else if entry.failures == 2 then 60_000 else 120_000)
  }

  lemma OneMoreIs(before: FailureState, url: string, now: int)
    ensures forall entry :: FailedAt(before, entry, url, now) <==> entry == OneMore(before, url, now)
  {
    MultiplierValues(OneMore(before, url, now).failures);
  }

  /** `failed` attempts failed on the first servers; each gained a failure at its own time, and nothing else changed. */
  ghost predicate FailedFirst(before: FailureState, after: FailureState, tried: seq<string>, times: nat -> int,
                              failed: nat) {
    && failed <= |tried|
    && (forall i :: 0 <= i < failed ==>
          tried[i] in after && FailedAt(before, after[tried[i]], tried[i], times(i)))
    && forall url :: url !in tried[..failed] ==>
         (url in after <==> url in before) && (url in after ==> after[url] == before[url])
  }

  lemma FailedNext(before: FailureState, after: FailureState, tried: seq<string>, times: nat -> int, failed: nat)
    requires FailedFirst(before, after, tried, times, failed) && failed < |tried|
    requires Distinct(tried)
    ensures FailedFirst(before, MarkFailed(after, tried[failed], times(failed)), tried, times, failed + 1)
  {
    var url, now := tried[failed], times(failed);
    assert tried[..failed + 1] == tried[..failed] + [url];
    assert url !in tried[..failed];
    OneMoreIs(after, url, now);
    assert FailedAt(after, OneMore(after, url, now), url, now);
  }

  /** The first outcomes are errors other than a configuration error and a server's 400. */
  ghost predicate AllFailed(outcomes: nat -> Outcome, failed: nat) {
    forall i :: 0 <= i < failed ==>
      && outcomes(i).Threw? && !outcomes(i).error.Configuration?
      && !(outcomes(i).error.Server? && outcomes(i).error.status == 400)
  }

  /**
   How a request over the servers `order` ends after `failed` failures: with the first answer, with a
   configuration error or a server's 400 at once, or with the last failure when every server has failed,
   if that is an error a server sent.
   */
  ghost predicate Concludes(result: Option<Error>, order: seq<string>, outcomes: nat -> Outcome, failed: nat) {
    && failed <= |order|
    && AllFailed(outcomes, failed)
    && (failed < |order| && outcomes(failed).Answered? ==> result == None)
    && (failed < |order| && outcomes(failed).Threw? ==>
          && (outcomes(failed).error == Configuration || outcomes(failed).error == Server(400))
          && result == Some(outcomes(failed).error))
    && (failed == |order| ==>
          if failed > 0 && outcomes(failed - 1).error.Server? then result == Some(outcomes(failed - 1).error)
          else result == Some(NoAvailableServer))
  }

  /** The error of a request that every server failed: a server's own error is passed on. */
  function Exhausted(last: Error): Error {
    if last.Server? then last else NoAvailableServer
  }

  lemma StopsAt(order: seq<string>, outcomes: nat -> Outcome, failed: nat, result: Option<Error>)
    requires AllFailed(outcomes, failed) && failed < |order|
    requires match outcomes(failed) case Answered => result == None case Threw(e) => Fatal(e) && result == Some(e)
    ensures Concludes(result, order, outcomes, failed)
  {
  }

  lemma RunsOut(order: seq<string>, outcomes: nat -> Outcome, lastError: Error)
    requires AllFailed(outcomes, |order|)
    requires lastError == if order == [] then NoAvailableServer else outcomes(|order| - 1).error
    ensures Concludes(Some(Exhausted(lastError)), order, outcomes, |order|)
  {
  }

  class PaymasterClient {
    const serverUrls: seq<string>
    var nodeFailureState: FailureState

    constructor (urls: seq<string>)
      ensures serverUrls == urls && nodeFailureState == map[]
    {
      serverUrls, nodeFailureState := urls, map[];
    }

    method MarkServerFailure(url: string, now: int)
      modifies this
      ensures nodeFailureState == MarkFailed(old(nodeFailureState), url, now)
      ensures url in nodeFailureState && nodeFailureState == old(nodeFailureState)[url := nodeFailureState[url]]
      ensures FailedAt(old(nodeFailureState), nodeFailureState[url], url, now)
    {
      OneMoreIs(nodeFailureState, url, now);
      var failures := 1;
      if url in nodeFailureState {
        failures := nodeFailureState[url].failures + 1;
      }
      var multiplier := Min(Pow2(failures - 1), 4);
      nodeFailureState := nodeFailureState[url := Failure(failures, now + COOLDOWN_MS * multiplier)];
    }

    method MarkServerSuccess(url: string)
      modifies this
      ensures nodeFailureState == old(nodeFailureState) - {url}
    {
      nodeFailureState := nodeFailureState - {url};
    }

    /** `getOrderedServerUrls`. */
    method OrderedServerUrls(now: int) returns (order: seq<string>)
      ensures HealthyOrder(serverUrls, nodeFailureState, now, order)
    {
      HealthyFirst(serverUrls, nodeFailureState, now);
      order := UrlsAt(serverUrls, OrderTs(serverUrls, nodeFailureState, now));
    }

    /** All servers before position `failed` have failed, since the state was `before`. */
    ghost predicate Failing(order: seq<string>, outcomes: nat -> Outcome, times: nat -> int, before: FailureState,
                            failed: nat)
      reads this
    {
      FailedFirst(before, nodeFailureState, order, times, failed) && AllFailed(outcomes, failed)
    }

    /** The attempt after `failed` failures fails too. */
    method FailAttempt(order: seq<string>, failed: nat, outcomes: nat -> Outcome, times: nat -> int,
                       ghost before: FailureState)
      requires Failing(order, outcomes, times, before, failed) && failed < |order| && Distinct(order)
      requires outcomes(failed).Threw? && !Fatal(outcomes(failed).error)
      modifies this
      ensures Failing(order, outcomes, times, before, failed + 1)
    {
      FailedNext(before, nodeFailureState, order, times, failed);
      MarkServerFailure(order[failed], times(failed));
    }

    /** The sleep before the next server, if there is one. */
    method Pause(failed: nat, servers: nat, sleptBefore: nat) returns (slept: nat)
      requires failed < servers && sleptBefore == Sleeps(failed, servers)
      ensures slept == Sleeps(failed + 1, servers)
    {
      slept := sleptBefore;
      if failed < servers - 1 {
        slept := slept + Delay(failed);
      }
    }

    /** The loop of `requestWithFallback`. */
    method TryServers(order: seq<string>, outcomes: nat -> Outcome, times: nat -> int)
      returns (result: Option<Error>, failed: nat, slept: nat, ghost marked: FailureState)
      requires Distinct(order)
      modifies this
      ensures Concludes(result, order, outcomes, failed)
      ensures FailedFirst(old(nodeFailureState), marked, order, times, failed)
      ensures result.None? ==> failed < |order|
      ensures nodeFailureState == if result.None? then marked - {order[failed]} else marked
      ensures slept == Sleeps(failed, |order|)
    {
      var lastError := NoAvailableServer;
      failed, slept := 0, 0;
      while failed < |order|
        invariant failed <= |order|
        invariant Failing(order, outcomes, times, old(nodeFailureState), failed)
        invariant lastError == if failed == 0 then NoAvailableServer else outcomes(failed - 1).error
        invariant slept == Sleeps(failed, |order|)
      {
        marked := nodeFailureState;
        match outcomes(failed) {
          case Answered =>
            StopsAt(order, outcomes, failed, None);
            MarkServerSuccess(order[failed]);
            return None, failed, slept, marked;
          case Threw(error) =>
            if Fatal(error) {
              StopsAt(order, outcomes, failed, Some(error));
              return Some(error), failed, slept, marked;
            }
            lastError := error;
            FailAttempt(order, failed, outcomes, times, old(nodeFailureState));
        }
        slept := Pause(failed, |order|, slept);
        failed := failed + 1;
      }
      RunsOut(order, outcomes, lastError);
      return Some(Exhausted(lastError)), failed, slept, nodeFailureState;
    }

    /**
     `requestWithFallback`, started at `now`: attempt `i` ends with `outcomes(i)`, and a failure is
     marked at `times(i)`. The result is the error thrown, if any. The servers tried are a prefix of
     the preferred order; each that failed gains a failure, one that answers is cleared, and nothing
     else changes.
     */
    method RequestWithFallback(now: int, outcomes: nat -> Outcome, times: nat -> int)
      returns (result: Option<Error>, order: seq<string>, failed: nat, slept: nat, ghost marked: FailureState)
      requires Distinct(serverUrls)
      modifies this
      ensures HealthyOrder(serverUrls, old(nodeFailureState), now, order) && Distinct(order)
      ensures Concludes(result, order, outcomes, failed)
      ensures FailedFirst(old(nodeFailureState), marked, order, times, failed)
      ensures result.None? ==> failed < |order|
      ensures nodeFailureState == if result.None? then marked - {order[failed]} else marked
      ensures |order| == |serverUrls|
      ensures var k := if failed == |order| && failed > 0 then failed - 1 else failed;
              slept == if k == 0 then 0 else if k == 1 then 250 else if k == 2 then 750 else 1_750 + 2_000 * (k - 3)
    {
      order := OrderedServerUrls(now);
      OrderDistinct(serverUrls, nodeFailureState, now, order);
      result, failed, slept, marked := TryServers(order, outcomes, times);
      SleptIs(if failed == |order| && failed > 0 then failed - 1 else failed);
    }
  }

  ghost predicate Distinct(urls: seq<string>) {
    forall i, j :: 0 <= i < j < |urls| ==> urls[i] != urls[j]
  }

  /** All servers, those cooling down last. */
  ghost predicate HealthyOrder(urls: seq<string>, state: FailureState, now: int, order: seq<string>) {
    exists positions: seq<nat> ::
      && Permutation(positions, |urls|) && |positions| == |urls|
      && (forall i :: 0 <= i < |positions| ==> positions[i] < |urls|)
      && order == UrlsAt(urls, positions)
      && forall i, j :: 0 <= i < j < |positions| ==> Preferred(urls, state, now, positions[i], positions[j])
  }

  lemma OrderDistinct(urls: seq<string>, state: FailureState, now: int, order: seq<string>)
    requires HealthyOrder(urls, state, now, order) && Distinct(urls)
    ensures |order| == |urls| && Distinct(order)
  {
    var positions: seq<nat> :|
      && Permutation(positions, |urls|) && |positions| == |urls|
      && (forall i :: 0 <= i < |positions| ==> positions[i] < |urls|)
      && order == UrlsAt(urls, positions)
      && forall i, j :: 0 <= i < j < |positions| ==> Preferred(urls, state, now, positions[i], positions[j]);
    forall i, j | 0 <= i < j < |order|
      ensures order[i] != order[j]
    {
      assert positions[i] != positions[j];
      assert order[i] == urls[positions[i]] && order[j] == urls[positions[j]];
    }
  }
}
