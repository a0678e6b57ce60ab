/**
 Server failover in the client SDKs: `client/src/PaymasterClient.ts` and
 `paymaster-py/paymaster_py/client.py`. Times are in milliseconds.
 */
module ServerSelection {
  import opened Sorting

  datatype Failure = Failure(failures: nat, failedUntil: int)

  type FailureState = map<string, Failure>

  const COOLDOWN_MS: int := 30_000
  const BASE_DELAY_MS: nat := 250
  const MAX_DELAY_MS: nat := 2_000

  function Min(a: nat, b: nat): nat { if a <= b then a else b }

  // ------------------------------------------------------------------ ordering

  predicate CoolingDown(state: FailureState, url: string, now: int) {
    url in state && state[url].failedUntil > now
  }

  /** The score of the TypeScript client. */
  function ScoreTs(urls: seq<string>, state: FailureState, now: int): nat -> int {
    (i: nat) => if i < |urls| && CoolingDown(state, urls[i], now) then 1_000 + state[urls[i]].failedUntil - now else 0
  }

  /** The score of the Python client, which counts in seconds, in thousandths. */
  function ScorePy(urls: seq<string>, state: FailureState, now: int): nat -> int {
    (i: nat) =>
      if i < |urls| && CoolingDown(state, urls[i], now) then 1_000_000 + (state[urls[i]].failedUntil - now) else 0
  }

  /** The comparator of the TypeScript client: `left.score - right.score || left.index - right.index`. */
  function Compare(score: nat -> int, left: nat, right: nat): int {
    if score(left) - score(right) != 0 then score(left) - score(right) else left - right
  }

  /** What sorting with that comparator promises: no element is after its successor. */
  ghost predicate InOrder(score: nat -> int, order: seq<nat>) {
    forall i :: 0 <= i < |order| - 1 ==> Compare(score, order[i], order[i + 1]) <= 0
  }

  function OrderTs(urls: seq<string>, state: FailureState, now: int): seq<nat> {
    StableSort(ScoreTs(urls, state, now), |urls|)
  }

  /** `sorted(urls, key=_score)`, which is stable. */
  function OrderPy(urls: seq<string>, state: FailureState, now: int): seq<nat> {
    StableSort(ScorePy(urls, state, now), |urls|)
  }

  lemma {:induction false} InOrderChain(score: nat -> int, order: seq<nat>, i: nat, j: nat)
    requires InOrder(score, order) && i <= j < |order|
    ensures Compare(score, order[i], order[j]) <= 0
    decreases j
  {
    if i < j {
      InOrderChain(score, order, i, j - 1);
      assert Compare(score, order[j - 1], order[j - 1 + 1]) <= 0;
    }
  }

  /**
   The index tie-break leaves one order: whatever algorithm sorts by the comparator, the result is the
   stable sort.
   */
  lemma ComparatorDecides(score: nat -> int, n: nat, order: seq<nat>)
    requires InOrder(score, order) && Permutation(order, n)
    ensures order == StableSort(score, n)
  {
    forall i, j | 0 <= i < j < |order|
      ensures Before(score, order[i], order[j])
    {
      InOrderChain(score, order, i, j);
    }
    SortIsStable(score, n, order);
  }

  /** Both clients visit the servers in the same order, whichever way their libraries sort. */
  lemma SameOrder(urls: seq<string>, state: FailureState, now: int)
    ensures OrderTs(urls, state, now) == OrderPy(urls, state, now)
  {
    var ts, py := ScoreTs(urls, state, now), ScorePy(urls, state, now);
    StableSortSorts(ts, |urls|);
    var order := OrderTs(urls, state, now);
    forall i, j | 0 <= i < j < |order|
      ensures Before(py, order[i], order[j])
    {
      assert Before(ts, order[i], order[j]);
    }
    SortIsStable(py, |urls|, order);
  }

  /** `a` is visited before `b`: healthy servers as configured, then the cooling ones by remaining cooldown. */
  predicate Preferred(urls: seq<string>, state: FailureState, now: int, a: nat, b: nat)
    requires a < |urls| && b < |urls|
  {
    var untilA := if urls[a] in state && state[urls[a]].failedUntil > now then state[urls[a]].failedUntil else now;
    var untilB := if urls[b] in state && state[urls[b]].failedUntil > now then state[urls[b]].failedUntil else now;
    untilA < untilB || (untilA == untilB && a < b)
  }

  lemma HealthyFirst(urls: seq<string>, state: FailureState, now: int)
    ensures Permutation(OrderTs(urls, state, now), |urls|) && |OrderTs(urls, state, now)| == |urls|
    ensures forall i :: 0 <= i < |urls| ==> OrderTs(urls, state, now)[i] < |urls|
    ensures forall i, j :: 0 <= i < j < |urls| ==>
              Preferred(urls, state, now, OrderTs(urls, state, now)[i], OrderTs(urls, state, now)[j])
  {
    var order := OrderTs(urls, state, now);
    StableSortSorts(ScoreTs(urls, state, now), |urls|);
    forall i | 0 <= i < |urls|
      ensures order[i] < |urls|
    {
      assert order[i] in order;
    }
    forall i, j | 0 <= i < j < |urls|
      ensures Preferred(urls, state, now, order[i], order[j])
    {
      assert Before(ScoreTs(urls, state, now), order[i], order[j]);
    }
  }
}
