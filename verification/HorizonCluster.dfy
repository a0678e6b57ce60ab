/** Failover between Horizon nodes: `paymaster-server/src/horizon.rs`. */
module HorizonCluster {
  import opened Prelude
  import opened Sorting
  import opened RoundRobin

  datatype Strategy = Priority | RoundRobin

  datatype HttpError = Status(code: nat, body: string) | Transport(message: string)

  datatype Node = Node(active: bool, failures: nat, lastChecked: Option<nat>, lastError: Option<HttpError>,
                       lastSuccess: Option<nat>, url: string)

  /** What comes back from a node: a response with the hash decoded from its body, if it has one, or no response. */
  datatype Answer = Http(code: nat, body: string, hash: Option<string>) | Unreachable(message: string)

  datatype Verdict = Success(hash: string) | Undecodable | Retry(error: HttpError) | Final(error: HttpError)

  /** `classify_http_error`. */
  predicate Retryable(code: nat) {
    code in {408, 425, 429, 500, 502, 503, 504}
  }

  function Judge(a: Answer): Verdict {
    match a
    case Unreachable(message) => Retry(Transport(message))
    case Http(code, body, hash) =>
      if 200 <= code < 300 then (if hash.Some? then Success(hash.value) else Undecodable)
      else if Retryable(code) then Retry(Status(code, body))
      else Final(Status(code, body))
  }

  /** One update of a node's status, as made under the lock. */
  datatype Mark = Mark(node: nat, verdict: Verdict, now: nat)

  function Marked(node: Node, verdict: Verdict, now: nat): Node {
    match verdict
    case Success(_) =>
      node.(active := true, failures := 0, lastChecked := Some(now), lastError := None, lastSuccess := Some(now))
    case Undecodable => node
    case Retry(error) =>
      node.(active := false, failures := node.failures + 1, lastChecked := Some(now), lastError := Some(error))
    case Final(error) => node.(lastChecked := Some(now), lastError := Some(error))
  }

  function ApplyMark(nodes: seq<Node>, m: Mark): seq<Node> {
    if m.node < |nodes| then nodes[m.node := Marked(nodes[m.node], m.verdict, m.now)] else nodes
  }

  function ApplyMarks(nodes: seq<Node>, marks: seq<Mark>): (r: seq<Node>)
    ensures |r| == |nodes|
  {
    if marks == [] then nodes else ApplyMark(ApplyMarks(nodes, marks[..|marks| - 1]), marks[|marks| - 1])
  }

  function Fresh(urls: seq<string>): (nodes: seq<Node>)
    ensures |nodes| == |urls|
  {
    seq(|urls|, i requires 0 <= i < |urls| => Node(true, 0, None, None, None, urls[i]))
  }

  // ------------------------------------------------------------ visiting order

  /** The sort key of the priority strategy. */
  function Rank(nodes: seq<Node>): nat -> int {
    (i: nat) => if i < |nodes| && nodes[i].active then 0 else 1
  }

  /** `node_order`. */
  function Order(strategy: Strategy, nodes: seq<Node>, cursor: nat): seq<nat> {
    if strategy.Priority? then StableSort(Rank(nodes), |nodes|)
    else if nodes == [] then []
    else Rotation(|nodes|, cursor % |nodes|)
  }

  /** The positions of the nodes that are active, or of those that are not, in configured order. */
  function Positions(nodes: seq<Node>, active: bool): seq<nat> {
    if nodes == [] then []
    else
      var n := |nodes| - 1;
      if nodes[n].active == active then Positions(nodes[..n], active) + [n] else Positions(nodes[..n], active)
  }

  lemma {:induction false} PositionsAre(nodes: seq<Node>, active: bool)
    ensures forall x: nat :: x in Positions(nodes, active) <==> x < |nodes| && nodes[x].active == active
    ensures forall i, j :: 0 <= i < j < |Positions(nodes, active)| ==>
              Positions(nodes, active)[i] < Positions(nodes, active)[j]
  {
    if nodes == [] {
    } else {
      var n := |nodes| - 1;
      var before := Positions(nodes[..n], active);
      PositionsAre(nodes[..n], active);
      forall i | 0 <= i < |before|
        ensures before[i] < n
      {
        assert before[i] in before;
      }
    }
  }

  lemma ActiveFirstSorted(nodes: seq<Node>)
    ensures Sorted(Rank(nodes), Positions(nodes, true) + Positions(nodes, false))
  {
    var up, down := Positions(nodes, true), Positions(nodes, false);
    PositionsAre(nodes, true);
    PositionsAre(nodes, false);
    assert forall i :: 0 <= i < |up| ==> up[i] in up;
    assert forall i :: 0 <= i < |down| ==> down[i] in down;
  }

  /** By priority, the active nodes come first and the others last, each group in configured order. */
  lemma PriorityOrder(nodes: seq<Node>, cursor: nat)
    ensures Order(Priority, nodes, cursor) == Positions(nodes, true) + Positions(nodes, false)
  {
    ActiveFirstSorted(nodes);
    PositionsAre(nodes, true);
    PositionsAre(nodes, false);
    SortedDistinct(Rank(nodes), Positions(nodes, true) + Positions(nodes, false));
    SortIsStable(Rank(nodes), |nodes|, Positions(nodes, true) + Positions(nodes, false));
  }

  lemma RotationCovers(n: nat, start: nat)
    requires start < n
    ensures Permutation(Rotation(n, start), n)
  {
    var order := Rotation(n, start);
    forall x: nat | x < n
      ensures x in order
    {
      assert order[if x >= start then x - start else x + n - start] == x;
    }
  }

  /** Every submission plans to visit each node exactly once. */
  lemma OrderIsPermutation(strategy: Strategy, nodes: seq<Node>, cursor: nat)
    ensures Permutation(Order(strategy, nodes, cursor), |nodes|) && |Order(strategy, nodes, cursor)| == |nodes|
  {
    if strategy.Priority? {
      StableSortSorts(Rank(nodes), |nodes|);
    } else if nodes != [] {
      RotationCovers(|nodes|, cursor % |nodes|);
    }
  }

  lemma TurnAround(cursor: nat, k: nat, n: nat)
    requires k < n
    ensures (cursor + k) % n == if cursor % n + k < n then cursor % n + k else cursor % n + k - n
  {
    var q, start := cursor / n, cursor % n;
    if start + k < n {
      ModIs(cursor + k, n, q, start + k);
    } else {
      Distribute(n, q, 1);
      ModIs(cursor + k, n, q + 1, start + k - n);
    }
  }

  /** In turn, the nodes are visited from the cursor on, around the configured order. */
  lemma RotatedOrder(nodes: seq<Node>, cursor: nat, k: nat)
    requires k < |nodes|
    ensures |Order(RoundRobin, nodes, cursor)| == |nodes|
    ensures Order(RoundRobin, nodes, cursor)[k] == (cursor + k) % |nodes|
  {
    TurnAround(cursor, k, |nodes|);
  }

  // --------------------------------------------------------------- submission

  datatype Failure = BadResponse | Rejected(error: HttpError) | Exhausted(lastError: Option<HttpError>)

  datatype Submission = Submission(attempts: nat, hash: string, url: string)

  /** The marks of a submission's attempts, one for each node visited so far. */
  ghost predicate MarksOf(marks: seq<Mark>, order: seq<nat>, answers: nat -> Answer, times: nat -> nat) {
    && |marks| <= |order|
    && forall i :: 0 <= i < |marks| ==> marks[i] == Mark(order[i], Judge(answers(i)), times(i))
  }

  /** Each mark is on a node of its own. */
  ghost predicate Apart(marks: seq<Mark>, n: nat) {
    && (forall i :: 0 <= i < |marks| ==> marks[i].node < n)
    && forall i, j :: 0 <= i < j < |marks| ==> marks[i].node != marks[j].node
  }

  lemma MarksApart(marks: seq<Mark>, order: seq<nat>, answers: nat -> Answer, times: nat -> nat, n: nat)
    requires MarksOf(marks, order, answers, times) && Permutation(order, n)
    ensures Apart(marks, n)
  {
    forall i | 0 <= i < |marks|
      ensures marks[i].node < n
    {
      assert order[i] in order;
    }
  }

  /** Each node marked got its own mark, and the others were left alone. */
  ghost predicate TouchedOnce(nodes: seq<Node>, after: seq<Node>, marks: seq<Mark>)
    requires Apart(marks, |nodes|)
  {
    && |after| == |nodes|
    && (forall m :: m in marks ==> after[m.node] == Marked(nodes[m.node], m.verdict, m.now))
    && forall x :: 0 <= x < |nodes| && (forall m :: m in marks ==> m.node != x) ==> after[x] == nodes[x]
  }

  lemma TouchNext(nodes: seq<Node>, after: seq<Node>, marks: seq<Mark>, m: Mark)
    requires Apart(marks, |nodes|) && TouchedOnce(nodes, after, marks)
    requires m.node < |nodes| && forall x :: x in marks ==> x.node != m.node
    ensures Apart(marks + [m], |nodes|) && TouchedOnce(nodes, ApplyMark(after, m), marks + [m])
  {
    var more, last := marks + [m], ApplyMark(after, m);
    assert m in more && forall x :: x in marks ==> x in more;
    forall x | x in more
      ensures last[x.node] == Marked(nodes[x.node], x.verdict, x.now)
    {
      if x != m { assert x in marks; }
    }
  }

  /** Marks on different nodes touch each node once. */
  lemma {:induction false} MarksTouchOnce(nodes: seq<Node>, marks: seq<Mark>)
    requires Apart(marks, |nodes|)
    ensures TouchedOnce(nodes, ApplyMarks(nodes, marks), marks)
  {
    if marks == [] {
    } else {
      var init, last := marks[..|marks| - 1], marks[|marks| - 1];
      MarksTouchOnce(nodes, init);
      TouchNext(nodes, ApplyMarks(nodes, init), init, last);
      assert init + [last] == marks;
    }
  }

  /** No submission contacts a node twice. */
  lemma NoNodeTwice(marks: seq<Mark>, strategy: Strategy, nodes: seq<Node>, cursor: nat, answers: nat -> Answer,
                    times: nat -> nat)
    requires MarksOf(marks, Order(strategy, nodes, cursor), answers, times)
    ensures Apart(marks, |nodes|)
  {
    OrderIsPermutation(strategy, nodes, cursor);
    MarksApart(marks, Order(strategy, nodes, cursor), answers, times, |nodes|);
  }

  lemma MarksNext(nodes: seq<Node>, marks: seq<Mark>, m: Mark)
    ensures ApplyMarks(nodes, marks + [m]) == ApplyMark(ApplyMarks(nodes, marks), m)
  {
    assert (marks + [m])[..|marks|] == marks;
  }

  lemma {:induction false} MarksKeepUrls(nodes: seq<Node>, marks: seq<Mark>)
    ensures forall i :: 0 <= i < |nodes| ==> ApplyMarks(nodes, marks)[i].url == nodes[i].url
  {
    if marks == [] {
    } else {
      MarksKeepUrls(nodes, marks[..|marks| - 1]);
    }
  }

  /** The result that the verdict of the `k`-th and last attempt calls for. */
  function Outcome(k: nat, verdict: Verdict, url: string): Result<Submission, Failure> {
    match verdict
    case Success(hash) => Ok(Submission(k, hash, url))
    case Undecodable => Err(BadResponse)
    case Final(error) => Err(Rejected(error))
    case Retry(error) => Err(Exhausted(Some(error)))
  }

  ghost predicate AllRetry(marks: seq<Mark>) {
    forall i :: 0 <= i < |marks| ==> marks[i].verdict.Retry?
  }

  /** All attempts but the last were retryable; if the last one was too, no node is left untried. */
  ghost predicate Concludes(result: Result<Submission, Failure>, marks: seq<Mark>, nodes: seq<Node>) {
    var k := |marks|;
    if k == 0 then nodes == [] && result == Err(Exhausted(None))
    else
      && AllRetry(marks[..k - 1]) && marks[k - 1].node < |nodes|
      && result == Outcome(k, marks[k - 1].verdict, nodes[marks[k - 1].node].url)
      && (marks[k - 1].verdict.Retry? ==> k == |nodes|)
  }

  lemma ConcludesAt(marks: seq<Mark>, m: Mark, nodes: seq<Node>)
    requires AllRetry(marks) && m.node < |nodes| && (m.verdict.Retry? ==> |marks| + 1 == |nodes|)
    ensures Concludes(Outcome(|marks| + 1, m.verdict, nodes[m.node].url), marks + [m], nodes)
  {
    assert (marks + [m])[..|marks|] == marks;
  }

  // ------------------------------------------------- what the answers lead to

  /** The node took the transaction. */
  predicate Accepts(a: Answer) {
    a.Http? && 200 <= a.code < 300 && a.hash.Some?
  }

  /** The node could not be reached, or said that it is busy or broken. */
  predicate Down(a: Answer) {
    a.Unreachable? || a.code in {408, 425, 429, 500, 502, 503, 504}
  }

  function ErrorOf(a: Answer): HttpError {
    if a.Unreachable? then Transport(a.message) else Status(a.code, a.body)
  }

  /** The result of `k` attempts, by the answers they got. */
  ghost predicate Answered(result: Result<Submission, Failure>, k: nat, order: seq<nat>, answers: nat -> Answer,
                           nodes: seq<Node>)
  {
    && k <= |order| && (forall i :: 0 <= i < k - 1 ==> Down(answers(i)))
    && if k == 0 then nodes == [] && result == Err(Exhausted(None))
       else
         var last := answers(k - 1);
         && order[k - 1] < |nodes|
         && (result.Ok? <==> Accepts(last))
         && (result.Ok? ==> result.value == Submission(k, last.hash.value, nodes[order[k - 1]].url))
         && (result == Err(BadResponse) <==> last.Http? && 200 <= last.code < 300 && last.hash.None?)
         && (result.Err? && result.error.Rejected? <==> last.Http? && !(200 <= last.code < 300) && !Down(last))
         && (result.Err? && result.error.Rejected? ==> result.error.error == Status(last.code, last.body))
         && (result.Err? && result.error.Exhausted? <==> Down(last))
         && (Down(last) ==> k == |nodes| && result.error.lastError == Some(ErrorOf(last)))
  }

  /** What an answer makes of the status of its node. */
  predicate StatusAfter(x: Node, y: Node, a: Answer, now: nat) {
    if Accepts(a) then
      y == x.(active := true, failures := 0, lastChecked := Some(now), lastError := None, lastSuccess := Some(now))
    else if Down(a) then
      y == x.(active := false, failures := x.failures + 1, lastChecked := Some(now), lastError := Some(ErrorOf(a)))
    else if a.Http? && 200 <= a.code < 300 then y == x
    else y == x.(lastChecked := Some(now), lastError := Some(ErrorOf(a)))
  }

  /** The first `k` nodes of the order got their answers, and the others were left alone. */
  ghost predicate Statuses(before: seq<Node>, after: seq<Node>, k: nat, order: seq<nat>, answers: nat -> Answer,
                           times: nat -> nat)
  {
    && k <= |order| && |after| == |before|
    && (forall i :: 0 <= i < k ==>
          order[i] < |before| && StatusAfter(before[order[i]], after[order[i]], answers(i), times(i)))
    && forall x: nat :: x < |before| && x !in order[..k] ==> after[x] == before[x]
  }

  lemma StatusMarked(x: Node, a: Answer, now: nat)
    ensures StatusAfter(x, Marked(x, Judge(a), now), a, now)
    ensures Judge(a).Retry? <==> Down(a)
  {
  }

  lemma MarksAnswered(result: Result<Submission, Failure>, marks: seq<Mark>, order: seq<nat>, answers: nat -> Answer,
                      times: nat -> nat, nodes: seq<Node>)
    requires MarksOf(marks, order, answers, times) && Concludes(result, marks, nodes)
    ensures Answered(result, |marks|, order, answers, nodes)
  {
    var k := |marks|;
    forall i | 0 <= i < k - 1
      ensures Down(answers(i))
    {
      assert marks[..k - 1][i] == marks[i];
      StatusMarked(Node(true, 0, None, None, None, ""), answers(i), times(i));
    }
  }

  lemma MarksStatuses(marks: seq<Mark>, order: seq<nat>, answers: nat -> Answer, times: nat -> nat, nodes: seq<Node>)
    requires MarksOf(marks, order, answers, times) && Apart(marks, |nodes|)
    ensures Statuses(nodes, ApplyMarks(nodes, marks), |marks|, order, answers, times)
  {
    MarksTouchOnce(nodes, marks);
    var after := ApplyMarks(nodes, marks);
    forall i | 0 <= i < |marks|
      ensures order[i] < |nodes| && StatusAfter(nodes[order[i]], after[order[i]], answers(i), times(i))
    {
      assert marks[i] in marks;
      StatusMarked(nodes[order[i]], answers(i), times(i));
    }
    forall x: nat | x < |nodes| && x !in order[..|marks|]
      ensures after[x] == nodes[x]
    {
      assert forall i :: 0 <= i < |marks| ==> order[..|marks|][i] == order[i];
    }
  }

  class Cluster {
    const strategy: Strategy
    const wrap: nat
    var nodes: seq<Node>
    var cursor: nat

    constructor (urls: seq<string>, strategy: Strategy, wrap: nat)
      ensures this.strategy == strategy && this.wrap == wrap && nodes == Fresh(urls) && cursor == 0
    {
      this.strategy, this.wrap, nodes, cursor := strategy, wrap, Fresh(urls), 0;
    }

    method NodeOrder() returns (order: seq<nat>)
      modifies this`cursor
      ensures order == Order(strategy, nodes, old(cursor))
      ensures cursor == if strategy.RoundRobin? && nodes != [] then Next(old(cursor), wrap) else old(cursor)
      ensures strategy.RoundRobin? && nodes != [] && old(cursor) < wrap ==> cursor == (old(cursor) + 1) % wrap
    {
      if strategy.Priority? {
        return StableSort(Rank(nodes), |nodes|);
      }
      order := [];
      if nodes != [] {
        order := Rotation(|nodes|, cursor % |nodes|);
        cursor := if cursor + 1 < wrap then cursor + 1 else 0;
      }
    }

    method MarkNode(i: nat, verdict: Verdict, now: nat)
      modifies this`nodes
      ensures nodes == ApplyMark(old(nodes), Mark(i, verdict, now))
      ensures i >= |old(nodes)| ==> nodes == old(nodes)
      ensures i < |old(nodes)| ==>
                var x := old(nodes)[i];
                match verdict
                case Success(_) =>
                  nodes == old(nodes)[i := Node(true, 0, Some(now), None, Some(now), x.url)]
                case Undecodable => nodes == old(nodes)
                case Retry(error) =>
                  nodes == old(nodes)[i := Node(false, x.failures + 1, Some(now), Some(error), x.lastSuccess, x.url)]
                case Final(error) =>
                  nodes == old(nodes)[i := Node(x.active, x.failures, Some(now), Some(error), x.lastSuccess, x.url)]
    {
      if i < |nodes| {
        var node := nodes[i];
        match verdict {
          case Success(_) =>
            node := node.(failures := 0, lastChecked := Some(now), lastError := None);
            node := node.(lastSuccess := node.lastChecked, active := true);
          case Undecodable =>
          case Retry(error) =>
            node := node.(failures := node.failures + 1, active := false);
            node := node.(lastChecked := Some(now), lastError := Some(error));
          case Final(error) =>
            node := node.(lastChecked := Some(now), lastError := Some(error));
        }
        nodes := nodes[i := node];
      }
    }

    /** One attempt: the answer of the next node is judged and its status marked. */
    method Attempt(order: seq<nat>, attempt: nat, answers: nat -> Answer, times: nat -> nat,
                   ghost before: seq<Node>, ghost marks: seq<Mark>)
      returns (verdict: Verdict, url: string, ghost more: seq<Mark>)
      requires attempt == |marks| < |order| && order[attempt] < |before|
      requires MarksOf(marks, order, answers, times) && nodes == ApplyMarks(before, marks)
      modifies this`nodes
      ensures more == marks + [Mark(order[attempt], verdict, times(attempt))]
      ensures url == before[order[attempt]].url
      ensures MarksOf(more, order, answers, times) && nodes == ApplyMarks(before, more)
    {
      var node, now := order[attempt], times(attempt);
      MarksKeepUrls(before, marks);
      url := nodes[node].url;
      verdict := Judge(answers(attempt));
      more := marks + [Mark(node, verdict, now)];
      MarksNext(before, marks, Mark(node, verdict, now));
      MarkNode(node, verdict, now);
    }

    /**
     `submit_transaction`: the `i`-th attempt is answered by `answers(i)` and marked at `times(i)`.
     Every attempt before the last one met a node that was down, and the last answer decides the result.
     */
    method Submit(answers: nat -> Answer, times: nat -> nat)
      returns (result: Result<Submission, Failure>, ghost marks: seq<Mark>)
      modifies this
      ensures MarksOf(marks, Order(strategy, old(nodes), old(cursor)), answers, times)
      ensures nodes == ApplyMarks(old(nodes), marks)
      ensures Answered(result, |marks|, Order(strategy, old(nodes), old(cursor)), answers, old(nodes))
      ensures Statuses(old(nodes), nodes, |marks|, Order(strategy, old(nodes), old(cursor)), answers, times)
      ensures !(strategy.RoundRobin? && nodes != []) ==> cursor == old(cursor)
      ensures strategy.RoundRobin? && nodes != [] && old(cursor) < wrap ==> cursor == (old(cursor) + 1) % wrap
    {
      var order := NodeOrder();
      OrderIsPermutation(strategy, nodes, old(cursor));
      assert forall i :: 0 <= i < |order| ==> order[i] in order;
      result, marks := TryNodes(order, answers, times);
      MarksAnswered(result, marks, order, answers, times, old(nodes));
      MarksApart(marks, order, answers, times, |old(nodes)|);
      MarksStatuses(marks, order, answers, times, old(nodes));
    }

    /** The failover loop. */
    method TryNodes(order: seq<nat>, answers: nat -> Answer, times: nat -> nat)
      returns (result: Result<Submission, Failure>, ghost marks: seq<Mark>)
      requires |order| == |nodes| && forall i :: 0 <= i < |order| ==> order[i] < |nodes|
      modifies this`nodes
      ensures MarksOf(marks, order, answers, times)
      ensures nodes == ApplyMarks(old(nodes), marks)
      ensures Concludes(result, marks, old(nodes))
    {
      result := Err(Exhausted(None));
      marks := [];
      var attempt := 0;
      while attempt < |order|
        invariant attempt == |marks| <= |order|
        invariant MarksOf(marks, order, answers, times) && nodes == ApplyMarks(old(nodes), marks)
        invariant AllRetry(marks)
        invariant result.Err? && result.error.Exhausted?
        invariant attempt == |order| ==> Concludes(result, marks, old(nodes))
      {
        var verdict, url;
        ghost var before := marks;
        verdict, url, marks := Attempt(order, attempt, answers, times, old(nodes), marks);
        if !verdict.Retry? || attempt + 1 == |order| {
          ConcludesAt(before, Mark(order[attempt], verdict, times(attempt)), old(nodes));
        }
        attempt := attempt + 1;
        match verdict {
          case Success(hash) => return Ok(Submission(attempt, hash, url)), marks;
          case Undecodable => return Err(BadResponse), marks;
          case Retry(error) => result := Err(Exhausted(Some(error)));
          case Final(error) => return Err(Rejected(error)), marks;
        }
      }
    }
  }

  // --------------------------------------------------------------------- runs

  /** One attempt of some submission. */
  datatype Attempt = Attempt(node: nat, answer: Answer, now: nat)

  function AsMarks(attempts: seq<Attempt>): seq<Mark> {
    seq(|attempts|, i requires 0 <= i < |attempts| =>
      Mark(attempts[i].node, Judge(attempts[i].answer), attempts[i].now))
  }

  /** How often a node was down since it last took a transaction. */
  function Streak(attempts: seq<Attempt>, node: nat): nat {
    if attempts == [] then 0
    else
      var last := attempts[|attempts| - 1];
      var before := Streak(attempts[..|attempts| - 1], node);
      if last.node != node then before
      else if Accepts(last.answer) then 0
      else if Down(last.answer) then before + 1
      else before
  }

  /** The node was down at the `i`-th attempt and has taken no transaction since. */
  ghost predicate DownSince(attempts: seq<Attempt>, node: nat, i: nat) {
    && i < |attempts| && attempts[i].node == node && Down(attempts[i].answer)
    && forall j :: i < j < |attempts| ==> !(attempts[j].node == node && Accepts(attempts[j].answer))
  }

  lemma {:induction false} StreakIsDown(attempts: seq<Attempt>, node: nat)
    ensures Streak(attempts, node) > 0 <==> exists i :: DownSince(attempts, node, i)
  {
    if attempts == [] {
    } else {
      var before, n := attempts[..|attempts| - 1], |attempts| - 1;
      StreakIsDown(before, node);
      if i: nat :| DownSince(before, node, i) {
        if !(attempts[n].node == node && Accepts(attempts[n].answer)) { assert DownSince(attempts, node, i); }
      }
      if attempts[n].node == node && Down(attempts[n].answer) { assert DownSince(attempts, node, n); }
      if i: nat :| DownSince(attempts, node, i) {
        if i < n { assert DownSince(before, node, i); }
      }
    }
  }

  lemma {:induction false} FailuresAre(urls: seq<string>, attempts: seq<Attempt>, i: nat)
    requires i < |urls|
    ensures var node := ApplyMarks(Fresh(urls), AsMarks(attempts))[i];
            node.failures == Streak(attempts, i) && node.url == urls[i] && (!node.active <==> node.failures > 0)
  {
    if attempts == [] {
    } else {
      var before, last := attempts[..|attempts| - 1], attempts[|attempts| - 1];
      FailuresAre(urls, before, i);
      assert AsMarks(attempts)[..|attempts| - 1] == AsMarks(before);
      StatusMarked(ApplyMarks(Fresh(urls), AsMarks(before))[i], last.answer, last.now);
    }
  }

  /**
   Whatever submissions run at once, a node is inactive exactly while it was down and has taken no
   transaction since, and its counter is the number of times it was down since.
   */
  lemma InactiveExactly(urls: seq<string>, attempts: seq<Attempt>, i: nat)
    requires i < |urls|
    ensures var node := ApplyMarks(Fresh(urls), AsMarks(attempts))[i];
            && node.failures == Streak(attempts, i) && node.url == urls[i]
            && (!node.active <==> exists k :: DownSince(attempts, i, k))
  {
    FailuresAre(urls, attempts, i);
    StreakIsDown(attempts, i);
  }

  /** Each node comes first once in any `n` consecutive submissions, unless the cursor's range is cut. */
  lemma EachNodeFirst(nodes: seq<Node>, cursor: nat, wrap: nat)
    requires 0 < |nodes| <= wrap && cursor < wrap
    ensures (forall i :: 0 <= i < |nodes| ==>
              |Order(RoundRobin, nodes, CursorAfter(cursor, i, wrap))| > 0 &&
              Order(RoundRobin, nodes, CursorAfter(cursor, i, wrap))[0] == First(cursor, i, |nodes|, wrap))
    ensures Fair(cursor, |nodes|, wrap) <==> cursor + |nodes| <= wrap || wrap % |nodes| == 0
  {
    FairExactly(cursor, |nodes|, wrap);
  }
}
