/**
 The gate in front of signing: the blocklist check, the request tracker and the blocklist entry,
 from `paymaster-server/src/lib.rs`, `heuristics.rs` and `blocklist.rs`. Times are in seconds.
 */
module AbuseGate {
  import opened Prelude
  import opened Timestamps

  const TRACKED_SECONDS: nat := 10
  const BLOCK_SECONDS: nat := 3600

  datatype BlockEntry = BlockEntry(reason: string, expiry: Option<nat>, createdAt: nat)

  datatype State = State(tracked: map<string, seq<nat>>, entries: map<string, BlockEntry>)

  /** One signing call and the three clock readings it makes. */
  datatype Call = Call(key: string, checkedAt: nat, trackedAt: nat, addedAt: nat)

  datatype Verdict = Blocked | Flagged | Passed

  datatype Step = Step(state: State, verdict: Verdict)

  function Tracked(s: State, key: string): seq<nat> {
    if key in s.tracked then s.tracked[key] else []
  }

  /** Spam, or a burst measured from the oldest call still tracked. */
  predicate Suspicious(timestamps: seq<nat>) {
    |timestamps| > 5 || (|timestamps| >= 3 && timestamps[|timestamps| - 1] as int - timestamps[0] as int < 3)
  }

  function Record(timestamps: seq<nat>, now: nat): seq<nat> {
    Retain(timestamps, now, TRACKED_SECONDS) + [now]
  }

  predicate IsBlocked(entries: map<string, BlockEntry>, address: string, now: nat) {
    address in entries && (entries[address].expiry.None? || now < entries[address].expiry.value)
  }

  /** The whole gate; `norm` resolves a muxed address to the address it shares a key with. */
  function Pass(norm: string -> string, s: State, c: Call): Step {
    if IsBlocked(s.entries, norm(c.key), c.checkedAt) then Step(s, Blocked)
    else
      var timestamps := Record(Tracked(s, c.key), c.trackedAt);
      var s' := s.(tracked := s.tracked[c.key := timestamps]);
      if Suspicious(timestamps) then
        var entry := BlockEntry("Suspicious activity detected", Some(c.addedAt + BLOCK_SECONDS), c.addedAt);
        Step(s'.(entries := s.entries[norm(c.key) := entry]), Flagged)
      else Step(s', Passed)
  }

  class Gate {
    var tracked: map<string, seq<nat>>
    var entries: map<string, BlockEntry>
    const norm: string -> string

    constructor (norm: string -> string)
      ensures tracked == map[] && entries == map[] && this.norm == norm
    {
      tracked, entries := map[], map[];
      this.norm := norm;
    }

    /** `RequestTracker::is_suspicious`. */
    method TrackerIsSuspicious(key: string, now: nat) returns (suspicious: bool)
      modifies this`tracked
      ensures var timestamps := Record(Tracked(State(old(tracked), entries), key), now);
              tracked == old(tracked)[key := timestamps] && suspicious == Suspicious(timestamps)
      ensures tracked[key] == Retain(if key in old(tracked) then old(tracked)[key] else [], now, 10) + [now]
      ensures var t := tracked[key];
              suspicious <==> |t| > 5 || (|t| >= 3 && t[|t| - 1] as int - t[0] as int < 3)
    {
      var timestamps := if key in tracked then tracked[key] else [];
      timestamps := Retain(timestamps, now, 10);
      timestamps := timestamps + [now];
      tracked := tracked[key := timestamps];
      if |timestamps| > 5 {
        return true;
      }
      if |timestamps| >= 3 && timestamps[|timestamps| - 1] as int - timestamps[0] as int < 3 {
        return true;
      }
      return false;
    }

    method BlocklistAdd(key: string, reason: string, now: nat)
      modifies this`entries
      ensures entries == old(entries)[norm(key) := BlockEntry(reason, Some(now + 3600), now)]
    {
      entries := entries[norm(key) := BlockEntry(reason, Some(now + 3600), now)];
    }

    method Admit(c: Call) returns (verdict: Verdict)
      modifies this
      ensures Step(State(tracked, entries), verdict) == Pass(norm, State(old(tracked), old(entries)), c)
    {
      if IsBlocked(entries, norm(c.key), c.checkedAt) {
        return Blocked;
      }
      var suspicious := TrackerIsSuspicious(c.key, c.trackedAt);
      if suspicious {
        BlocklistAdd(c.key, "Suspicious activity detected", c.addedAt);
        return Flagged;
      }
      return Passed;
    }
  }

  // ------------------------------------------------------------------- runs

  ghost predicate Ordered(c: Call) {
    c.checkedAt <= c.trackedAt <= c.addedAt
  }

  /** Calls one after the other on a clock that never goes back. */
  ghost predicate Serial(run: seq<Call>) {
    && (forall i :: 0 <= i < |run| ==> Ordered(run[i]))
    && (forall i, j :: 0 <= i < j < |run| ==> run[i].addedAt <= run[j].checkedAt)
  }

  function After(norm: string -> string, run: seq<Call>): State {
    if run == [] then State(map[], map[]) else Pass(norm, After(norm, run[..|run| - 1]), run[|run| - 1]).state
  }

  /** How the gate answers a call that comes after `run`. */
  function Answer(norm: string -> string, run: seq<Call>, c: Call): Verdict {
    Pass(norm, After(norm, run), c).verdict
  }

  /** How the gate answered the call at position `i`. */
  function AnswerAt(norm: string -> string, run: seq<Call>, i: nat): Verdict
    requires i < |run|
  {
    Answer(norm, run[..i], run[i])
  }

  // ------------------------------------------------------- blocked, and why

  /** When the last call that was flagged for `address` was added to the blocklist. */
  function LastFlag(norm: string -> string, run: seq<Call>, address: string): Option<nat> {
    if run == [] then None
    else
      var init, last := run[..|run| - 1], run[|run| - 1];
      if norm(last.key) == address && Answer(norm, init, last) == Flagged then Some(last.addedAt)
      else LastFlag(norm, init, address)
  }

  lemma {:induction false} EntriesAreFlags(norm: string -> string, run: seq<Call>, address: string)
    ensures var entries, flag := After(norm, run).entries, LastFlag(norm, run, address);
            if flag.None? then address !in entries
            else address in entries && entries[address].expiry == Some(flag.value + BLOCK_SECONDS)
    decreases |run|
  {
    if run == [] {
    } else {
      EntriesAreFlags(norm, run[..|run| - 1], address);
    }
  }

  /** A call at position `i` was flagged for the address of `c` less than an hour before `c`. */
  ghost predicate FlaggedWithinHour(norm: string -> string, run: seq<Call>, c: Call, i: nat)
    requires i < |run|
  {
    && norm(run[i].key) == norm(c.key) && AnswerAt(norm, run, i) == Flagged
    && c.checkedAt < run[i].addedAt + 3600
  }

  lemma {:induction false} LastFlagIsLatest(norm: string -> string, run: seq<Call>, address: string, i: nat)
    requires Serial(run) && i < |run| && norm(run[i].key) == address && AnswerAt(norm, run, i) == Flagged
    ensures LastFlag(norm, run, address).Some? && LastFlag(norm, run, address).value >= run[i].addedAt
    decreases |run|
  {
    var init, last := run[..|run| - 1], run[|run| - 1];
    if i < |run| - 1 {
      assert init[..i] == run[..i];
      LastFlagIsLatest(norm, init, address, i);
    }
  }

  lemma {:induction false} LastFlagSource(norm: string -> string, run: seq<Call>, address: string) returns (i: nat)
    requires LastFlag(norm, run, address).Some?
    ensures i < |run| && norm(run[i].key) == address && AnswerAt(norm, run, i) == Flagged
    ensures run[i].addedAt == LastFlag(norm, run, address).value
    decreases |run|
  {
    var init, last := run[..|run| - 1], run[|run| - 1];
    if norm(last.key) == address && Answer(norm, init, last) == Flagged {
      i := |run| - 1;
    } else {
      i := LastFlagSource(norm, init, address);
      assert init[..i] == run[..i];
    }
  }

  /** In every serial run, a call is refused as blocked exactly when its address was flagged within the hour. */
  lemma BlockedExactly(norm: string -> string, run: seq<Call>, c: Call)
    requires Serial(run)
    ensures Answer(norm, run, c) == Blocked <==> exists i :: 0 <= i < |run| && FlaggedWithinHour(norm, run, c, i)
  {
    EntriesAreFlags(norm, run, norm(c.key));
    if Answer(norm, run, c) == Blocked {
      var i := LastFlagSource(norm, run, norm(c.key));
      assert FlaggedWithinHour(norm, run, c, i);
    }
    if i :| 0 <= i < |run| && FlaggedWithinHour(norm, run, c, i) {
      LastFlagIsLatest(norm, run, norm(c.key), i);
    }
  }

  // ------------------------------------------------------- after the hour

  lemma {:induction false} TrackedAtMost(norm: string -> string, run: seq<Call>, key: string, t: nat)
    requires Serial(run) && forall i :: 0 <= i < |run| ==> run[i].trackedAt <= t
    ensures AtMost(Tracked(After(norm, run), key), t)
    decreases |run|
  {
    if run == [] {
    } else {
      var init, last := run[..|run| - 1], run[|run| - 1];
      TrackedAtMost(norm, init, key, t);
      RetainAtMost(Tracked(After(norm, init), last.key), last.trackedAt, TRACKED_SECONDS, t);
      TrackedAtMost(norm, init, last.key, t);
    }
  }

  lemma {:induction false} RetainAtMost(s: seq<nat>, now: nat, w: nat, t: nat)
    ensures AtMost(s, t) ==> AtMost(Retain(s, now, w), t)
  {
    if s != [] && AtMost(s, t) { RetainAtMost(s[..|s| - 1], now, w, t); }
  }

  lemma {:induction false} RetainStale(s: seq<nat>, now: nat, w: nat)
    requires AtMost(s, now - w)
    ensures Retain(s, now, w) == []
  {
    if s == [] {
    } else {
      RetainStale(s[..|s| - 1], now, w);
    }
  }

  /** Calls of an address that are all refused leave what is tracked for its keys alone. */
  lemma {:induction false} RefusedLeaveTracked(norm: string -> string, run: seq<Call>, key: string, from: nat)
    requires from <= |run|
    requires forall j :: from <= j < |run| && norm(run[j].key) == norm(key) ==> AnswerAt(norm, run, j) == Blocked
    ensures Tracked(After(norm, run), key) == Tracked(After(norm, run[..from]), key)
    decreases |run|
  {
    if from < |run| {
      var init, last := run[..|run| - 1], run[|run| - 1];
      assert forall j :: from <= j < |init| ==> init[..j] == run[..j] && init[j] == run[j];
      assert AnswerAt(norm, run, |run| - 1) == Answer(norm, init, last);
      RefusedLeaveTracked(norm, init, key, from);
      assert init[..from] == run[..from];
    } else {
      assert run[..from] == run;
    }
  }

  lemma NotFlaggedWithinHour(norm: string -> string, run: seq<Call>, i: nat, c: Call)
    requires Serial(run) && i < |run|
    requires forall j :: i < j < |run| && norm(run[j].key) == norm(c.key) ==> AnswerAt(norm, run, j) == Blocked
    requires c.checkedAt >= run[i].addedAt + 3600
    ensures forall k :: 0 <= k < |run| ==> !FlaggedWithinHour(norm, run, c, k)
  {
  }

  /**
   The first call let through to the tracker once the hour is over always passes: everything
   tracked for its key is then stale.
   */
  lemma FirstCallAfterExpiryPasses(norm: string -> string, run: seq<Call>, i: nat, c: Call)
    requires Serial(run) && Ordered(c) && i < |run|
    requires norm(run[i].key) == norm(c.key) && AnswerAt(norm, run, i) == Flagged
    requires forall j :: i < j < |run| && norm(run[j].key) == norm(c.key) ==> AnswerAt(norm, run, j) == Blocked
    requires c.checkedAt >= run[i].addedAt + 3600
    ensures Answer(norm, run, c) == Passed
  {
    var upto := run[..i + 1];
    RefusedLeaveTracked(norm, run, c.key, i + 1);
    assert Serial(upto) && forall k :: 0 <= k < |upto| ==> upto[k].trackedAt <= run[i].addedAt by {
      assert forall k :: 0 <= k < |upto| ==> upto[k] == run[k];
    }
    TrackedAtMost(norm, upto, c.key, run[i].addedAt);
    RetainStale(Tracked(After(norm, run), c.key), c.trackedAt, TRACKED_SECONDS);
    NotFlaggedWithinHour(norm, run, i, c);
    BlockedExactly(norm, run, c);
  }

  // -------------------------------------------------------- five in ten seconds

  /** The times at which calls with exactly this key passed. */
  function PassTimes(norm: string -> string, run: seq<Call>, key: string): seq<nat> {
    if run == [] then []
    else
      var init, last := run[..|run| - 1], run[|run| - 1];
      PassTimes(norm, init, key) +
      if last.key == key && Answer(norm, init, last) == Passed then [last.trackedAt] else []
  }

  /** Every pass still inside the window is also still tracked. */
  ghost predicate Covered(passes: seq<nat>, tracked: seq<nat>, from: nat) {
    forall t: nat :: t >= from ==> |Retain(passes, t, TRACKED_SECONDS)| <= |Retain(tracked, t, TRACKED_SECONDS)|
  }

  lemma RecordCovers(passes: seq<nat>, tracked: seq<nat>, from: nat, now: nat)
    requires Covered(passes, tracked, from) && from <= now
    ensures Covered(passes, Record(tracked, now), now)
    ensures Covered(passes + [now], Record(tracked, now), now)
  {
    forall t: nat | t >= now
      ensures |Retain(passes, t, TRACKED_SECONDS)| <= |Retain(Record(tracked, now), t, TRACKED_SECONDS)|
      ensures |Retain(passes + [now], t, TRACKED_SECONDS)| <= |Retain(Record(tracked, now), t, TRACKED_SECONDS)|
    {
      RetainSnoc(Retain(tracked, now, TRACKED_SECONDS), now, t, TRACKED_SECONDS);
      RetainSnoc(passes, now, t, TRACKED_SECONDS);
      RetainTwice(tracked, now, t, TRACKED_SECONDS);
    }
  }

  lemma PassSpaced(passes: seq<nat>, tracked: seq<nat>, from: nat, now: nat)
    requires Spaced(passes, 5, TRACKED_SECONDS) && AtMost(passes, now)
    requires Covered(passes, tracked, from) && from <= now && !Suspicious(Record(tracked, now))
    ensures Spaced(passes + [now], 5, TRACKED_SECONDS)
  {
    assert |Retain(passes, now, TRACKED_SECONDS)| <= |Retain(tracked, now, TRACKED_SECONDS)| < 5;
    SpacedSnoc(passes, 5, TRACKED_SECONDS, now);
  }

  /** What a run leaves for one key. */
  ghost predicate Kept(passes: seq<nat>, tracked: seq<nat>, from: nat) {
    Spaced(passes, 5, TRACKED_SECONDS) && AtMost(passes, from) && Covered(passes, tracked, from)
  }

  lemma KeptNext(passes: seq<nat>, tracked: seq<nat>, from: nat, now: nat, from': nat)
    requires Kept(passes, tracked, from) && from <= now <= from'
    ensures Kept(passes, tracked, from') && Kept(passes, Record(tracked, now), from')
    ensures !Suspicious(Record(tracked, now)) ==> Kept(passes + [now], Record(tracked, now), from')
  {
    RecordCovers(passes, tracked, from, now);
    if !Suspicious(Record(tracked, now)) {
      PassSpaced(passes, tracked, from, now);
    }
  }

  lemma NothingKept(from: nat)
    ensures Kept([], [], from)
  {
  }

  /** One more call of any key. */
  lemma KeptCall(norm: string -> string, s: State, c: Call, passes: seq<nat>, key: string, from: nat)
    requires Kept(passes, Tracked(s, key), c.checkedAt) && Ordered(c) && c.addedAt <= from
    ensures var step := Pass(norm, s, c);
            Kept(passes + if c.key == key && step.verdict == Passed then [c.trackedAt] else [],
                 Tracked(step.state, key), from)
  {
    assert passes + [] == passes;
    KeptNext(passes, Tracked(s, key), c.checkedAt, c.trackedAt, from);
  }

  lemma {:induction false} PassesKept(norm: string -> string, run: seq<Call>, key: string, from: nat)
    requires Serial(run) && forall i :: 0 <= i < |run| ==> run[i].addedAt <= from
    ensures Kept(PassTimes(norm, run, key), Tracked(After(norm, run), key), from)
    decreases |run|
  {
    if run == [] {
      NothingKept(from);
    } else {
      var init, last := run[..|run| - 1], run[|run| - 1];
      PassesKept(norm, init, key, last.checkedAt);
      KeptCall(norm, After(norm, init), last, PassTimes(norm, init, key), key, from);
    }
  }

  /** In every serial run, any half-open ten seconds hold at most five passing calls of a key. */
  lemma AtMostFivePass(norm: string -> string, run: seq<Call>, key: string, lo: int)
    requires Serial(run)
    ensures CountIn(PassTimes(norm, run, key), lo, lo + 10) <= 5
  {
    PassesKept(norm, run, key, if run == [] then 0 else run[|run| - 1].addedAt);
    SpacedBound(PassTimes(norm, run, key), 5, TRACKED_SECONDS, lo);
  }

  // ------------------------------------------------------------ the burst rule

  ghost predicate InOrder(s: seq<nat>) {
    forall i, j :: 0 <= i < j < |s| ==> s[i] <= s[j]
  }

  lemma InOrderSnoc(s: seq<nat>, x: nat)
    requires InOrder(s) && AtMost(s, x)
    ensures InOrder(s + [x]) && AtMost(s + [x], x)
  {
  }

  /** What is retained is in order, recent, and taken from what was there. */
  lemma {:induction false} RetainInOrder(s: seq<nat>, now: nat, w: nat)
    requires InOrder(s) && AtMost(s, now)
    ensures InOrder(Retain(s, now, w)) && AtMost(Retain(s, now, w), if s == [] then 0 else s[|s| - 1])
    ensures forall t :: t in Retain(s, now, w) ==> t <= now && now - t < w
  {
    if s == [] {
    } else {
      var init, last := s[..|s| - 1], s[|s| - 1];
      RetainInOrder(init, now, w);
      assert AtMost(Retain(init, now, w), last);
      if now - last < w { InOrderSnoc(Retain(init, now, w), last); }
    }
  }

  lemma RecordInOrder(s: seq<nat>, now: nat)
    requires InOrder(s) && AtMost(s, now)
    ensures InOrder(Record(s, now)) && AtMost(Record(s, now), now)
    ensures forall t :: t in Record(s, now) ==> t <= now && now - t < TRACKED_SECONDS
  {
    RetainInOrder(s, now, TRACKED_SECONDS);
    InOrderSnoc(Retain(s, now, TRACKED_SECONDS), now);
  }

  lemma {:induction false} TrackedInOrder(norm: string -> string, run: seq<Call>, key: string)
    requires Serial(run)
    ensures InOrder(Tracked(After(norm, run), key))
    decreases |run|
  {
    if run == [] {
    } else {
      var init, last := run[..|run| - 1], run[|run| - 1];
      TrackedInOrder(norm, init, key);
      TrackedInOrder(norm, init, last.key);
      TrackedAtMost(norm, init, last.key, last.trackedAt);
      RecordInOrder(Tracked(After(norm, init), last.key), last.trackedAt);
    }
  }

  // -------------------------------------------------- flagged, by the history

  /** A call at `now`, the last of `times`: over five in ten seconds, or three in three seconds and none before. */
  predicate Burst(times: seq<nat>, now: nat) {
    || CountIn(times, now - 9, now + 1) > 5
    || (CountIn(times, now - 2, now + 1) >= 3 && CountIn(times, now - 9, now - 2) == 0)
  }

  /** What is tracked stands for the whole history from `from` on. */
  ghost predicate SameRecent(tracked: seq<nat>, times: seq<nat>, from: nat) {
    forall t: nat :: t >= from ==> Retain(tracked, t, TRACKED_SECONDS) == Retain(times, t, TRACKED_SECONDS)
  }

  lemma RecordSame(tracked: seq<nat>, times: seq<nat>, from: nat, now: nat)
    requires SameRecent(tracked, times, from) && from <= now
    ensures SameRecent(Record(tracked, now), times + [now], now)
  {
    forall t: nat | t >= now
      ensures Retain(Record(tracked, now), t, TRACKED_SECONDS) == Retain(times + [now], t, TRACKED_SECONDS)
    {
      RetainSnoc(Retain(tracked, now, TRACKED_SECONDS), now, t, TRACKED_SECONDS);
      RetainSnoc(times, now, t, TRACKED_SECONDS);
      RetainTwice(tracked, now, t, TRACKED_SECONDS);
    }
  }

  lemma {:induction false} RetainKeepsCount(s: seq<nat>, now: nat, lo: int, hi: int)
    requires lo >= now - 9
    ensures CountIn(Retain(s, now, 10), lo, hi) == CountIn(s, lo, hi)
  {
    if s == [] {
    } else {
      var init, last := s[..|s| - 1], s[|s| - 1];
      RetainKeepsCount(init, now, lo, hi);
      if now - last < 10 {
        CountInSnoc(Retain(init, now, 10), last, lo, hi);
      } else {
        assert Retain(s, now, 10) == Retain(init, now, 10);
      }
    }
  }

  /** All of the timestamps lie in the interval, or none does. */
  lemma {:induction false} CountAll(s: seq<nat>, lo: int, hi: int)
    ensures (forall i :: 0 <= i < |s| ==> lo <= s[i] < hi) ==> CountIn(s, lo, hi) == |s|
    ensures (forall i :: 0 <= i < |s| ==> !(lo <= s[i] < hi)) ==> CountIn(s, lo, hi) == 0
  {
    if s == [] {
    } else {
      CountAll(s[..|s| - 1], lo, hi);
    }
  }

  lemma {:induction false} CountSome(s: seq<nat>, i: nat, lo: int, hi: int)
    requires i < |s| && lo <= s[i] < hi
    ensures CountIn(s, lo, hi) >= 1
  {
    if i < |s| - 1 { CountSome(s[..|s| - 1], i, lo, hi); }
  }

  /** The two rules, for recorded times in order and not yet ten seconds old. */
  lemma SuspiciousCounts(s: seq<nat>, now: nat)
    requires InOrder(s) && s != [] && s[|s| - 1] == now
    requires forall i :: 0 <= i < |s| ==> now - 10 < s[i] <= now
    ensures Suspicious(s) <==> Burst(s, now)
  {
    CountAll(s, now - 9, now + 1);
    if now as int - s[0] as int < 3 {
      CountAll(s, now - 2, now + 1);
      CountAll(s, now - 9, now - 2);
    } else {
      CountSome(s, 0, now - 9, now - 2);
    }
  }

  lemma RecordSuspicious(tracked: seq<nat>, times: seq<nat>, from: nat, now: nat)
    requires SameRecent(tracked, times, from) && from <= now && InOrder(tracked) && AtMost(tracked, now)
    ensures Suspicious(Record(tracked, now)) <==> Burst(times + [now], now)
  {
    RecordInOrder(tracked, now);
    var s := Record(tracked, now);
    assert forall i :: 0 <= i < |s| ==> s[i] in s;
    SuspiciousCounts(s, now);
    RecordCount(tracked, times, from, now, now - 9, now + 1);
    RecordCount(tracked, times, from, now, now - 2, now + 1);
    RecordCount(tracked, times, from, now, now - 9, now - 2);
  }

  lemma RecordCount(tracked: seq<nat>, times: seq<nat>, from: nat, now: nat, lo: int, hi: int)
    requires SameRecent(tracked, times, from) && from <= now && lo >= now - 9
    ensures CountIn(Record(tracked, now), lo, hi) == CountIn(times + [now], lo, hi)
  {
    RetainKeepsCount(times, now, lo, hi);
    CountInSnoc(Retain(tracked, now, 10), now, lo, hi);
    CountInSnoc(times, now, lo, hi);
  }

  /** The times of the calls with exactly this key that were not refused as blocked. */
  function Reached(norm: string -> string, run: seq<Call>, key: string): seq<nat> {
    if run == [] then []
    else
      var init, last := run[..|run| - 1], run[|run| - 1];
      if last.key == key && Answer(norm, init, last) != Blocked then Reached(norm, init, key) + [last.trackedAt]
      else Reached(norm, init, key)
  }

  /** What one more call of any key leaves tracked. */
  lemma TrackedNext(norm: string -> string, s: State, c: Call, key: string)
    ensures var step := Pass(norm, s, c);
            Tracked(step.state, key) ==
            if c.key == key && step.verdict != Blocked then Record(Tracked(s, key), c.trackedAt) else Tracked(s, key)
  {
  }

  lemma SameLater(tracked: seq<nat>, times: seq<nat>, from: nat, from': nat)
    requires SameRecent(tracked, times, from) && from <= from'
    ensures SameRecent(tracked, times, from')
  {
  }

  lemma ReachedNext(norm: string -> string, run: seq<Call>, c: Call, key: string)
    ensures Reached(norm, run + [c], key) ==
            if c.key == key && Pass(norm, After(norm, run), c).verdict != Blocked
            then Reached(norm, run, key) + [c.trackedAt] else Reached(norm, run, key)
  {
    assert (run + [c])[..|run|] == run;
  }

  lemma {:induction false} TrackedIsReached(norm: string -> string, run: seq<Call>, key: string, from: nat)
    requires Serial(run) && forall i :: 0 <= i < |run| ==> run[i].trackedAt <= from
    ensures SameRecent(Tracked(After(norm, run), key), Reached(norm, run, key), from)
    decreases |run|
  {
    if run == [] {
      assert Tracked(After(norm, run), key) == [] == Reached(norm, run, key);
    } else {
      var init, last := run[..|run| - 1], run[|run| - 1];
      assert run == init + [last];
      TrackedIsReached(norm, init, key, last.trackedAt);
      ReachedNext(norm, init, last, key);
      AfterNext(norm, init, last);
      TrackedNext(norm, After(norm, init), last, key);
      RecordSame(Tracked(After(norm, init), key), Reached(norm, init, key), last.trackedAt, last.trackedAt);
      SameLater(Tracked(After(norm, run), key), Reached(norm, run, key), last.trackedAt, from);
    }
  }

  /**
   In every serial run, a call that is not blocked is flagged if and only if it is one of more than
   five of its key in ten seconds, or one of three in three seconds with none between three and ten
   seconds old: an older call that is still tracked hides a burst.
   */
  lemma FlaggedExactly(norm: string -> string, run: seq<Call>, c: Call)
    requires Serial(run + [c]) && Answer(norm, run, c) != Blocked
    ensures Answer(norm, run, c) == Flagged <==> Burst(Reached(norm, run, c.key) + [c.trackedAt], c.trackedAt)
  {
    SerialPrefix(run, c);
    TrackedInOrder(norm, run, c.key);
    TrackedAtMost(norm, run, c.key, c.trackedAt);
    TrackedIsReached(norm, run, c.key, c.trackedAt);
    RecordSuspicious(Tracked(After(norm, run), c.key), Reached(norm, run, c.key), c.trackedAt, c.trackedAt);
  }

  lemma SerialPrefix(run: seq<Call>, c: Call)
    requires Serial(run + [c])
    ensures Serial(run) && Ordered(c) && forall i :: 0 <= i < |run| ==> run[i].trackedAt <= c.trackedAt
  {
    var all := run + [c];
    assert all[|run|] == c && forall i :: 0 <= i < |run| ==> all[i] == run[i];
  }

  function CallAt(key: string, t: nat): Call {
    Call(key, t, t, t)
  }

  /** Three calls in three seconds, and an older one that is still tracked. */
  function HiddenBurst(key: string): seq<Call> {
    [CallAt(key, 0), CallAt(key, 7), CallAt(key, 8), CallAt(key, 9)]
  }

  function Idle(key: string, timestamps: seq<nat>): State {
    State(map[key := timestamps], map[])
  }

  lemma PassesQuietly(norm: string -> string, key: string, before: State, t: nat, timestamps: seq<nat>)
    requires before.entries == map[] && before.tracked.Keys <= {key}
    requires Record(Tracked(before, key), t) == timestamps && !Suspicious(timestamps)
    ensures Pass(norm, before, CallAt(key, t)) == Step(Idle(key, timestamps), Passed)
  {
  }

  lemma AfterNext(norm: string -> string, run: seq<Call>, c: Call)
    ensures After(norm, run + [c]) == Pass(norm, After(norm, run), c).state
  {
    assert (run + [c])[..|run|] == run;
  }

  lemma HiddenRecords()
    ensures Record([], 0) == [0] && Record([0], 7) == [0, 7] && Record([0, 7], 8) == [0, 7, 8]
    ensures Record([0, 7, 8], 9) == [0, 7, 8, 9] && Record([7, 8], 9) == [7, 8, 9]
  {
    RetainTo([0], 7);
    RetainTo([0, 7], 8);
    RetainTo([0, 7, 8], 9);
    RetainTo([7, 8], 9);
  }

  lemma {:induction false} RetainTo(s: seq<nat>, now: nat)
    requires forall i :: 0 <= i < |s| ==> now - TRACKED_SECONDS < s[i]
    ensures Retain(s, now, TRACKED_SECONDS) == s
  {
    if s == [] {
    } else {
      assert s == s[..|s| - 1] + [s[|s| - 1]];
      RetainTo(s[..|s| - 1], now);
    }
  }

  /** Calls at 0, 7, 8 and 9 seconds all pass; without the first, the last three are a burst. */
  lemma BurstMissed(norm: string -> string, key: string)
    ensures Serial(HiddenBurst(key))
    ensures forall i :: 0 <= i < 4 ==> AnswerAt(norm, HiddenBurst(key), i) == Passed
    ensures Burst([7, 8, 9], 9)
  {
    SuspiciousCounts([7, 8, 9], 9);
    HiddenPass(norm, key);
  }

  lemma HiddenPass(norm: string -> string, key: string)
    ensures forall i :: 0 <= i < 4 ==> AnswerAt(norm, HiddenBurst(key), i) == Passed
  {
    var run := HiddenBurst(key);
    HiddenRecords();
    PassesQuietly(norm, key, State(map[], map[]), 0, [0]);
    PassesQuietly(norm, key, Idle(key, [0]), 7, [0, 7]);
    PassesQuietly(norm, key, Idle(key, [0, 7]), 8, [0, 7, 8]);
    PassesQuietly(norm, key, Idle(key, [0, 7, 8]), 9, [0, 7, 8, 9]);
    assert run[..0] == [] && run[..1] == [] + [run[0]];
    assert run[..2] == run[..1] + [run[1]] && run[..3] == run[..2] + [run[2]];
    AfterNext(norm, [], run[0]);
    AfterNext(norm, run[..1], run[1]);
    AfterNext(norm, run[..2], run[2]);
  }
}
