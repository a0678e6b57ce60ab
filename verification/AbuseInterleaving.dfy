/**
 The signing gate under concurrent calls. Each call takes the blocklist lock, the tracker lock and,
 when it is flagged, the blocklist lock again, and reads the clock under each of them.
 */
module AbuseInterleaving {
  import opened Prelude
  import opened Timestamps
  import AG = AbuseGate

  datatype Phase = Checked | Suspected | Answered(verdict: AG.Verdict)

  datatype Entrant = Entrant(key: string, phase: Phase)

  /** A call that passed, and when. */
  datatype Pass = Pass(key: string, at: nat)

  datatype World = World(clock: nat, gate: AG.State, entrants: seq<Entrant>, passes: seq<Pass>)

  datatype Action =
    | Check(key: string, now: nat)
    | Track(call: nat, now: nat)
    | Add(call: nat, now: nat)

  const INITIAL: World := World(0, AG.State(map[], map[]), [], [])

  function CheckStep(norm: string -> string, w: World, key: string, now: nat): World {
    var phase := if AG.IsBlocked(w.gate.entries, norm(key), now) then Answered(AG.Blocked) else Checked;
    w.(clock := now, entrants := w.entrants + [Entrant(key, phase)])
  }

  function TrackStep(w: World, i: nat, now: nat): World
    requires i < |w.entrants|
  {
    var key := w.entrants[i].key;
    var timestamps := AG.Record(AG.Tracked(w.gate, key), now);
    var gate := w.gate.(tracked := w.gate.tracked[key := timestamps]);
    if AG.Suspicious(timestamps) then
      World(now, gate, w.entrants[i := Entrant(key, Suspected)], w.passes)
    else
      World(now, gate, w.entrants[i := Entrant(key, Answered(AG.Passed))], w.passes + [Pass(key, now)])
  }

  function AddStep(norm: string -> string, w: World, i: nat, now: nat): World
    requires i < |w.entrants|
  {
    var key := w.entrants[i].key;
    var entry := AG.BlockEntry("Suspicious activity detected", Some(now + AG.BLOCK_SECONDS), now);
    World(now, w.gate.(entries := w.gate.entries[norm(key) := entry]),
          w.entrants[i := Entrant(key, Answered(AG.Flagged))], w.passes)
  }

  /** One step; a step that is not due, or would turn the clock back, changes nothing. */
  function Step(norm: string -> string, w: World, a: Action): World {
    if a.now < w.clock then w
    else
      match a
      case Check(key, now) => CheckStep(norm, w, key, now)
      case Track(i, now) => if i < |w.entrants| && w.entrants[i].phase == Checked then TrackStep(w, i, now) else w
      case Add(i, now) => if i < |w.entrants| && w.entrants[i].phase == Suspected then AddStep(norm, w, i, now) else w
  }

  function After(norm: string -> string, run: seq<Action>): World {
    if run == [] then INITIAL else Step(norm, After(norm, run[..|run| - 1]), run[|run| - 1])
  }

  /** A call that nothing interrupts is the three steps in a row. */
  lemma SerialCall(norm: string -> string, w: World, c: AG.Call)
    requires w.clock <= c.checkedAt && AG.Ordered(c)
    ensures var i := |w.entrants|;
            var tracked := Step(norm, Step(norm, w, Check(c.key, c.checkedAt)), Track(i, c.trackedAt));
            var done := Step(norm, tracked, Add(i, c.addedAt));
            && done.gate == AG.Pass(norm, w.gate, c).state && i < |done.entrants|
            && done.entrants[i].phase == Answered(AG.Pass(norm, w.gate, c).verdict)
  {
    var i := |w.entrants|;
    var checked := Step(norm, w, Check(c.key, c.checkedAt));
    assert checked.entrants[i].key == c.key;
    var tracked := Step(norm, checked, Track(i, c.trackedAt));
    assert tracked.entrants[i].key == c.key;
  }

  // ------------------------------------------------------ five in ten seconds

  /** The times at which calls with exactly this key passed. */
  function TimesOf(passes: seq<Pass>, key: string): seq<nat> {
    if passes == [] then []
    else
      var last := passes[|passes| - 1];
      if last.key == key then TimesOf(passes[..|passes| - 1], key) + [last.at] else TimesOf(passes[..|passes| - 1], key)
  }

  lemma TimesNext(passes: seq<Pass>, p: Pass, key: string)
    ensures TimesOf(passes + [p], key) == if p.key == key then TimesOf(passes, key) + [p.at] else TimesOf(passes, key)
  {
    assert (passes + [p])[..|passes|] == passes;
  }

  lemma {:induction false} RunKeeps(norm: string -> string, run: seq<Action>, key: string)
    ensures var w := After(norm, run);
            AG.Kept(TimesOf(w.passes, key), AG.Tracked(w.gate, key), w.clock)
    decreases |run|
  {
    if run == [] {
    } else {
      RunKeeps(norm, run[..|run| - 1], key);
      var w, a := After(norm, run[..|run| - 1]), run[|run| - 1];
      if Step(norm, w, a) != w {
        AG.KeptNext(TimesOf(w.passes, key), AG.Tracked(w.gate, key), w.clock, a.now, a.now);
        if a.Track? { TimesNext(w.passes, Pass(w.entrants[a.call].key, a.now), key); }
      }
    }
  }

  /** However calls overlap, any half-open ten seconds hold at most five passing calls of a key. */
  lemma AtMostFivePass(norm: string -> string, run: seq<Action>, key: string, lo: int)
    ensures CountIn(TimesOf(After(norm, run).passes, key), lo, lo + 10) <= 5
  {
    RunKeeps(norm, run, key);
    SpacedBound(TimesOf(After(norm, run).passes, key), 5, 10, lo);
  }

  // ------------------------------------------------------------- blocked, and why

  /** When an address was last added to the blocklist. */
  function LastAdd(norm: string -> string, run: seq<Action>, address: string): Option<nat> {
    if run == [] then None
    else
      var init, a := run[..|run| - 1], run[|run| - 1];
      var w := After(norm, init);
      if Step(norm, w, a) != w && a.Add? && norm(w.entrants[a.call].key) == address then Some(a.now)
      else LastAdd(norm, init, address)
  }

  /** However calls overlap, the check refuses an address exactly within the hour after it was last added. */
  lemma {:induction false} CheckRefusesExactly(norm: string -> string, run: seq<Action>, address: string, now: nat)
    ensures var added := LastAdd(norm, run, address);
            AG.IsBlocked(After(norm, run).gate.entries, address, now) <==>
            added.Some? && now < added.value + 3600
    decreases |run|
  {
    if run == [] {
    } else {
      CheckRefusesExactly(norm, run[..|run| - 1], address, now);
    }
  }

  /** The action at position `j` adds an address to the blocklist. */
  predicate AddedAt(norm: string -> string, run: seq<Action>, j: nat, address: string) {
    && j < |run| && run[j].Add?
    && var w := After(norm, run[..j]);
       Step(norm, w, run[j]) != w && norm(w.entrants[run[j].call].key) == address
  }

  /** Such an addition, at or after position `from`, blocks the address at `now`. */
  ghost predicate BlocksSince(norm: string -> string, run: seq<Action>, from: nat, address: string, now: nat) {
    exists j :: from <= j < |run| && AddedAt(norm, run, j, address) && now < run[j].now + 3600
  }

  lemma AddedAtPrefix(norm: string -> string, run: seq<Action>, k: nat, j: nat, address: string)
    requires j < k <= |run|
    ensures AddedAt(norm, run[..k], j, address) <==> AddedAt(norm, run, j, address)
  {
    assert run[..k][..j] == run[..j];
  }

  lemma LastAddStep(norm: string -> string, run: seq<Action>, address: string)
    requires run != []
    ensures var n := |run| - 1;
            LastAdd(norm, run, address) ==
            if AddedAt(norm, run, n, address) then Some(run[n].now) else LastAdd(norm, run[..n], address)
  {
  }

  /** The last addition is one at some position. */
  lemma {:induction false} LastAddSource(norm: string -> string, run: seq<Action>, address: string) returns (j: nat)
    requires LastAdd(norm, run, address).Some?
    ensures AddedAt(norm, run, j, address) && run[j].now == LastAdd(norm, run, address).value
    decreases |run|
  {
    var n := |run| - 1;
    LastAddStep(norm, run, address);
    if AddedAt(norm, run, n, address) {
      j := n;
    } else {
      j := LastAddSource(norm, run[..n], address);
      AddedAtPrefix(norm, run, n, j, address);
    }
  }

  lemma {:induction false} ClockAfter(norm: string -> string, run: seq<Action>, j: nat, address: string)
    requires AddedAt(norm, run, j, address)
    ensures run[j].now <= After(norm, run).clock
    decreases |run|
  {
    var n := |run| - 1;
    if j == n {
    } else {
      AddedAtPrefix(norm, run, n, j, address);
      ClockAfter(norm, run[..n], j, address);
    }
  }

  /** No addition is later than the last one. */
  lemma {:induction false} LastAddIsLast(norm: string -> string, run: seq<Action>, j: nat, address: string)
    requires AddedAt(norm, run, j, address)
    ensures LastAdd(norm, run, address).Some? && run[j].now <= LastAdd(norm, run, address).value
    decreases |run|
  {
    var n := |run| - 1;
    LastAddStep(norm, run, address);
    if j == n {
    } else {
      AddedAtPrefix(norm, run, n, j, address);
      if AddedAt(norm, run, n, address) {
        ClockAfter(norm, run[..n], j, address);
      } else {
        LastAddIsLast(norm, run[..n], j, address);
      }
    }
  }

  /** An address is blocked exactly while some addition to the blocklist is less than an hour old. */
  lemma BlockedByAddition(norm: string -> string, run: seq<Action>, address: string, now: nat)
    ensures AG.IsBlocked(After(norm, run).gate.entries, address, now) <==> BlocksSince(norm, run, 0, address, now)
  {
    CheckRefusesExactly(norm, run, address, now);
    if LastAdd(norm, run, address).Some? {
      var j := LastAddSource(norm, run, address);
    }
    if BlocksSince(norm, run, 0, address, now) {
      var j :| 0 <= j < |run| && AddedAt(norm, run, j, address) && now < run[j].now + 3600;
      LastAddIsLast(norm, run, j, address);
    }
  }

  /** Additions before a check that did not refuse do not block later either. */
  lemma BlockedSinceCheck(norm: string -> string, run: seq<Action>, c: nat, address: string, now: nat)
    requires c < |run| && run[c].Check? && run[c].now <= now
    requires !AG.IsBlocked(After(norm, run[..c]).gate.entries, address, run[c].now)
    ensures AG.IsBlocked(After(norm, run).gate.entries, address, now) <==> BlocksSince(norm, run, c + 1, address, now)
  {
    BlockedByAddition(norm, run, address, now);
    BlockedByAddition(norm, run[..c], address, run[c].now);
    if j :| 0 <= j < |run| && AddedAt(norm, run, j, address) && now < run[j].now + 3600 {
      if j < c {
        AddedAtPrefix(norm, run, c, j, address);
      }
    }
  }

  // -------------------------------------------------------- the check of a call

  /** The action at position `c` is the check of call `i`, and it let the call through. */
  ghost predicate LetThrough(norm: string -> string, run: seq<Action>, c: nat, i: nat) {
    && c < |run| && run[c].Check?
    && var w := After(norm, run[..c]);
       && i == |w.entrants| && w.clock <= run[c].now && !AG.IsBlocked(w.gate.entries, norm(run[c].key), run[c].now)
  }

  lemma StepOfCall(norm: string -> string, w: World, a: Action, i: nat)
    requires i < |Step(norm, w, a).entrants| && Step(norm, w, a).entrants[i].phase != Answered(AG.Blocked)
    ensures i < |w.entrants| ==>
              w.entrants[i].key == Step(norm, w, a).entrants[i].key && w.entrants[i].phase != Answered(AG.Blocked)
    ensures i >= |w.entrants| ==>
              && a.Check? && i == |w.entrants| && w.clock <= a.now && a.key == Step(norm, w, a).entrants[i].key
              && !AG.IsBlocked(w.gate.entries, norm(a.key), a.now)
  {
  }

  lemma {:induction false} CheckOf(norm: string -> string, run: seq<Action>, i: nat) returns (c: nat)
    requires i < |After(norm, run).entrants| && After(norm, run).entrants[i].phase != Answered(AG.Blocked)
    ensures LetThrough(norm, run, c, i) && run[c].key == After(norm, run).entrants[i].key
    ensures run[c].now <= After(norm, run).clock
    decreases |run|
  {
    var n := |run| - 1;
    var w := After(norm, run[..n]);
    StepOfCall(norm, w, run[n], i);
    if i < |w.entrants| {
      c := CheckOf(norm, run[..n], i);
      assert run[..n][..c] == run[..c];
    } else {
      c := n;
    }
  }

  // ---------------------------------------------------- the tracker, interleaved

  lemma StepTracks(norm: string -> string, w: World, a: Action, key: string)
    requires AG.InOrder(AG.Tracked(w.gate, key)) && AtMost(AG.Tracked(w.gate, key), w.clock)
    ensures var w' := Step(norm, w, a);
            AG.InOrder(AG.Tracked(w'.gate, key)) && AtMost(AG.Tracked(w'.gate, key), w'.clock)
  {
    if a.now >= w.clock {
      AG.RecordInOrder(AG.Tracked(w.gate, key), a.now);
    }
  }

  lemma {:induction false} RunTracks(norm: string -> string, run: seq<Action>, key: string)
    ensures var w := After(norm, run);
            AG.InOrder(AG.Tracked(w.gate, key)) && AtMost(AG.Tracked(w.gate, key), w.clock)
    decreases |run|
  {
    if run == [] {
    } else {
      RunTracks(norm, run[..|run| - 1], key);
      StepTracks(norm, After(norm, run[..|run| - 1]), run[|run| - 1], key);
    }
  }

  /** The action at the end of a run brings a call with exactly this key to the tracker. */
  predicate TracksLast(norm: string -> string, run: seq<Action>, key: string)
    requires run != []
  {
    var w, a := After(norm, run[..|run| - 1]), run[|run| - 1];
    && a.Track? && w.clock <= a.now && a.call < |w.entrants|
    && w.entrants[a.call] == Entrant(key, Checked)
  }

  /** The times at which calls with exactly this key reached the tracker. */
  function Reached(norm: string -> string, run: seq<Action>, key: string): seq<nat> {
    if run == [] then []
    else
      var before := Reached(norm, run[..|run| - 1], key);
      if TracksLast(norm, run, key) then before + [run[|run| - 1].now] else before
  }

  lemma TrackedNext(norm: string -> string, w: World, a: Action, key: string)
    ensures var tracks := && a.Track? && w.clock <= a.now && a.call < |w.entrants|
                          && w.entrants[a.call] == Entrant(key, Checked);
            AG.Tracked(Step(norm, w, a).gate, key) ==
            if tracks then AG.Record(AG.Tracked(w.gate, key), a.now) else AG.Tracked(w.gate, key)
    ensures w.clock <= Step(norm, w, a).clock && (w.clock <= a.now ==> Step(norm, w, a).clock <= a.now)
    ensures a.Track? && w.clock <= a.now && a.call < |w.entrants| && w.entrants[a.call].phase == Checked ==>
              Step(norm, w, a).clock == a.now
  {
  }

  lemma {:induction false} TrackedIsReached(norm: string -> string, run: seq<Action>, key: string)
    ensures AG.SameRecent(AG.Tracked(After(norm, run).gate, key), Reached(norm, run, key), After(norm, run).clock)
    decreases |run|
  {
    if run == [] {
      assert AG.Tracked(After(norm, run).gate, key) == [] == Reached(norm, run, key);
    } else {
      var init, a := run[..|run| - 1], run[|run| - 1];
      var w := After(norm, init);
      TrackedIsReached(norm, init, key);
      TrackedNext(norm, w, a, key);
      if TracksLast(norm, run, key) {
        AG.RecordSame(AG.Tracked(w.gate, key), Reached(norm, init, key), w.clock, a.now);
      } else {
        AG.SameLater(AG.Tracked(w.gate, key), Reached(norm, init, key), w.clock, After(norm, run).clock);
      }
    }
  }

  lemma SuspectsExactly(norm: string -> string, run: seq<Action>, key: string, now: nat)
    requires After(norm, run).clock <= now
    ensures AG.Suspicious(AG.Record(AG.Tracked(After(norm, run).gate, key), now)) <==>
            AG.Burst(Reached(norm, run, key) + [now], now)
  {
    RunTracks(norm, run, key);
    TrackedIsReached(norm, run, key);
    var w := After(norm, run);
    AG.RecordSuspicious(AG.Tracked(w.gate, key), Reached(norm, run, key), w.clock, now);
  }

  /**
   However calls overlap, a call that reaches the tracker is flagged if and only if it is one of more
   than five of its key there in ten seconds, or one of three in three seconds with none between three
   and ten seconds old; else it passes.
   */
  lemma FlaggedExactly(norm: string -> string, run: seq<Action>, i: nat, now: nat)
    requires i < |After(norm, run).entrants| && After(norm, run).entrants[i].phase == Checked
    requires After(norm, run).clock <= now
    ensures var w, phase := After(norm, run), Step(norm, After(norm, run), Track(i, now)).entrants[i].phase;
            && (phase == Suspected <==> AG.Burst(Reached(norm, run, w.entrants[i].key) + [now], now))
            && (phase == Answered(AG.Passed) <==> !AG.Burst(Reached(norm, run, w.entrants[i].key) + [now], now))
  {
    SuspectsExactly(norm, run, After(norm, run).entrants[i].key, now);
  }

  /** A call passes when no call of its key reached the tracker for ten seconds, as after an hour of refusals. */
  lemma QuietKeyPasses(norm: string -> string, run: seq<Action>, i: nat, now: nat)
    requires i < |After(norm, run).entrants| && After(norm, run).entrants[i].phase == Checked
    requires After(norm, run).clock <= now
    requires AtMost(Reached(norm, run, After(norm, run).entrants[i].key), now - 10)
    ensures Step(norm, After(norm, run), Track(i, now)).entrants[i].phase == Answered(AG.Passed)
  {
    var times := Reached(norm, run, After(norm, run).entrants[i].key);
    FlaggedExactly(norm, run, i, now);
    AG.CountAll(times, now - 9, now + 1);
    AG.CountAll(times, now - 2, now + 1);
    CountInSnoc(times, now, now - 9, now + 1);
    CountInSnoc(times, now, now - 2, now + 1);
  }

  /**
   However calls overlap, a call that the check let through reaches the tracker with its address
   blocked if and only if the address was added to the blocklist after that check and less than an
   hour before. Whether it passes then is up to the tracker alone.
   */
  lemma PassesWhileBlocked(norm: string -> string, run: seq<Action>, i: nat, now: nat) returns (c: nat)
    requires i < |After(norm, run).entrants| && After(norm, run).entrants[i].phase == Checked
    requires After(norm, run).clock <= now
    ensures LetThrough(norm, run, c, i)
    ensures var w, key := After(norm, run), After(norm, run).entrants[i].key;
            && (AG.IsBlocked(w.gate.entries, norm(key), now) <==> BlocksSince(norm, run, c + 1, norm(key), now))
            && (Step(norm, w, Track(i, now)).entrants[i].phase == Answered(AG.Passed) <==>
                !AG.Burst(Reached(norm, run, key) + [now], now))
  {
    c := CheckOf(norm, run, i);
    FlaggedExactly(norm, run, i, now);
    BlockedSinceCheck(norm, run, c, norm(run[c].key), now);
  }

  // ------------------------------------------------ the blocklist needs serial calls

  /** A world with calls of one key only. */
  datatype Scene = Scene(clock: nat, phases: seq<Phase>, timestamps: seq<nat>, entries: map<string, AG.BlockEntry>,
                         passes: seq<Pass>)

  function Entrants(key: string, phases: seq<Phase>): seq<Entrant> {
    seq(|phases|, i requires 0 <= i < |phases| => Entrant(key, phases[i]))
  }

  function Played(key: string, v: Scene): World {
    var tracked := if v.timestamps == [] then map[] else map[key := v.timestamps];
    World(v.clock, AG.State(tracked, v.entries), Entrants(key, v.phases), v.passes)
  }

  lemma AfterNext(norm: string -> string, run: seq<Action>, a: Action)
    ensures After(norm, run + [a]) == Step(norm, After(norm, run), a)
  {
    assert (run + [a])[..|run|] == run;
  }

  lemma EntrantsUpdate(key: string, phases: seq<Phase>, i: nat, phase: Phase)
    requires i < |phases|
    ensures Entrants(key, phases)[i := Entrant(key, phase)] == Entrants(key, phases[i := phase])
  {
  }

  function Checking(v: Scene, now: nat): Scene {
    v.(clock := now, phases := v.phases + [Checked])
  }

  lemma PlayCheck(norm: string -> string, key: string, run: seq<Action>, v: Scene, now: nat)
    requires After(norm, run) == Played(key, v) && v.clock <= now && !AG.IsBlocked(v.entries, norm(key), now)
    ensures After(norm, run + [Check(key, now)]) == Played(key, Checking(v, now))
  {
    AfterNext(norm, run, Check(key, now));
    assert Entrants(key, v.phases) + [Entrant(key, Checked)] == Entrants(key, v.phases + [Checked]);
  }

  function Passing(v: Scene, key: string, i: nat, now: nat, timestamps: seq<nat>): Scene
    requires i < |v.phases|
  {
    v.(clock := now, phases := v.phases[i := Answered(AG.Passed)], timestamps := timestamps,
       passes := v.passes + [Pass(key, now)])
  }

  function Flagging(v: Scene, i: nat, now: nat, timestamps: seq<nat>): Scene
    requires i < |v.phases|
  {
    v.(clock := now, phases := v.phases[i := Suspected], timestamps := timestamps)
  }

  lemma PlayTrack(norm: string -> string, key: string, run: seq<Action>, v: Scene, i: nat, now: nat,
                  timestamps: seq<nat>)
    requires After(norm, run) == Played(key, v) && v.clock <= now && i < |v.phases| && v.phases[i] == Checked
    requires AG.Record(v.timestamps, now) == timestamps
    ensures After(norm, run + [Track(i, now)]) ==
            Played(key, if AG.Suspicious(timestamps) then Flagging(v, i, now, timestamps)
                        else Passing(v, key, i, now, timestamps))
  {
    AfterNext(norm, run, Track(i, now));
    EntrantsUpdate(key, v.phases, i, Suspected);
    EntrantsUpdate(key, v.phases, i, Answered(AG.Passed));
  }

  /** An hour's block from 0 on. */
  function BlockAtZero(norm: string -> string, key: string): map<string, AG.BlockEntry> {
    map[norm(key) := AG.BlockEntry("Suspicious activity detected", Some(AG.BLOCK_SECONDS), 0)]
  }

  lemma PlayAdd(norm: string -> string, key: string, run: seq<Action>, v: Scene, i: nat)
    requires After(norm, run) == Played(key, v) && v.clock == 0 && v.entries == map[]
    requires i < |v.phases| && v.phases[i] == Suspected
    ensures After(norm, run + [Add(i, 0)]) ==
            Played(key, v.(phases := v.phases[i := Answered(AG.Flagged)], entries := BlockAtZero(norm, key)))
  {
    AfterNext(norm, run, Add(i, 0));
    EntrantsUpdate(key, v.phases, i, Answered(AG.Flagged));
  }

  function Checks(key: string, n: nat): seq<Action> {
    if n == 0 then [] else Checks(key, n - 1) + [Check(key, 0)]
  }

  function Waiting(n: nat): Scene {
    Scene(0, seq(n, _ => Checked), [], map[], [])
  }

  lemma {:induction false} AllWait(norm: string -> string, key: string, n: nat)
    ensures After(norm, Checks(key, n)) == Played(key, Waiting(n))
  {
    if n == 0 {
      assert Entrants(key, []) == [];
    } else {
      AllWait(norm, key, n - 1);
      PlayCheck(norm, key, Checks(key, n - 1), Waiting(n - 1), 0);
      assert Waiting(n - 1).phases + [Checked] == Waiting(n).phases;
    }
  }

  lemma Recordings()
    ensures AG.Record([], 0) == [0] && AG.Record([0], 0) == [0, 0] && AG.Record([0, 0], 0) == [0, 0, 0]
    ensures AG.Record([0, 0, 0], 20) == [20]
    ensures AG.Record([0, 0, 0], 3599) == [3599] && AG.Record([3599], 3599) == [3599, 3599]
    ensures AG.Record([3599, 3599], 3600) == [3599, 3599, 3600]
  {
    AG.RetainTo([0], 0);
    AG.RetainTo([0, 0], 0);
    AG.RetainStale([0, 0, 0], 20, AG.TRACKED_SECONDS);
    AG.RetainStale([0, 0, 0], 3599, AG.TRACKED_SECONDS);
    AG.RetainTo([3599], 3599);
    AG.RetainTo([3599, 3599], 3600);
  }

  /** Of `n` calls that were checked together the first two pass, and the third is flagged and blocked. */
  function ThirdBlocked(key: string, n: nat): seq<Action> {
    Checks(key, n) + [Track(0, 0)] + [Track(1, 0)] + [Track(2, 0)] + [Add(2, 0)]
  }

  function Blocked(norm: string -> string, key: string, n: nat): Scene
    requires n >= 3
  {
    var p := Answered(AG.Passed);
    Scene(0, [p, p, Answered(AG.Flagged)] + seq(n - 3, _ => Checked), [0, 0, 0], BlockAtZero(norm, key),
          [Pass(key, 0), Pass(key, 0)])
  }

  lemma FirstTwoPass(norm: string -> string, key: string, n: nat) returns (v: Scene)
    requires n >= 3
    ensures After(norm, Checks(key, n) + [Track(0, 0)] + [Track(1, 0)]) == Played(key, v)
    ensures v == Scene(0, v.phases, [0, 0], map[], [Pass(key, 0), Pass(key, 0)])
    ensures |v.phases| == n && v.phases[0] == v.phases[1] == Answered(AG.Passed)
    ensures forall i :: 2 <= i < n ==> v.phases[i] == Checked
  {
    Recordings();
    AllWait(norm, key, n);
    var run, v0 := Checks(key, n), Waiting(n);
    PlayTrack(norm, key, run, v0, 0, 0, [0]);
    var v1 := Passing(v0, key, 0, 0, [0]);
    PlayTrack(norm, key, run + [Track(0, 0)], v1, 1, 0, [0, 0]);
    v := Passing(v1, key, 1, 0, [0, 0]);
  }

  lemma ThirdIsBlocked(norm: string -> string, key: string, n: nat)
    requires n >= 3
    ensures After(norm, ThirdBlocked(key, n)) == Played(key, Blocked(norm, key, n))
  {
    var v := FirstTwoPass(norm, key, n);
    ThirdFlagged(norm, key, Checks(key, n) + [Track(0, 0)] + [Track(1, 0)], v);
    BlockedPhases(norm, key, n, v);
  }

  lemma ThirdFlagged(norm: string -> string, key: string, run: seq<Action>, v: Scene)
    requires After(norm, run) == Played(key, v) && |v.phases| >= 3 && v.phases[2] == Checked
    requires v.clock == 0 && v.timestamps == [0, 0] && v.entries == map[]
    ensures After(norm, run + [Track(2, 0)] + [Add(2, 0)]) ==
            Played(key, Scene(0, v.phases[2 := Answered(AG.Flagged)], [0, 0, 0], BlockAtZero(norm, key), v.passes))
  {
    Recordings();
    PlayTrack(norm, key, run, v, 2, 0, [0, 0, 0]);
    PlayAdd(norm, key, run + [Track(2, 0)], Flagging(v, 2, 0, [0, 0, 0]), 2);
    assert v.phases[2 := Suspected][2 := Answered(AG.Flagged)] == v.phases[2 := Answered(AG.Flagged)];
  }

  lemma BlockedPhases(norm: string -> string, key: string, n: nat, v: Scene)
    requires n >= 3 && |v.phases| == n && v.phases[0] == v.phases[1] == Answered(AG.Passed)
    requires forall i :: 3 <= i < n ==> v.phases[i] == Checked
    ensures v.phases[2 := Answered(AG.Flagged)] == Blocked(norm, key, n).phases
  {
  }

  /** Such a run in which a fourth call reaches the tracker much later. */
  function Straggler(key: string): seq<Action> {
    ThirdBlocked(key, 4) + [Track(3, 20)]
  }

  /**
   The blocklist theorems do need serial calls: a call that was checked before another one was
   flagged can still pass while its address is blocked.
   */
  lemma StragglerPasses(norm: string -> string, key: string)
    ensures var w := After(norm, Straggler(key));
            && w.clock == 20 && AG.IsBlocked(w.gate.entries, norm(key), 20)
            && w.passes != [] && w.passes[|w.passes| - 1] == Pass(key, 20)
  {
    Recordings();
    ThirdIsBlocked(norm, key, 4);
    PlayTrack(norm, key, ThirdBlocked(key, 4), Blocked(norm, key, 4), 3, 20, [20]);
  }

  /** Two stragglers just before the block expires, and the first call after it. */
  function LateStragglers(key: string): seq<Action> {
    ThirdBlocked(key, 5) + [Track(3, 3599)] + [Track(4, 3599)] + [Check(key, 3600)]
  }

  lemma StragglersTracked(norm: string -> string, key: string) returns (v: Scene)
    ensures After(norm, LateStragglers(key)) == Played(key, v)
    ensures v.clock == 3600 && v.timestamps == [3599, 3599] && |v.phases| == 6 && v.phases[5] == Checked
    ensures v.entries == BlockAtZero(norm, key)
  {
    ThirdIsBlocked(norm, key, 5);
    var v2 := TwoStragglers(norm, key, ThirdBlocked(key, 5), Blocked(norm, key, 5));
    PlayCheck(norm, key, ThirdBlocked(key, 5) + [Track(3, 3599)] + [Track(4, 3599)], v2, 3600);
    v := Checking(v2, 3600);
  }

  lemma TwoStragglers(norm: string -> string, key: string, run: seq<Action>, v: Scene) returns (v2: Scene)
    requires After(norm, run) == Played(key, v) && |v.phases| == 5 && v.phases[3] == v.phases[4] == Checked
    requires v.clock == 0 && v.timestamps == [0, 0, 0]
    ensures After(norm, run + [Track(3, 3599)] + [Track(4, 3599)]) == Played(key, v2)
    ensures v2 == Scene(3599, v2.phases, [3599, 3599], v.entries, v2.passes) && |v2.phases| == 5
  {
    Recordings();
    PlayTrack(norm, key, run, v, 3, 3599, [3599]);
    var v1 := Passing(v, key, 3, 3599, [3599]);
    PlayTrack(norm, key, run + [Track(3, 3599)], v1, 4, 3599, [3599, 3599]);
    v2 := Passing(v1, key, 4, 3599, [3599, 3599]);
  }

  /** Stragglers can get the first call after the hour flagged, which never happens to serial calls. */
  lemma FirstCallFlagged(norm: string -> string, key: string)
    ensures var w := After(norm, LateStragglers(key));
            && !AG.IsBlocked(w.gate.entries, norm(key), 3600)
            && |w.entrants| == 6 && w.entrants[5] == Entrant(key, Checked)
            && Step(norm, w, Track(5, 3600)).entrants[5].phase == Suspected
  {
    Recordings();
    var v := StragglersTracked(norm, key);
    PlayTrack(norm, key, LateStragglers(key), v, 5, 3600, [3599, 3599, 3600]);
    AfterNext(norm, LateStragglers(key), Track(5, 3600));
  }
}
