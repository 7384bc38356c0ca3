/** The sliding-window escalation tracker, against the whole history of suspicious events. */
module Escalation {
  import opened Options

  datatype Level = Quiet | Warning | Critical

  function Rank(l: Level): int {
    match l
    case Quiet => 0
    case Warning => 1
    case Critical => 2
  }

  function Higher(a: Level, b: Level): Level {
    if Rank(a) >= Rank(b) then a else b
  }

  datatype Policy = Policy(
    warningCount: int, warningWindow: real, criticalCount: int, criticalWindow: real, resetAfter: real)
  {
    predicate Valid() {
      && 0 < warningCount < criticalCount
      && 0.0 < warningWindow <= criticalWindow
      && 0.0 < resetAfter
    }
  }

  /** How many events are at or after `since`. */
  function Count(events: seq<real>, since: real): nat {
    if events == [] then 0
    else Count(events[1..], since) + if events[0] >= since then 1 else 0
  }

  /** Drops leading events that are too old. */
  function Prune(events: seq<real>, oldest: real): seq<real> {
    if events != [] && events[0] < oldest then Prune(events[1..], oldest) else events
  }

  // ---------------------------------------------------------------- the tracker

  datatype Tracker = Tracker(events: seq<real>, level: Level, last: Option<real>)

  const Fresh := Tracker([], Quiet, None)

  /** The tracker as it is when the new event is counted: cleared after a quiet gap. */
  function Settled(p: Policy, t: Tracker, now: real): Tracker {
    if t.last.Some? && now - t.last.value >= p.resetAfter then Tracker([], Quiet, t.last) else t
  }

  function Raised(p: Policy, level: Level, events: seq<real>, now: real): Level {
    if Count(events, now - p.criticalWindow) >= p.criticalCount then Critical
    else if Count(events, now - p.warningWindow) >= p.warningCount then Higher(level, Warning)
    else level
  }

  /** The tracker after one event, and the level it announces (`Quiet` for none). */
  function Advance(p: Policy, t: Tracker, now: real): (r: (Tracker, Level)) {
    var s := Settled(p, t, now);
    var events := Prune(s.events + [now], now - p.criticalWindow);
    var level := Raised(p, s.level, events, now);
    (Tracker(events, level, Some(now)), if Rank(level) > Rank(s.level) then level else Quiet)
  }

  class EscalationTracker {
    const policy: Policy
    var events: seq<real>
    var level: Level
    var lastEvent: Option<real>

    ghost function View(): Tracker
      reads this
    {
      Tracker(events, level, lastEvent)
    }

    constructor (policy: Policy)
      requires policy.Valid()
      ensures this.policy == policy && View() == Fresh
    {
      this.policy := policy;
      events := [];
      level := Quiet;
      lastEvent := None;
    }

    method RecordEvent(timestamp: real) returns (changed: Level)
      modifies this
      ensures View() == Advance(policy, old(View()), timestamp).0
      ensures changed == Advance(policy, old(View()), timestamp).1
    {
      if lastEvent.Some? && timestamp - lastEvent.value >= policy.resetAfter {
        events := [];
        level := Quiet;
      }
      lastEvent := Some(timestamp);
      events := events + [timestamp];
      var oldestRelevant := timestamp - policy.criticalWindow;
      ghost var appended, settled := events, level;
      while events != [] && events[0] < oldestRelevant
        invariant level == settled && lastEvent == Some(timestamp)
        invariant Prune(events, oldestRelevant) == Prune(appended, oldestRelevant)
        decreases |events|
      {
        events := events[1..];
      }
      assert events == Prune(appended, oldestRelevant);
      var criticalCount := Count(events, timestamp - policy.criticalWindow);
      var warningCount := Count(events, timestamp - policy.warningWindow);
      var newLevel := level;
      if criticalCount >= policy.criticalCount {
        newLevel := Critical;
      } else if warningCount >= policy.warningCount {
        newLevel := Higher(newLevel, Warning);
      }
      changed := if Rank(newLevel) > Rank(level) then newLevel else Quiet;
      level := newLevel;
    }
  }

  function RunTracker(p: Policy, h: seq<real>): Tracker {
    if h == [] then Fresh else Advance(p, RunTracker(p, h[..|h| - 1]), h[|h| - 1]).0
  }

  /** The level announced by the last event of a history. */
  function Announced(p: Policy, h: seq<real>): Level
    requires h != []
  {
    Advance(p, RunTracker(p, h[..|h| - 1]), h[|h| - 1]).1
  }

  lemma RunTrackerStep(p: Policy, h: seq<real>, now: real)
    ensures RunTracker(p, h + [now]) == Advance(p, RunTracker(p, h), now).0
    ensures Announced(p, h + [now]) == Advance(p, RunTracker(p, h), now).1
    ensures CriticalAnnouncements(p, h + [now])
         == CriticalAnnouncements(p, h) + Tally(Advance(p, RunTracker(p, h), now).1 == Critical)
  {
  }

  // ---------------------------------------------------------------- the specification over whole histories

  ghost predicate Nondecreasing(h: seq<real>) {
    forall i, j :: 0 <= i <= j < |h| ==> h[i] <= h[j]
  }

  /** The last event of the history comes after a quiet gap. */
  predicate AfterGap(p: Policy, h: seq<real>)
    requires h != []
  {
    |h| == 1 || h[|h| - 1] - h[|h| - 2] >= p.resetAfter
  }

  /** Where the current cycle starts: after the last quiet gap. */
  function CycleStart(p: Policy, h: seq<real>): (s: nat)
    ensures h == [] ==> s == 0
    ensures h != [] ==> s < |h|
  {
    if h == [] then 0
    else if AfterGap(p, h) then |h| - 1
    else CycleStart(p, h[..|h| - 1])
  }

  function Cycle(p: Policy, h: seq<real>): seq<real> {
    h[CycleStart(p, h)..]
  }

  /** The level reached by the windows that end at the last event of a cycle, counting every event of it. */
  function WindowLevel(p: Policy, c: seq<real>): Level
    requires c != []
  {
    var now := c[|c| - 1];
    if Count(c, now - p.criticalWindow) >= p.criticalCount then Critical
    else if Count(c, now - p.warningWindow) >= p.warningCount then Warning
    else Quiet
  }

  /** The highest level any window of the cycle reached. */
  function Peak(p: Policy, c: seq<real>): Level {
    if c == [] then Quiet else Higher(Peak(p, c[..|c| - 1]), WindowLevel(p, c))
  }

  lemma {:induction false} PeakIsMaximum(p: Policy, c: seq<real>)
    ensures forall k :: 0 < k <= |c| ==> Rank(WindowLevel(p, c[..k])) <= Rank(Peak(p, c))
    ensures Peak(p, c) == Quiet || exists k :: 0 < k <= |c| && WindowLevel(p, c[..k]) == Peak(p, c)
  {
    if c != [] {
      var n := |c| - 1;
      PeakIsMaximum(p, c[..n]);
      assert c[..|c|] == c;
      forall k | 0 < k <= |c|
        ensures Rank(WindowLevel(p, c[..k])) <= Rank(Peak(p, c))
      {
        assert k <= n ==> c[..n][..k] == c[..k];
      }
      if Peak(p, c) == WindowLevel(p, c) {
        assert WindowLevel(p, c[..|c|]) == Peak(p, c);
      } else if Peak(p, c) != Quiet {
        var k :| 0 < k <= n && WindowLevel(p, c[..n][..k]) == Peak(p, c[..n]);
        assert c[..n][..k] == c[..k];
      }
    }
  }

  // ---------------------------------------------------------------- pruning never changes a count

  lemma {:induction false} PruneKeepsCount(c: seq<real>, oldest: real, since: real)
    requires oldest <= since
    ensures Count(Prune(c, oldest), since) == Count(c, since)
    decreases |c|
  {
    if c != [] && c[0] < oldest {
      PruneKeepsCount(c[1..], oldest, since);
    }
  }

  lemma {:induction false} PruneAgain(c: seq<real>, now: real, older: real, oldest: real)
    requires older <= oldest
    ensures Prune(Prune(c, older) + [now], oldest) == Prune(c + [now], oldest)
    decreases |c|
  {
    if c != [] && c[0] < older {
      PruneAgain(c[1..], now, older, oldest);
      assert (c + [now])[1..] == c[1..] + [now];
    }
  }

  // ---------------------------------------------------------------- refinement

  lemma CycleStep(p: Policy, h: seq<real>)
    requires h != []
    ensures AfterGap(p, h) ==> Cycle(p, h) == [h[|h| - 1]]
    ensures !AfterGap(p, h) ==>
      && CycleStart(p, h) == CycleStart(p, h[..|h| - 1])
      && Cycle(p, h) == Cycle(p, h[..|h| - 1]) + [h[|h| - 1]]
  {
  }

  lemma PeakOfNothing(p: Policy)
    ensures Peak(p, []) == Quiet && Cycle(p, []) == []
  {
  }

  lemma PeakStep(p: Policy, c: seq<real>, now: real)
    ensures Peak(p, c + [now]) == Higher(Peak(p, c), WindowLevel(p, c + [now]))
  {
  }

  ghost predicate Refines(p: Policy, h: seq<real>, t: Tracker) {
    var c := Cycle(p, h);
    && t.level == Peak(p, c)
    && (h == [] ==> t == Fresh)
    && (h != [] ==> t.last == Some(h[|h| - 1]) && t.events == Prune(c, h[|h| - 1] - p.criticalWindow))
  }

  /** Counting over the pruned deque raises the level exactly as counting over the whole cycle does. */
  lemma RaisedByWholeCycle(p: Policy, c: seq<real>, now: real)
    requires p.Valid()
    ensures Raised(p, Peak(p, c), Prune(c + [now], now - p.criticalWindow), now) == Peak(p, c + [now])
  {
    var oldest := now - p.criticalWindow;
    PruneKeepsCount(c + [now], oldest, oldest);
    PruneKeepsCount(c + [now], oldest, now - p.warningWindow);
    PeakStep(p, c, now);
    hide Peak, Prune, Count;
  }

  /** The cycle that a new event joins; empty when the event comes after a quiet gap. */
  function Joined(p: Policy, h: seq<real>, now: real): seq<real> {
    if AfterGap(p, h + [now]) then [] else Cycle(p, h)
  }

  /** A new event comes after a gap exactly when the tracker, which remembers the last event, sees one. */
  lemma GapIsSeen(p: Policy, h: seq<real>, t: Tracker, now: real)
    requires Refines(p, h, t)
    ensures Settled(p, t, now) ==
            if h != [] && AfterGap(p, h + [now]) then Tracker([], Quiet, t.last) else t
    ensures h == [] ==> AfterGap(p, h + [now]) && t == Fresh
  {
    hide Peak, Prune, Cycle;
  }

  lemma SettledRefines(p: Policy, h: seq<real>, t: Tracker, now: real)
    requires Refines(p, h, t) && (h != [] ==> h[|h| - 1] <= now)
    ensures Cycle(p, h + [now]) == Joined(p, h, now) + [now]
    ensures Settled(p, t, now).level == Peak(p, Joined(p, h, now))
    ensures Prune(Settled(p, t, now).events + [now], now - p.criticalWindow)
         == Prune(Joined(p, h, now) + [now], now - p.criticalWindow)
  {
    hide Peak, Prune, Cycle, CycleStart, AfterGap, Settled;
    var g := h + [now];
    assert g[..|h|] == h;
    CycleStep(p, g);
    GapIsSeen(p, h, t, now);
    PeakOfNothing(p);
    if !AfterGap(p, g) {
      PruneAgain(Cycle(p, h), now, h[|h| - 1] - p.criticalWindow, now - p.criticalWindow);
    }
  }

  lemma RefinementStep(p: Policy, h: seq<real>, t: Tracker, now: real)
    requires p.Valid() && Refines(p, h, t) && (h != [] ==> h[|h| - 1] <= now)
    ensures Refines(p, h + [now], Advance(p, t, now).0)
    ensures Settled(p, t, now).level == Peak(p, Joined(p, h, now))
  {
    hide Peak, Prune, Count, Cycle, Joined, Settled, Raised;
    SettledRefines(p, h, t, now);
    RaisedByWholeCycle(p, Joined(p, h, now), now);
    var g, after := h + [now], Advance(p, t, now).0;
    assert g[|g| - 1] == now && after.last == Some(now);
    assert after.level == Peak(p, Cycle(p, g));
    assert after.events == Prune(Cycle(p, g), now - p.criticalWindow);
  }

  /** For a nondecreasing clock the pruned deque holds exactly the recent part of the current cycle, and
      the level is the highest that any window since the last quiet gap reached. */
  lemma {:induction false} TrackerRefinesHistory(p: Policy, h: seq<real>)
    requires p.Valid() && Nondecreasing(h)
    ensures Refines(p, h, RunTracker(p, h))
  {
    if h != [] {
      var n := |h| - 1;
      TrackerRefinesHistory(p, h[..n]);
      assert h[..n] + [h[n]] == h;
      hide Refines, Advance;
      RefinementStep(p, h[..n], RunTracker(p, h[..n]), h[n]);
    }
  }

  lemma RecordAnnouncesPeak(p: Policy, h: seq<real>, t: Tracker, now: real)
    requires p.Valid() && Refines(p, h, t) && (h != [] ==> h[|h| - 1] <= now)
    ensures var before, after := Peak(p, Joined(p, h, now)), Peak(p, Cycle(p, h + [now]));
      && Rank(before) <= Rank(after)
      && Advance(p, t, now).1 == if before == after then Quiet else after
  {
    hide Peak, Prune, Count, Cycle, Joined, Settled, Raised, Refines, WindowLevel;
    SettledRefines(p, h, t, now);
    RaisedByWholeCycle(p, Joined(p, h, now), now);
    PeakStep(p, Joined(p, h, now), now);
    assert Advance(p, t, now).0.level == Peak(p, Cycle(p, h + [now]));
  }

  /** An event announces the level of its cycle exactly when that level is new to the cycle. */
  lemma AnnouncesNewPeak(p: Policy, h: seq<real>)
    requires p.Valid() && Nondecreasing(h) && h != []
    ensures var joined := if AfterGap(p, h) then [] else Cycle(p, h[..|h| - 1]);
      && Rank(Peak(p, joined)) <= Rank(Peak(p, Cycle(p, h)))
      && Announced(p, h) == if Peak(p, joined) == Peak(p, Cycle(p, h)) then Quiet else Peak(p, Cycle(p, h))
  {
    var n := |h| - 1;
    assert h[..n] + [h[n]] == h;
    hide Refines, Advance, Peak, Cycle, RunTracker;
    TrackerRefinesHistory(p, h[..n]);
    RecordAnnouncesPeak(p, h[..n], RunTracker(p, h[..n]), h[n]);
  }

  // ---------------------------------------------------------------- announcements per cycle

  /** The announcements made in the current cycle, in order. */
  function CycleAnnouncements(p: Policy, h: seq<real>): seq<Level> {
    if h == [] then []
    else
      (if AfterGap(p, h) then [] else CycleAnnouncements(p, h[..|h| - 1])) +
      if Announced(p, h) == Quiet then [] else [Announced(p, h)]
  }

  /** A cycle's announcements climb, and the last one is the level reached. */
  predicate Climbs(a: seq<Level>, peak: Level) {
    match peak
    case Quiet => a == []
    case Warning => a == [Warning]
    case Critical => a == [Critical] || a == [Warning, Critical]
  }

  lemma ClimbsStep(a: seq<Level>, before: Level, after: Level)
    ensures Climbs([], Quiet)
    ensures Climbs(a, before) && Rank(before) <= Rank(after)
        ==> Climbs(a + if before == after then [] else [after], after)
  {
  }

  /** Each cycle announces at most one warning and then at most one critical level, and the last
      announcement is the level the cycle has reached. */
  lemma {:induction false} AnnouncementsClimb(p: Policy, h: seq<real>)
    requires p.Valid() && Nondecreasing(h)
    ensures Climbs(CycleAnnouncements(p, h), Peak(p, Cycle(p, h)))
  {
    if h != [] {
      hide Peak, Cycle, Announced, AfterGap, Climbs;
      PeakOfNothing(p);
      AnnouncementsClimb(p, h[..|h| - 1]);
      AnnouncesNewPeak(p, h);
      var announced := if AfterGap(p, h) then [] else CycleAnnouncements(p, h[..|h| - 1]);
      var joined := if AfterGap(p, h) then [] else Cycle(p, h[..|h| - 1]);
      ClimbsStep(announced, Peak(p, joined), Peak(p, Cycle(p, h)));
    }
  }

  function CriticalAnnouncements(p: Policy, h: seq<real>): nat {
    if h == [] then 0
    else CriticalAnnouncements(p, h[..|h| - 1]) + Tally(Announced(p, h) == Critical)
  }

  /** The number of cycles of a history in which some window reached the critical level. */
  function CriticalCycles(p: Policy, h: seq<real>): nat {
    if h == [] then 0
    else
      var s := CycleStart(p, h);
      CriticalCycles(p, h[..s]) + Tally(Peak(p, h[s..]) == Critical)
  }

  function Tally(b: bool): nat {
    if b then 1 else 0
  }

  lemma CriticalCyclesUnfold(p: Policy, h: seq<real>)
    requires h != []
    ensures CriticalCycles(p, h) == CriticalCycles(p, h[..CycleStart(p, h)]) + Tally(Peak(p, Cycle(p, h)) == Critical)
  {
    hide Peak, CycleStart, AfterGap;
  }

  lemma NoCriticalCycles(p: Policy)
    ensures CriticalCycles(p, []) == 0
  {
  }

  lemma CycleStartAfterGap(p: Policy, h: seq<real>)
    requires h != [] && AfterGap(p, h)
    ensures CycleStart(p, h) == |h| - 1
  {
    hide AfterGap;
  }

  /** A gap opens a cycle; without one the last event stays in the same cycle. */
  lemma CriticalCyclesStep(p: Policy, h: seq<real>)
    requires h != []
    ensures var joined := if AfterGap(p, h) then [] else Cycle(p, h[..|h| - 1]);
      CriticalCycles(p, h) + Tally(Peak(p, joined) == Critical)
      == CriticalCycles(p, h[..|h| - 1]) + Tally(Peak(p, Cycle(p, h)) == Critical)
  {
    hide Peak, CriticalCycles, CycleStart, AfterGap, Cycle;
    var front, s := h[..|h| - 1], CycleStart(p, h);
    PeakOfNothing(p);
    CriticalCyclesUnfold(p, h);
    if AfterGap(p, h) {
      CycleStartAfterGap(p, h);
    } else {
      CycleStep(p, h);
      SameCyclePrefix(p, h, front, s);
    }
  }

  lemma SameCyclePrefix(p: Policy, h: seq<real>, front: seq<real>, s: nat)
    requires h != [] && front == h[..|h| - 1] && s <= |front| && CycleStart(p, front) == s
    ensures CriticalCycles(p, front) == CriticalCycles(p, h[..s]) + Tally(Peak(p, Cycle(p, front)) == Critical)
  {
    hide Peak, CriticalCycles, CycleStart, Cycle;
    PeakOfNothing(p);
    NoCriticalCycles(p);
    assert front[..s] == h[..s];
    if front != [] {
      CriticalCyclesUnfold(p, front);
    }
  }

  /** Critical announcements and critical cycles are equally many. */
  lemma {:induction false} OneCriticalPerCycle(p: Policy, h: seq<real>)
    requires p.Valid() && Nondecreasing(h)
    ensures CriticalAnnouncements(p, h) == CriticalCycles(p, h)
    decreases |h|
  {
    if h != [] {
      hide Peak, Announced, Cycle;
      OneCriticalPerCycle(p, h[..|h| - 1]);
      AnnouncesNewPeak(p, h);
      CriticalCyclesStep(p, h);
      hide CriticalCycles;
    }
  }
}
