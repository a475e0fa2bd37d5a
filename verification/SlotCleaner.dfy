/** The cleaner of orphaned replication slots, over every sequence of passes. */
module SlotCleaner {
  import opened Streams

  datatype Owner = Owner(heartbeatAt: int, released: bool)

  datatype Candidate = Candidate(name: string, active: bool, retainedBytes: nat, owner: Option<Owner>)

  datatype Rules = Rules(ownSlot: string, matches: string -> bool, staleAfter: int, retainedThreshold: nat, dryRun: bool)

  datatype Reason = OwnSlot | NameMismatch | Active | BelowThreshold | Released | RecentHeartbeat | StaleHeartbeat

  datatype Decision = Keep(reason: Reason) | Drop(reason: Reason)

  /** `firstSeen` stands in for the heartbeat of a slot without an owner. */
  function Decide(rules: Rules, c: Candidate, firstSeen: int, now: int): Decision {
    if c.name == rules.ownSlot then Keep(OwnSlot)
    else if !rules.matches(c.name) then Keep(NameMismatch)
    else if c.active then Keep(Active)
    else if rules.retainedThreshold > 0 && c.retainedBytes <= rules.retainedThreshold then Keep(BelowThreshold)
    else if c.owner.Some? && c.owner.value.released then Drop(Released)
    else
      var lastAlive := if c.owner.Some? then c.owner.value.heartbeatAt else firstSeen;
      if now - lastAlive < rules.staleAfter then Keep(RecentHeartbeat) else Drop(StaleHeartbeat)
  }

  /** One candidate in one pass: what was fetched, when the clock was read to
      mark it and then to decide, and whether a drop would succeed. */
  datatype Sighting = Sighting(candidate: Candidate, markedAt: int, decidedAt: int, dropSucceeds: bool)

  type Marks = map<string, int>

  /** Inactive and without an owner: such a slot is timed by the cleaner itself. */
  predicate IsIdle(c: Candidate) {
    !c.active && c.owner.None?
  }

  function Observe(marks: Marks, s: Sighting): Marks {
    var name := s.candidate.name;
    if !IsIdle(s.candidate) then marks - {name}
    else if name in marks then marks
    else marks[name := s.markedAt]
  }

  /** The mark for this candidate; the zero time when it is not timed here. */
  function MarkOf(marks: Marks, s: Sighting): int {
    if !IsIdle(s.candidate) then 0
    else if s.candidate.name in marks then marks[s.candidate.name]
    else s.markedAt
  }

  predicate AsksDrop(rules: Rules, marks: Marks, s: Sighting) {
    Decide(rules, s.candidate, MarkOf(marks, s), s.decidedAt).Drop? && !rules.dryRun
  }

  function Step(rules: Rules, marks: Marks, s: Sighting): Marks {
    var observed := Observe(marks, s);
    if AsksDrop(rules, marks, s) && s.dropSucceeds then observed - {s.candidate.name} else observed
  }

  /** The marks after a sequence of sightings, over as many passes as they took. */
  function After(rules: Rules, marks: Marks, ss: seq<Sighting>): Marks {
    if ss == [] then marks else Step(rules, After(rules, marks, ss[..|ss| - 1]), ss[|ss| - 1])
  }

  /** The names the server was asked to drop, in order. */
  function Asked(rules: Rules, marks: Marks, ss: seq<Sighting>): seq<string> {
    if ss == [] then []
    else
      var front, last := ss[..|ss| - 1], ss[|ss| - 1];
      Asked(rules, marks, front) + if AsksDrop(rules, After(rules, marks, front), last) then [last.candidate.name] else []
  }

  /** Whether some drop was asked for and did not succeed. */
  predicate AnyFailed(rules: Rules, marks: Marks, ss: seq<Sighting>) {
    if ss == [] then false
    else
      var front, last := ss[..|ss| - 1], ss[|ss| - 1];
      AnyFailed(rules, marks, front) || (AsksDrop(rules, After(rules, marks, front), last) && !last.dropSucceeds)
  }

  class Cleaner {
    const rules: Rules
    var inactiveSince: Marks

    constructor (rules: Rules)
      ensures this.rules == rules && inactiveSince == map[]
    {
      this.rules, inactiveSince := rules, map[];
    }

    method ObserveInactive(s: Sighting) returns (mark: int)
      modifies this
      ensures inactiveSince == Observe(old(inactiveSince), s) && mark == MarkOf(old(inactiveSince), s)
      ensures if s.candidate.active || s.candidate.owner.Some? then mark == 0 && s.candidate.name !in inactiveSince
        else s.candidate.name in inactiveSince && mark == inactiveSince[s.candidate.name]
    {
      var name := s.candidate.name;
      if s.candidate.active || s.candidate.owner.Some? {
        inactiveSince := inactiveSince - {name};
        return 0;
      }
      if name !in inactiveSince {
        inactiveSince := inactiveSince[name := s.markedAt];
      }
      mark := inactiveSince[name];
    }

    /** A dry run asks nothing; a failed drop keeps the mark. */
    method DropSlot(s: Sighting) returns (asked: bool, failed: bool)
      modifies this
      ensures asked == !rules.dryRun && failed == (asked && !s.dropSucceeds)
      ensures inactiveSince == if asked && s.dropSucceeds then old(inactiveSince) - {s.candidate.name} else old(inactiveSince)
    {
      if rules.dryRun {
        return false, false;
      }
      if !s.dropSucceeds {
        return true, true;
      }
      inactiveSince := inactiveSince - {s.candidate.name};
      return true, false;
    }

    /** One pass; a failed fetch changes nothing. */
    method CleanupOnce(fetched: Option<seq<Sighting>>) returns (asked: seq<string>, failed: bool)
      modifies this
      ensures fetched.None? ==> failed && asked == [] && inactiveSince == old(inactiveSince)
      ensures fetched.Some? ==> inactiveSince == After(rules, old(inactiveSince), fetched.value)
      ensures fetched.Some? ==> asked == Asked(rules, old(inactiveSince), fetched.value)
      ensures fetched.Some? ==> failed == AnyFailed(rules, old(inactiveSince), fetched.value)
    {
      if fetched.None? {
        return [], true;
      }
      var ss := fetched.value;
      asked, failed := [], false;
      for i := 0 to |ss|
        invariant inactiveSince == After(rules, old(inactiveSince), ss[..i])
        invariant asked == Asked(rules, old(inactiveSince), ss[..i])
        invariant failed == AnyFailed(rules, old(inactiveSince), ss[..i])
      {
        assert ss[..i + 1][..i] == ss[..i];
        var mark := ObserveInactive(ss[i]);
        var decision := Decide(rules, ss[i].candidate, mark, ss[i].decidedAt);
        if decision.Keep? {
          continue;
        }
        var wasAsked, dropFailed := DropSlot(ss[i]);
        if wasAsked {
          asked := asked + [ss[i].candidate.name];
        }
        failed := failed || dropFailed;
      }
      assert ss[..|ss|] == ss;
    }
  }

  // ---------------------------------------------------------------------------
  // Whole runs

  /** Passes one after the other are one run over all their sightings. */
  lemma {:induction false} PassesAreOneRun(rules: Rules, marks: Marks, first: seq<Sighting>, second: seq<Sighting>)
    ensures After(rules, marks, first + second) == After(rules, After(rules, marks, first), second)
    ensures Asked(rules, marks, first + second) == Asked(rules, marks, first) + Asked(rules, After(rules, marks, first), second)
    decreases |second|
  {
    hide Step, AsksDrop;
    if second == [] {
      assert first + second == first;
    } else {
      var both, last := first + second, |second| - 1;
      assert both[..|both| - 1] == first + second[..last] && both[|both| - 1] == second[last];
      PassesAreOneRun(rules, marks, first, second[..last]);
      assert second == second[..last] + [second[last]];
    }
  }

  /** Whether the j-th sighting of a run asks for a drop, and whether the slot is
      then gone. */
  predicate AsksAt(rules: Rules, ss: seq<Sighting>, j: nat)
    requires j < |ss|
  {
    AsksDrop(rules, After(rules, map[], ss[..j]), ss[j])
  }

  predicate GoneAt(rules: Rules, ss: seq<Sighting>, j: nat)
    requires j < |ss|
  {
    AsksAt(rules, ss, j) && ss[j].dropSucceeds
  }

  /** From sighting i up to but not including n, every sighting of the slot found
      it idle and left it there. */
  ghost predicate Streak(rules: Rules, ss: seq<Sighting>, name: string, i: nat, n: nat)
    requires n <= |ss|
  {
    && i < n && ss[i].candidate.name == name
    && forall k :: i <= k < n && ss[k].candidate.name == name ==> IsIdle(ss[k].candidate) && !GoneAt(rules, ss, k)
  }

  /** The mark is the time of the streak's first sighting; without a streak
      there is none. */
  ghost predicate MarkExplained(rules: Rules, ss: seq<Sighting>, name: string, n: nat, start: nat)
    requires n <= |ss|
  {
    var marks := After(rules, map[], ss[..n]);
    if name in marks then
      && Streak(rules, ss, name, start, n) && marks[name] == ss[start].markedAt
      && forall i :: 0 <= i < start ==> !Streak(rules, ss, name, i, n)
    else forall i :: 0 <= i < n ==> !Streak(rules, ss, name, i, n)
  }

  lemma StepMarks(rules: Rules, ss: seq<Sighting>, n: nat)
    requires n < |ss|
    ensures After(rules, map[], ss[..n + 1]) == Step(rules, After(rules, map[], ss[..n]), ss[n])
  {
    assert ss[..n + 1][..n] == ss[..n];
  }

  lemma StreakShrinks(rules: Rules, ss: seq<Sighting>, name: string, i: nat, n: nat)
    requires i < n < |ss|
    ensures Streak(rules, ss, name, i, n + 1) ==> Streak(rules, ss, name, i, n)
    ensures ss[n].candidate.name != name ==> (Streak(rules, ss, name, i, n + 1) <==> Streak(rules, ss, name, i, n))
    ensures ss[n].candidate.name == name ==>
      (Streak(rules, ss, name, i, n + 1) <==> Streak(rules, ss, name, i, n) && IsIdle(ss[n].candidate) && !GoneAt(rules, ss, n))
  {
    hide GoneAt, IsIdle;
  }

  lemma OtherSlot(rules: Rules, ss: seq<Sighting>, name: string, m: nat, start: nat)
    requires m < |ss| && ss[m].candidate.name != name && MarkExplained(rules, ss, name, m, start)
    ensures MarkExplained(rules, ss, name, m + 1, start)
  {
    hide AsksDrop, Streak;
    StepMarks(rules, ss, m);
    StreakName(rules, ss, name, m);
    var n := m + 1;
    forall i | 0 <= i < m ensures Streak(rules, ss, name, i, n) <==> Streak(rules, ss, name, i, m) {
      StreakShrinks(rules, ss, name, i, m);
    }
    if name in After(rules, map[], ss[..m]) { StreakBound(rules, ss, name, start, m); }
  }

  lemma StreakName(rules: Rules, ss: seq<Sighting>, name: string, m: nat)
    requires m < |ss|
    ensures Streak(rules, ss, name, m, m + 1) <==> ss[m].candidate.name == name && IsIdle(ss[m].candidate) && !GoneAt(rules, ss, m)
  {
    hide GoneAt, IsIdle;
  }

  lemma StreakBound(rules: Rules, ss: seq<Sighting>, name: string, i: nat, n: nat)
    requires n <= |ss| && Streak(rules, ss, name, i, n)
    ensures i < n
  {
  }

  lemma SameSlot(rules: Rules, ss: seq<Sighting>, m: nat, start: nat) returns (next: nat)
    requires m < |ss| && MarkExplained(rules, ss, ss[m].candidate.name, m, start)
    ensures MarkExplained(rules, ss, ss[m].candidate.name, m + 1, next)
  {
    hide AsksDrop, Streak;
    var name := ss[m].candidate.name;
    StepMarks(rules, ss, m);
    StreakName(rules, ss, name, m);
    var n := m + 1;
    forall i | 0 <= i < m
      ensures Streak(rules, ss, name, i, n) <==> Streak(rules, ss, name, i, m) && IsIdle(ss[m].candidate) && !GoneAt(rules, ss, m)
    {
      StreakShrinks(rules, ss, name, i, m);
    }
    if name in After(rules, map[], ss[..m]) {
      StreakBound(rules, ss, name, start, m);
      next := start;
    } else {
      next := m;
    }
  }

  lemma {:induction false} MarkIsStreakStart(rules: Rules, ss: seq<Sighting>, name: string, n: nat) returns (start: nat)
    requires n <= |ss|
    ensures MarkExplained(rules, ss, name, n, start)
    decreases n
  {
    if n == 0 {
      start := 0;
    } else {
      start := MarkIsStreakStart(rules, ss, name, n - 1);
      hide MarkExplained;
      if ss[n - 1].candidate.name == name {
        start := SameSlot(rules, ss, n - 1, start);
      } else {
        OtherSlot(rules, ss, name, n - 1, start);
      }
    }
  }

  /** The clock never runs back. */
  ghost predicate Monotone(ss: seq<Sighting>) {
    && (forall i :: 0 <= i < |ss| ==> ss[i].markedAt <= ss[i].decidedAt)
    && forall i, j :: 0 <= i < j < |ss| ==> ss[i].decidedAt <= ss[j].markedAt
  }

  /** The slot was idle at sighting i and at every one of its sightings since,
      up to and including j. */
  ghost predicate IdleSince(rules: Rules, ss: seq<Sighting>, i: nat, j: nat)
    requires j < |ss|
  {
    IsIdle(ss[j].candidate) && (i == j || Streak(rules, ss, ss[j].candidate.name, i, j))
  }

  /** What every drop needs: another watcher's slot of the right name, inactive,
      retaining more than the threshold, and no dry run. */
  predicate Eligible(rules: Rules, c: Candidate) {
    && !rules.dryRun && c.name != rules.ownSlot && rules.matches(c.name) && !c.active
    && (rules.retainedThreshold == 0 || c.retainedBytes > rules.retainedThreshold)
  }

  /** Over every sequence of passes, a drop is asked for exactly when the slot is
      eligible and its owner released it or has been silent for staleAfter; a
      slot without an owner must have been idle at some sighting that long ago
      and at every one since. */
  lemma AskedIff(rules: Rules, ss: seq<Sighting>, j: nat)
    requires j < |ss| && Monotone(ss)
    ensures var s := ss[j];
      AsksAt(rules, ss, j) <==>
      && Eligible(rules, s.candidate)
      && (match s.candidate.owner
          case Some(owner) => owner.released || s.decidedAt - owner.heartbeatAt >= rules.staleAfter
          case None => exists i :: 0 <= i <= j && IdleSince(rules, ss, i, j) && s.decidedAt - ss[i].markedAt >= rules.staleAfter)
  {
    var s := ss[j];
    if s.candidate.owner.None? && !s.candidate.active {
      var start := MarkSince(rules, ss, j);
      assert AsksAt(rules, ss, j) <==> Eligible(rules, s.candidate) && s.decidedAt - ss[start].markedAt >= rules.staleAfter;
      forall i | 0 <= i <= j && IdleSince(rules, ss, i, j) ensures ss[start].markedAt <= ss[i].markedAt {
        assert start <= i;
      }
    }
  }

  /** How many of the first n sightings ask for a drop. */
  ghost function AskedBefore(rules: Rules, ss: seq<Sighting>, n: nat): nat
    requires n <= |ss|
  {
    if n == 0 then 0 else AskedBefore(rules, ss, n - 1) + if AsksAt(rules, ss, n - 1) then 1 else 0
  }

  lemma AskedNone(rules: Rules)
    ensures Asked(rules, map[], []) == []
  {
  }

  lemma AskedOne(rules: Rules, ss: seq<Sighting>, n: nat)
    requires 0 < n <= |ss|
    ensures Asked(rules, map[], ss[..n]) ==
      Asked(rules, map[], ss[..n - 1]) + if AsksAt(rules, ss, n - 1) then [ss[n - 1].candidate.name] else []
  {
    hide AsksDrop, Step;
    assert ss[..n][..n - 1] == ss[..n - 1];
  }

  /** The server is asked to drop exactly the slots sighted when a drop is asked
      for, each by its own name and in order. */
  lemma {:induction false} AskedNames(rules: Rules, ss: seq<Sighting>, n: nat)
    requires n <= |ss|
    ensures |Asked(rules, map[], ss[..n])| == AskedBefore(rules, ss, n)
    ensures forall j :: 0 <= j < n && AsksAt(rules, ss, j) ==>
      && AskedBefore(rules, ss, j) < |Asked(rules, map[], ss[..n])|
      && Asked(rules, map[], ss[..n])[AskedBefore(rules, ss, j)] == ss[j].candidate.name
  {
    hide AsksAt, Asked;
    if n == 0 {
      AskedNone(rules);
      assert ss[..0] == [];
    } else {
      AskedNames(rules, ss, n - 1);
      AskedOne(rules, ss, n);
    }
  }

  /** A pass fails exactly when a drop it asked for did not succeed. */
  lemma {:induction false} FailedIff(rules: Rules, marks: Marks, ss: seq<Sighting>)
    ensures AnyFailed(rules, marks, ss) <==> exists j :: 0 <= j < |ss| && FailsAt(rules, marks, ss, j)
    decreases |ss|
  {
    hide AsksDrop, Step;
    if ss == [] {
    } else {
      var n := |ss| - 1;
      var front := ss[..n];
      FailedIff(rules, marks, front);
      assert AnyFailed(rules, marks, ss) <==> AnyFailed(rules, marks, front) || FailsAt(rules, marks, ss, n);
      hide AnyFailed;
      forall j | 0 <= j < n ensures FailsAt(rules, marks, front, j) <==> FailsAt(rules, marks, ss, j) {
        assert front[..j] == ss[..j];
      }
      hide FailsAt;
    }
  }

  /** The sighting asked for a drop that did not succeed. */
  predicate FailsAt(rules: Rules, marks: Marks, ss: seq<Sighting>, j: nat)
    requires j < |ss|
  {
    AsksDrop(rules, After(rules, marks, ss[..j]), ss[j]) && !ss[j].dropSucceeds
  }

  /** Whatever the marks, only slots that are eligible are asked for: never the
      watcher's own, and none in a dry run. */
  lemma {:induction false} OnlyEligibleAreAsked(rules: Rules, marks: Marks, ss: seq<Sighting>, name: string)
    requires name in Asked(rules, marks, ss)
    ensures !rules.dryRun && name != rules.ownSlot && rules.matches(name)
    ensures exists s <- ss :: s.candidate.name == name && Eligible(rules, s.candidate)
    decreases |ss|
  {
    if ss == [] {
    } else {
      var front, last := ss[..|ss| - 1], ss[|ss| - 1];
      if name in Asked(rules, marks, front) {
        OnlyEligibleAreAsked(rules, marks, front, name);
      } else {
        assert last in ss;
      }
    }
  }

  /** A decision names a reason that is the case. */
  lemma ReasonIsTrue(rules: Rules, c: Candidate, firstSeen: int, now: int)
    ensures match Decide(rules, c, firstSeen, now)
      case Keep(OwnSlot) => c.name == rules.ownSlot
      case Keep(NameMismatch) => !rules.matches(c.name)
      case Keep(Active) => c.active
      case Keep(BelowThreshold) => rules.retainedThreshold > 0 && c.retainedBytes <= rules.retainedThreshold
      case Keep(RecentHeartbeat) =>
        !(c.owner.Some? && c.owner.value.released) && now < rules.staleAfter + if c.owner.Some? then c.owner.value.heartbeatAt else firstSeen
      case Drop(Released) => c.owner.Some? && c.owner.value.released
      case Drop(StaleHeartbeat) => now >= rules.staleAfter + if c.owner.Some? then c.owner.value.heartbeatAt else firstSeen
      case _ => false
  {
  }

  /** The mark a decision uses is the time of the first sighting of the idle
      spell it belongs to. */
  lemma MarkSince(rules: Rules, ss: seq<Sighting>, j: nat) returns (start: nat)
    requires j < |ss| && IsIdle(ss[j].candidate)
    ensures start <= j && IdleSince(rules, ss, start, j)
    ensures MarkOf(After(rules, map[], ss[..j]), ss[j]) == ss[start].markedAt
    ensures forall i :: 0 <= i < start ==> !IdleSince(rules, ss, i, j)
  {
    var name := ss[j].candidate.name;
    start := MarkIsStreakStart(rules, ss, name, j);
    if name !in After(rules, map[], ss[..j]) {
      start := j;
    }
  }
}
