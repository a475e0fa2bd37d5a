/** When the saved MySQL offset moves back in the binlog, exactly, over every run
    of the delivery protocol, crashes and restarts included: only a start that
    finds a dump older than the offset moves it back. */
module MySqlOrder {
  import opened SourceIds
  import opened Streams
  import opened MySqlGate
  import opened MySqlHandler
  import opened MySqlBinlog
  import opened MySqlDelivery

  /** The usable boundaries among some calls, in order. */
  function Boundaries(calls: seq<Call>): seq<Position> {
    if calls == [] then []
    else (if calls[0].Commit? && Usable(calls[0].pos) then [calls[0].pos] else []) + Boundaries(calls[1..])
  }

  function PositionsOf(commits: seq<Boundary>): (r: seq<Position>)
    ensures |r| == |commits| && forall i :: 0 <= i < |r| ==> r[i] == commits[i].pos
  {
    seq(|commits|, i requires 0 <= i < |commits| => commits[i].pos)
  }

  /** Positions to resume from, in binlog order, none before rank `low`. */
  ghost predicate Sorted(b: Binlog, low: nat, ps: seq<Position>)
    requires b.Valid()
  {
    && (forall i :: 0 <= i < |ps| ==> Resumable(b, ps[i]) && low <= Rank(b, ps[i]))
    && (forall i, j :: 0 <= i < j < |ps| ==> Rank(b, ps[i]) <= Rank(b, ps[j]))
  }

  function Kept(g: Gate): seq<Position> {
    if g.confirmable == NOWHERE then [] else [g.confirmable]
  }

  /** Every position this process may still save, in the order it may. */
  function Candidates(p: Process): seq<Position> {
    Kept(p.gate) + PositionsOf(p.gate.commits) + Boundaries(p.todo)
  }

  ghost predicate Ordered(env: Env, s: State)
    requires env.Valid()
  {
    && Resumable(env.binlog, s.offset)
    && (s.process.Some? ==> Sorted(env.binlog, Rank(env.binlog, s.offset), Candidates(s.process.value)))
  }

  lemma {:induction false} BoundariesConcat(a: seq<Call>, b: seq<Call>)
    ensures Boundaries(a + b) == Boundaries(a) + Boundaries(b)
    decreases |a|
  {
    if a == [] {
      assert a + b == b;
    } else {
      assert (a + b)[1..] == a[1..] + b;
      BoundariesConcat(a[1..], b);
    }
  }

  lemma {:induction false} NoBoundaries(calls: seq<Call>)
    requires forall k :: 0 <= k < |calls| ==> calls[k].Emit?
    ensures Boundaries(calls) == []
  {
    if calls == [] {
    } else {
      NoBoundaries(calls[1..]);
    }
  }

  lemma BoundariesOne(call: Call)
    ensures Boundaries([call]) == if call.Commit? && Usable(call.pos) then [call.pos] else []
  {
    assert [call][1..] == [];
  }

  lemma BoundariesBetween(open: Position, middle: seq<Call>, close: Position)
    requires forall k :: 0 <= k < |middle| ==> middle[k].Emit?
    ensures Boundaries([Commit(open)] + middle + [Commit(close)])
         == (if Usable(open) then [open] else []) + (if Usable(close) then [close] else [])
  {
    BoundariesConcat([Commit(open)] + middle, [Commit(close)]);
    BoundariesConcat([Commit(open)], middle);
    BoundariesOne(Commit(open));
    BoundariesOne(Commit(close));
    NoBoundaries(middle);
  }

  lemma StartIsResumable(b: Binlog, j: nat)
    requires b.Valid() && j < |b.groups|
    ensures Resumable(b, Position(b.Name(b.groups[j].file), b.groups[j].start))
  {
    hide FirstAtOrAfter, Rank;
    StartIndex(b, j);
    assert b.ValidGroup(b.groups[j]);
  }

  lemma EndIsResumable(b: Binlog, j: nat)
    requires b.Valid() && j < |b.groups|
    ensures Resumable(b, EndPosition(b, j))
  {
    hide FirstAtOrAfter, Rank;
    EndIndex(b, j);
    assert b.ValidGroup(b.groups[j]);
  }

  /** A group offers its start and its end, and nothing else. */
  lemma GroupBoundaries(b: Binlog, j: nat)
    requires b.Valid() && j < |b.groups|
    ensures Sorted(b, StartRank(b.groups[j]), Boundaries(Produced(b, b.groups[j])))
    ensures forall i :: 0 <= i < |Boundaries(Produced(b, b.groups[j]))| ==>
      Rank(b, Boundaries(Produced(b, b.groups[j]))[i]) <= Rank(b, EndPosition(b, j))
  {
    hide Boundaries, FirstAtOrAfter, RowsProduced;
    var g := b.groups[j];
    var file := b.Name(g.file);
    var start, end := Position(file, g.start), EndPosition(b, j);
    StartIndex(b, j);
    EndIndex(b, j);
    StartIsResumable(b, j);
    EndIsResumable(b, j);
    hide Rank, Resumable;
    match g.body
    case Transaction(compressed, rows) =>
      RowsOnlyEmit(file, g, rows, |rows|);
      BoundariesBetween(start, RowsProduced(file, g, rows, |rows|) + [TXN_END], if compressed then Position(file, 0) else end);
    case Statement =>
      var ddl := Emit(Emitted(Some(MySqlDdl(file, g.end)), true));
      BoundariesBetween(start, [ddl], end);
      assert Produced(b, g) == [Commit(start)] + [ddl] + [Commit(end)];
    case RotateToNext =>
      BoundariesOne(Commit(end));
      assert Produced(b, g) == [Commit(end)];
  }

  lemma EndBeforeNextStart(b: Binlog, j: nat)
    requires b.Valid() && j + 1 < |b.groups|
    ensures Rank(b, EndPosition(b, j)) <= StartRank(b.groups[j + 1])
  {
    GroupsInOrder(b, j, j + 1);
    FileNoOf(b.files, b.NextFile(b.groups[j]));
    assert b.ValidGroup(b.groups[j + 1]);
  }

  lemma SortedConcat(b: Binlog, low: nat, xs: seq<Position>, middle: nat, ys: seq<Position>)
    requires b.Valid() && low <= middle && Sorted(b, low, xs) && Sorted(b, middle, ys)
    requires forall i :: 0 <= i < |xs| ==> Rank(b, xs[i]) <= middle
    ensures Sorted(b, low, xs + ys)
  {
    hide Rank;
  }

  lemma {:induction false} AllBoundariesSorted(b: Binlog, j: nat)
    requires b.Valid() && j < |b.groups|
    ensures Sorted(b, StartRank(b.groups[j]), Boundaries(ProducedFrom(b, j)))
    decreases |b.groups| - j
  {
    hide Boundaries;
    hide Produced;
    hide Rank;
    var here, later := Produced(b, b.groups[j]), ProducedFrom(b, j + 1);
    assert ProducedFrom(b, j) == here + later;
    BoundariesConcat(here, later);
    GroupBoundaries(b, j);
    if j + 1 < |b.groups| {
      AllBoundariesSorted(b, j + 1);
      EndBeforeNextStart(b, j);
      GroupsInOrder(b, j, j + 1);
      SortedConcat(b, StartRank(b.groups[j]), Boundaries(here), StartRank(b.groups[j + 1]), Boundaries(later));
    } else {
      assert later == [];
      BoundariesConcat(here, later);
      NoBoundaries([]);
    }
  }

  lemma RestSorted(env: Env, offset: Position)
    requires env.Valid() && Resumable(env.binlog, offset)
    ensures Sorted(env.binlog, Rank(env.binlog, offset), Boundaries(ProducedFrom(env.binlog, ResumeIndex(env.binlog, offset))))
  {
    hide Boundaries;
    hide Rank;
    var b := env.binlog;
    var r := ResumeIndex(b, offset);
    if r < |b.groups| {
      AllBoundariesSorted(b, r);
    } else {
      NoBoundaries([]);
    }
  }

  lemma SortedBefore(b: Binlog, first: Position, rest: seq<Position>)
    requires b.Valid() && Resumable(b, first) && Sorted(b, Rank(b, first), rest)
    ensures Sorted(b, Rank(b, first), [first] + rest)
  {
    hide Rank;
  }

  lemma StartCandidates(env: Env, offset: Position)
    requires env.Valid() && Resumable(env.binlog, offset)
    ensures Candidates(NewProcess(env, offset)) == [offset] + Boundaries(ProducedFrom(env.binlog, ResumeIndex(env.binlog, offset)))
  {
    hide Boundaries, Program, ProducedFrom, FirstAtOrAfter, KnowsFile, Binlog.Valid, Rank;
    var calls := ProducedFrom(env.binlog, ResumeIndex(env.binlog, offset));
    ProgramFrom(env, offset);
    BoundariesConcat([Commit(offset)], calls);
    BoundariesOne(Commit(offset));
  }

  lemma StartOrdered(env: Env, offset: Position)
    requires env.Valid() && Resumable(env.binlog, offset)
    ensures Sorted(env.binlog, Rank(env.binlog, offset), Candidates(NewProcess(env, offset)))
  {
    hide Boundaries, Rank, ProducedFrom, FirstAtOrAfter, Good, Sorted, Candidates, NewProcess;
    RestSorted(env, offset);
    StartCandidates(env, offset);
    SortedBefore(env.binlog, offset, Boundaries(ProducedFrom(env.binlog, ResumeIndex(env.binlog, offset))));
  }

  lemma SortedWithout(b: Binlog, low: nat, xs: seq<Position>, i: nat, ys: seq<Position>)
    requires b.Valid() && Sorted(b, low, xs) && i < |xs| && ys == xs[..i] + xs[i + 1..]
    ensures Sorted(b, low, ys)
  {
    hide Rank;
  }

  lemma BoundariesHead(todo: seq<Call>)
    requires todo != []
    ensures Boundaries(todo) == (if todo[0].Commit? && Usable(todo[0].pos) then [todo[0].pos] else []) + Boundaries(todo[1..])
  {
  }

  /** Recording a boundary moves it from the program to the queue, in place of
      the last entry if that waits on the same events. */
  lemma RecordOrdered(b: Binlog, g: Gate, pos: Position, rest: seq<Position>, low: nat)
    requires b.Valid() && Usable(pos) && Sorted(b, low, Kept(g) + PositionsOf(g.commits) + ([pos] + rest))
    ensures Sorted(b, low, Kept(g) + PositionsOf(g.Committed(pos).commits) + rest)
  {
    hide Sorted;
    var kept, before, after := Kept(g), PositionsOf(g.commits), PositionsOf(g.Committed(pos).commits);
    var all := kept + before + ([pos] + rest);
    if |after| == |before| {
      var last := |before| - 1;
      assert after == before[..last] + [pos];
      assert kept + after + rest == all[..|kept| + last] + all[|kept| + last + 1..];
      SortedWithout(b, low, all, |kept| + last, kept + after + rest);
    } else {
      assert after == before + [pos];
      assert kept + after + rest == all;
    }
  }

  lemma CallOrdered(env: Env, p: Process, low: nat)
    requires env.Valid() && Sorted(env.binlog, low, Candidates(p)) && p.todo != []
    ensures Sorted(env.binlog, low, Candidates(CallStep(p)))
  {
    hide Sorted;
    hide Boundaries;
    var p' := CallStep(p);
    var head, rest := p.todo[0], Boundaries(p.todo[1..]);
    BoundariesHead(p.todo);
    if head.Commit? && Usable(head.pos) {
      assert Candidates(p) == Kept(p.gate) + PositionsOf(p.gate.commits) + ([head.pos] + rest);
      RecordOrdered(env.binlog, p.gate, head.pos, rest, low);
      assert Candidates(p') == Kept(p.gate) + PositionsOf(p'.gate.commits) + rest;
    } else {
      assert Boundaries(p.todo) == rest;
      assert p'.gate == p.gate;
      assert Candidates(p') == Candidates(p);
    }
  }

  lemma CutConcat<T>(xs: seq<T>, rest: seq<T>, cut: nat)
    requires cut <= |xs|
    ensures (xs + rest)[cut..] == xs[cut..] + rest
  {
  }

  lemma CutAll<T>(kept: seq<T>, all: seq<T>, k: nat)
    requires 0 < k <= |all|
    ensures (kept + all)[|kept| + k..] == all[k..]
    ensures (kept + all)[|kept| + k - 1..] == [all[k - 1]] + all[k..]
  {
  }

  lemma JoinNothing<T>(xs: seq<T>)
    ensures [] + xs == xs
  {
  }

  lemma PositionsOfRest(commits: seq<Boundary>, k: nat)
    requires k <= |commits|
    ensures PositionsOf(commits[k..]) == PositionsOf(commits)[k..]
  {
  }

  /** Settling drops the oldest positions the gate holds, and only those. */
  lemma SettledQueue(g: Gate) returns (cut: nat)
    ensures cut <= |Kept(g) + PositionsOf(g.commits)|
    ensures Kept(g.Settle()) + PositionsOf(g.Settle().commits) == (Kept(g) + PositionsOf(g.commits))[cut..]
  {
    hide SettledCount, PositionsOf;
    var k := SettledCount(g.commits, g.Acked());
    PositionsOfRest(g.commits, k);
    if k == 0 {
      cut := 0;
    } else {
      var kept, all := Kept(g), PositionsOf(g.commits);
      assert all[k - 1] == g.commits[k - 1].pos == g.Settle().confirmable;
      CutAll(kept, all, k);
      if all[k - 1] == NOWHERE {
        cut := |kept| + k;
        JoinNothing(all[k..]);
      } else {
        cut := |kept| + k - 1;
      }
    }
  }

  lemma SettledCandidates(p: Process) returns (cut: nat)
    ensures cut <= |Candidates(p)|
    ensures Candidates(p.(gate := p.gate.Settle())) == Candidates(p)[cut..]
  {
    hide Boundaries, Kept, PositionsOf, Gate.Settle;
    cut := SettledQueue(p.gate);
    CutConcat(Kept(p.gate) + PositionsOf(p.gate.commits), Boundaries(p.todo), cut);
  }

  lemma SortedSuffix(b: Binlog, low: nat, xs: seq<Position>, cut: nat)
    requires b.Valid() && Sorted(b, low, xs) && cut <= |xs|
    ensures Sorted(b, low, xs[cut..])
    ensures cut < |xs| ==> Resumable(b, xs[cut]) && low <= Rank(b, xs[cut]) && Sorted(b, Rank(b, xs[cut]), xs[cut..])
  {
    hide Rank;
  }

  lemma SaveOrdered(env: Env, s: State, p: Process, written: bool)
    requires env.Valid() && s.process == Some(p) && Ordered(env, s)
    ensures Ordered(env, SaveStep(s, p, written))
    ensures Rank(env.binlog, s.offset) <= Rank(env.binlog, SaveStep(s, p, written).offset)
  {
    hide Rank;
    hide Sorted;
    var g := p.gate.Settle();
    var cut := SettledCandidates(p);
    SortedSuffix(env.binlog, Rank(env.binlog, s.offset), Candidates(p), cut);
    assert Candidates(p.(gate := g, saved := g.confirmable)) == Candidates(p.(gate := g));
    if g.confirmable.file != "" {
      assert Candidates(p.(gate := g))[0] == g.confirmable;
    }
  }

  /** A start goes on from the offset or from the dump. */
  lemma RestartOrdered(env: Env, s: State, dump: Option<Position>)
    requires env.Valid() && Ordered(env, s) && Next(env, s, Start(dump)).Some?
    ensures Ordered(env, Next(env, s, Start(dump)).value)
    ensures Next(env, s, Start(dump)).value.offset == if dump.Some? then dump.value else s.offset
  {
    hide Rank, Sorted, Candidates, NewProcess, Resumable;
    StartOrdered(env, StartOffset(s.offset, dump));
    if dump.Some? {
      DumpHasAFile(env, dump.value);
    }
  }

  /** Rank of the offset after some steps. */
  function OffsetRank(env: Env, steps: seq<Step>): nat
    requires env.Valid() && Run(env, steps).Some?
  {
    Rank(env.binlog, Run(env, steps).value.offset)
  }

  /** The other steps leave the offset and the gate's positions alone. */
  lemma OtherOrdered(env: Env, s: State, step: Step)
    requires env.Valid() && Ordered(env, s) && Next(env, s, step).Some?
    requires !step.Start? && !step.Save? && !step.NextCall? && !step.Crash?
    ensures Ordered(env, Next(env, s, step).value) && Next(env, s, step).value.offset == s.offset
  {
    hide Rank, Sorted, Resumable, Env.Valid, MessageOf;
    var p, p' := s.process.value, ProcessStep(env, s.process.value, step).value;
    assert Candidates(p') == Candidates(p) by {
      hide Boundaries, PositionsOf;
    }
    hide ProcessStep, Candidates;
  }

  lemma StepOrdered(env: Env, s: State, step: Step)
    requires env.Valid() && Ordered(env, s) && Next(env, s, step).Some?
    ensures Ordered(env, Next(env, s, step).value)
    ensures DumpOf(step).None? ==> Rank(env.binlog, s.offset) <= Rank(env.binlog, Next(env, s, step).value.offset)
    ensures DumpOf(step).Some? ==> Next(env, s, step).value.offset == DumpOf(step).value
  {
    hide Rank, Sorted, Resumable, Env.Valid, Candidates, CallStep, SaveStep;
    match step
    case Start(dump) =>
      hide Next, Ordered;
      RestartOrdered(env, s, dump);
    case Save(written) => SaveOrdered(env, s, s.process.value, written);
    case NextCall => CallOrdered(env, s.process.value, Rank(env.binlog, s.offset));
    case Crash =>
    case _ =>
      hide Next, Ordered;
      OtherOrdered(env, s, step);
  }

  lemma DumpHasAFile(env: Env, d: Position)
    requires env.Valid() && d in env.dumps
    ensures d.file != ""
  {
  }

  lemma {:induction false} RunOrdered(env: Env, steps: seq<Step>)
    requires env.Valid() && Run(env, steps).Some?
    ensures Ordered(env, Run(env, steps).value)
  {
    hide Rank, Next, Resumable;
    if steps == [] {
    } else {
      RunOrdered(env, steps[..|steps| - 1]);
      StepOrdered(env, Run(env, steps[..|steps| - 1]).value, steps[|steps| - 1]);
    }
  }

  /** No start of the run finds a dump older than the offset at that time. */
  ghost predicate NoOlderDumpFound(env: Env, steps: seq<Step>)
    requires env.Valid() && Run(env, steps).Some?
  {
    if steps == [] then true
    else
      var front, last := steps[..|steps| - 1], steps[|steps| - 1];
      NoOlderDumpFound(env, front) && (DumpOf(last).Some? ==> OffsetRank(env, front) <= Rank(env.binlog, DumpOf(last).value))
  }

  /** While no start finds an older dump, the offset never moves back. */
  lemma {:induction false} OffsetNeverMovesBack(env: Env, steps: seq<Step>, k: nat)
    requires env.Valid() && Run(env, steps).Some? && k <= |steps| && NoOlderDumpFound(env, steps)
    ensures Run(env, steps[..k]).Some? && OffsetRank(env, steps[..k]) <= OffsetRank(env, steps)
    decreases |steps|
  {
    hide Rank, Next;
    if k == |steps| {
      assert steps[..k] == steps;
    } else {
      var front := steps[..|steps| - 1];
      assert front[..k] == steps[..k];
      OffsetNeverMovesBack(env, front, k);
      RunOrdered(env, front);
      StepOrdered(env, Run(env, front).value, steps[|steps| - 1]);
    }
  }

  /** The offset after k steps is not behind any it had before. */
  ghost predicate NeverMovedBack(env: Env, steps: seq<Step>)
    requires env.Valid() && Run(env, steps).Some?
  {
    forall j, k :: 0 <= j <= k <= |steps| && Run(env, steps[..j]).Some? && Run(env, steps[..k]).Some? ==>
      OffsetRank(env, steps[..j]) <= OffsetRank(env, steps[..k])
  }

  lemma {:induction false} PrefixFindsNone(env: Env, steps: seq<Step>, k: nat)
    requires env.Valid() && Run(env, steps).Some? && k <= |steps| && NoOlderDumpFound(env, steps)
    ensures Run(env, steps[..k]).Some? && NoOlderDumpFound(env, steps[..k])
    decreases |steps|
  {
    hide Rank, Next;
    if k == |steps| {
      assert steps[..k] == steps;
    } else {
      var front := steps[..|steps| - 1];
      assert front[..k] == steps[..k];
      PrefixFindsNone(env, front, k);
    }
  }

  lemma {:induction false} NeverMovedBackFindsNone(env: Env, steps: seq<Step>)
    requires env.Valid() && Run(env, steps).Some? && NeverMovedBack(env, steps)
    ensures NoOlderDumpFound(env, steps)
    decreases |steps|
  {
    hide Rank, Next;
    if steps == [] {
    } else {
      var n := |steps| - 1;
      var front := steps[..n];
      forall j, k | 0 <= j <= k <= n && Run(env, front[..j]).Some? && Run(env, front[..k]).Some?
        ensures OffsetRank(env, front[..j]) <= OffsetRank(env, front[..k])
      {
        assert front[..j] == steps[..j] && front[..k] == steps[..k];
      }
      NeverMovedBackFindsNone(env, front);
      assert steps[..n + 1] == steps;
      RunOrdered(env, front);
      StepOrdered(env, Run(env, front).value, steps[n]);
    }
  }

  /** In every run, crashes and restarts included, the saved offset moves back in
      binlog order if and only if some start finds a dump that is older than the
      offset saved at that time. */
  lemma MovesBackIff(env: Env, steps: seq<Step>)
    requires env.Valid() && Run(env, steps).Some?
    ensures NeverMovedBack(env, steps) <==> NoOlderDumpFound(env, steps)
  {
    hide OffsetRank, Run, NoOlderDumpFound;
    if NoOlderDumpFound(env, steps) {
      forall j, k | 0 <= j <= k <= |steps| && Run(env, steps[..j]).Some? && Run(env, steps[..k]).Some?
        ensures OffsetRank(env, steps[..j]) <= OffsetRank(env, steps[..k])
      {
        PrefixFindsNone(env, steps, k);
        assert steps[..k][..j] == steps[..j];
        OffsetNeverMovesBack(env, steps[..k], j);
      }
    } else if NeverMovedBack(env, steps) {
      NeverMovedBackFindsNone(env, steps);
    }
  }
}
