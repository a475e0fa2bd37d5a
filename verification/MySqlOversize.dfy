/** When the MySQL protocol loses a change, exactly, and that it can always
    finish.

    The publisher gives up on an event that fits the stream in no form, and the
    gate counts acks without asking whose they are. So the acks of later events
    make up for the missing one, and the offset may pass it. A restart does not
    change the sum: what was confirmed before is acked as often as it counts. */
module MySqlOversize {
  import opened SourceIds
  import opened Streams
  import opened MySqlGate
  import opened MySqlHandler
  import opened MySqlBinlog
  import opened MySqlDelivery

  /** Everything before the saved offset is stored. */
  ghost predicate Lossless(env: Env, s: State)
    requires env.Valid()
  {
    forall k :: 0 <= k < |Wanted(env)| && k < Need(env, s.offset) ==> MessageOf(env, Wanted(env)[k]) in s.stream
  }

  // ---------------------------------------------------------------------------
  // Without an overtaken boundary nothing is lost

  lemma {:induction false} FullCountMeansAllFit(env: Env, k: nat, i: nat)
    requires env.Valid() && i < k <= |Wanted(env)| && Count(env, k) == k
    ensures env.Fits(Wanted(env)[i])
    decreases k
  {
    hide Count, Wanted;
    CountNext(env, k - 1);
    CountIsSmall(env, k - 1);
    if i == k - 1 {
    } else {
      FullCountMeansAllFit(env, k - 1, i);
    }
  }

  /** A strict run is a careful one. */
  lemma {:induction false} StrictIsCareful(env: Env, steps: seq<Step>)
    requires env.Valid() && Careful(env, true, steps)
    ensures Careful(env, false, steps)
  {
    hide Run, Wanted, Need, Good;
    if steps == [] {
    } else {
      StrictIsCareful(env, steps[..|steps| - 1]);
    }
  }

  lemma NotOvertakenIsLossless(env: Env, steps: seq<Step>)
    requires env.Valid() && !Overtaken(env) && Run(env, steps).Some? && Careful(env, true, steps)
    ensures Lossless(env, Run(env, steps).value)
  {
    hide Wanted, Count, Need, Overtaken, Run, Careful;
    var s := Run(env, steps).value;
    var w := RunOk(env, steps, true);
    StrictIsCareful(env, steps);
    forall k | 0 <= k < |Wanted(env)| && k < Need(env, s.offset) ensures MessageOf(env, Wanted(env)[k]) in s.stream {
      FullCountMeansAllFit(env, Need(env, s.offset), k);
      NothingBeforeTheOffsetIsLost(env, steps, k);
    }
  }

  // ---------------------------------------------------------------------------
  // Building runs

  lemma Append(env: Env, steps: seq<Step>, step: Step)
    requires env.Valid() && Run(env, steps).Some?
    ensures Run(env, steps + [step]) == Next(env, Run(env, steps).value, step)
  {
    assert (steps + [step])[..|steps|] == steps;
  }

  /** The publisher is at work. */
  predicate Alive(p: Process) {
    p.running && !p.ended
  }

  /** Nothing under way: no event on the bus, none half handed over. */
  predicate Calm(p: Process) {
    Alive(p) && !p.handing && p.bus == []
  }

  /** What the publisher does with the event at the head of the bus. */
  function HeadStep(env: Env, event: BusEvent): Step {
    if event.Other? then SkipOther
    else if env.Fits(event.id) then Publish(true, true)
    else SkipOversized
  }

  /** Bus and acks moved on; the callbacks' side is as it was. */
  ghost predicate PublisherWentOn(s: State, p: Process, s': State, p': Process) {
    && s'.process == Some(p') && s'.offset == s.offset && Alive(p') && p'.handing == p.handing
    && p'.todo == p.todo && p'.saved == p.saved && p'.gate == p.gate.(acked := p'.gate.acked)
  }

  lemma HeadIsDone(env: Env, steps: seq<Step>, s: State, p: Process) returns (s': State, p': Process)
    requires env.Valid() && Run(env, steps) == Some(s) && s.process == Some(p) && Alive(p) && p.bus != []
    ensures Run(env, steps + [HeadStep(env, p.bus[0])]) == Some(s')
    ensures PublisherWentOn(s, p, s', p') && p'.bus == p.bus[1..]
  {
    hide Run;
    var step := HeadStep(env, p.bus[0]);
    Append(env, steps, step);
    s' := Next(env, s, step).value;
    p' := s'.process.value;
  }

  /** The steps go on without taking the process down, and without a dump. */
  ghost predicate NoCrash(steps: seq<Step>, steps': seq<Step>) {
    NoDump(steps, steps') && forall k :: |steps| <= k < |steps'| ==> !steps'[k].Crash?
  }

  ghost predicate NoDump(steps: seq<Step>, steps': seq<Step>) {
    steps <= steps' && forall k :: |steps| <= k < |steps'| ==> DumpOf(steps'[k]).None?
  }

  /** Going on without a dump skips nothing. */
  lemma {:induction false} StaysCareful(env: Env, strict: bool, steps: seq<Step>, steps': seq<Step>)
    requires env.Valid() && Careful(env, strict, steps) && NoDump(steps, steps')
    ensures Careful(env, strict, steps')
    decreases |steps'|
  {
    hide Run, Covered;
    if steps' == steps {
    } else {
      var front := steps'[..|steps'| - 1];
      assert steps <= front;
      StaysCareful(env, strict, steps, front);
    }
  }

  lemma {:induction false} Drain(env: Env, steps: seq<Step>, s: State, p: Process) returns (steps': seq<Step>, s': State, p': Process)
    requires env.Valid() && Run(env, steps) == Some(s) && s.process == Some(p) && Alive(p)
    ensures Run(env, steps') == Some(s') && NoCrash(steps, steps') && PublisherWentOn(s, p, s', p') && p'.bus == []
    decreases |p.bus|
  {
    hide Run;
    if p.bus == [] {
      steps', s', p' := steps, s, p;
    } else {
      var next, q := HeadIsDone(env, steps, s, p);
      steps', s', p' := Drain(env, steps + [HeadStep(env, p.bus[0])], next, q);
    }
  }

  lemma CountOne(env: Env, steps: seq<Step>, s: State, p: Process) returns (s': State)
    requires env.Valid() && Run(env, steps) == Some(s) && s.process == Some(p) && p.handing
    ensures Run(env, steps + [CountHanded]) == Some(s')
    ensures s' == s.(process := Some(p.(gate := p.gate.Hand(), handing := false)))
  {
    hide Run;
    Append(env, steps, CountHanded);
    s' := s.(process := Some(p.(gate := p.gate.Hand(), handing := false)));
  }

  /** The gate after a call: a boundary recorded, or one more handed over. */
  function GateAfter(g: Gate, call: Call): Gate {
    if call.Commit? then g.Committed(call.pos) else if NameOf(call) == [] then g else g.Hand()
  }

  /** One call, its event counted and dealt with. */
  ghost predicate CallDone(s: State, p: Process, s': State, p': Process)
    requires p.todo != []
  {
    && s'.process == Some(p') && s'.offset == s.offset && Calm(p') && p'.todo == p.todo[1..] && p'.saved == p.saved
    && p'.gate == GateAfter(p.gate, p.todo[0]).(acked := p'.gate.acked)
  }

  lemma CallIsHandled(env: Env, steps: seq<Step>, s: State, p: Process) returns (steps': seq<Step>, s': State, p': Process)
    requires env.Valid() && Run(env, steps) == Some(s) && s.process == Some(p) && Calm(p) && p.todo != []
    ensures Run(env, steps') == Some(s') && NoCrash(steps, steps') && CallDone(s, p, s', p')
  {
    hide Run;
    Append(env, steps, NextCall);
    steps', p' := steps + [NextCall], CallStep(p);
    s' := s.(process := Some(p'));
    if p'.handing {
      s' := CountOne(env, steps', s', p');
      steps', p' := steps' + [CountHanded], s'.process.value;
    }
    ghost var called := p';
    var more;
    more, s', p' := Drain(env, steps', s', p');
    steps' := more;
    assert called.gate == GateAfter(p.gate, p.todo[0]);
  }

  function GateAfterAll(g: Gate, calls: seq<Call>): Gate
    decreases |calls|
  {
    if calls == [] then g else GateAfterAll(GateAfter(g, calls[0]), calls[1..])
  }

  /** The acks run beside the callbacks and do not touch what they record. */
  lemma {:induction false} AcksBeside(g: Gate, acked: nat, calls: seq<Call>)
    ensures GateAfterAll(g.(acked := acked), calls) == GateAfterAll(g, calls).(acked := acked)
    ensures GateAfterAll(g, calls).acked == g.acked
    decreases |calls|
  {
    if calls == [] {
    } else {
      AcksBeside(GateAfter(g, calls[0]), acked, calls[1..]);
      assert GateAfter(g.(acked := acked), calls[0]) == GateAfter(g, calls[0]).(acked := acked);
    }
  }

  /** Every call in turn, until there is nothing left to do. */
  lemma {:induction false} AllCalls(env: Env, steps: seq<Step>, s: State, p: Process) returns (steps': seq<Step>, s': State, p': Process)
    requires env.Valid() && Run(env, steps) == Some(s) && s.process == Some(p) && Calm(p)
    ensures Run(env, steps') == Some(s') && NoCrash(steps, steps')
    ensures s'.process == Some(p') && s'.offset == s.offset && Calm(p') && p'.todo == [] && p'.saved == p.saved
    ensures p'.gate == GateAfterAll(p.gate, p.todo).(acked := p'.gate.acked)
    decreases |p.todo|
  {
    hide Run, Calm;
    if p.todo == [] {
      steps', s', p' := steps, s, p;
    } else {
      var one, next, q := CallIsHandled(env, steps, s, p);
      steps', s', p' := AllCalls(env, one, next, q);
      AcksBeside(GateAfter(p.gate, p.todo[0]), q.gate.acked, p.todo[1..]);
    }
  }

  lemma NoDumpIsCareful(env: Env, steps: seq<Step>)
    requires env.Valid() && NoDump([], steps)
    ensures Careful(env, false, steps)
  {
    hide Run, Covered;
    assert Careful(env, false, []);
    StaysCareful(env, false, [], steps);
  }

  // ---------------------------------------------------------------------------
  // What the gate holds when all is done

  ghost predicate Tidy(g: Gate) {
    Increasing(g.commits) && forall i :: 0 <= i < |g.commits| ==> g.commits[i].lastHanded <= g.handed
  }

  ghost predicate Recorded(g: Gate, h: nat) {
    exists i :: 0 <= i < |g.commits| && g.commits[i].lastHanded == h
  }

  lemma GateStep(g: Gate, call: Call)
    requires Tidy(g)
    ensures var g' := GateAfter(g, call);
      && Tidy(g') && g'.handed == g.handed + |NameOf(call)| && g'.gated == g.gated && g'.confirmable == g.confirmable
      && (IsBoundary(call) ==> Recorded(g', g.handed))
      && forall h: nat :: Recorded(g, h) ==> Recorded(g', h)
  {
    var g' := GateAfter(g, call);
    forall h: nat | Recorded(g, h) ensures Recorded(g', h) {
      var i :| 0 <= i < |g.commits| && g.commits[i].lastHanded == h;
      assert g'.commits[i].lastHanded == h;
    }
    if IsBoundary(call) {
      assert g'.commits[|g'.commits| - 1].lastHanded == g.handed;
    }
  }

  /** Every usable boundary among the calls leaves its entry. */
  lemma {:induction false} GateSteps(g: Gate, calls: seq<Call>)
    requires Tidy(g)
    ensures var g' := GateAfterAll(g, calls);
      && Tidy(g') && g'.handed == g.handed + |Names(calls)| && g'.gated == g.gated && g'.confirmable == g.confirmable
      && (forall h: nat :: Recorded(g, h) ==> Recorded(g', h))
      && forall i :: 0 <= i < |calls| && IsBoundary(calls[i]) ==> Recorded(g', g.handed + |Names(calls[..i])|)
    decreases |calls|
  {
    hide Tidy, Recorded, Names, GateAfter;
    if calls == [] {
      NoNames();
    } else {
      var next, rest := GateAfter(g, calls[0]), calls[1..];
      GateStep(g, calls[0]);
      GateSteps(next, rest);
      assert calls == [calls[0]] + rest;
      NamesOfRest(calls[0], rest);
      forall i | 0 <= i < |calls| && IsBoundary(calls[i]) ensures Recorded(GateAfterAll(g, calls), g.handed + |Names(calls[..i])|) {
        if i == 0 {
          assert calls[..0] == [];
          NoNames();
        } else {
          assert calls[..i] == [calls[0]] + rest[..i - 1];
          NamesOfRest(calls[0], rest[..i - 1]);
        }
      }
    }
  }

  lemma NoNames()
    ensures Names([]) == []
  {
  }

  lemma IdleProgress(env: Env, p: Process, w: Progress)
    requires env.Valid() && ProcessOk(env, p, w) && Calm(p) && p.todo == []
    ensures w.n == |Wanted(env)| && w.done == p.gate.handed && w.start + p.gate.handed == |Wanted(env)|
    ensures p.gate.acked == Count(env, |Wanted(env)|) - Count(env, w.start)
  {
    hide Names, ProducedFrom, CommitsOk, SettledOk, Clean, Count, Good, Need;
    assert Calls(env)[..w.at] == Calls(env);
  }

  /** With nothing left to do and nothing under way, everything that fits is
      stored, and the acks are as many. */
  lemma IdleMeansAllStored(env: Env, steps: seq<Step>, p: Process)
    requires env.Valid() && Run(env, steps).Some? && Careful(env, false, steps)
    requires Run(env, steps).value.process == Some(p) && Calm(p) && p.todo == []
    ensures forall m <- WantedStream(env) :: m in Run(env, steps).value.stream
    ensures p.gate.handed <= |Wanted(env)|
    ensures p.gate.acked == Count(env, |Wanted(env)|) - Count(env, |Wanted(env)| - p.gate.handed)
    ensures p.gate.gated && CommitsOk(env, p.gate, |Wanted(env)| - p.gate.handed)
  {
    hide Run, WantedStream, Wanted, Count, CommitsOk, SettledOk, TodoOk, Clean, Calm, Confirmed, Careful, Overtaken;
    var w := RunOk(env, steps, false);
    IdleProgress(env, p, w);
    EverythingFits(env);
    assert WantedStream(env)[..Count(env, w.n)] == WantedStream(env);
  }

  lemma EverythingFits(env: Env)
    requires env.Valid()
    ensures |WantedStream(env)| == Count(env, |Wanted(env)|)
  {
    hide Wanted;
    assert Wanted(env)[..|Wanted(env)|] == Wanted(env);
  }

  // ---------------------------------------------------------------------------
  // An overtaken boundary loses

  lemma FreshStart(env: Env, steps: seq<Step>, s: State) returns (s': State)
    requires env.Valid() && Run(env, steps) == Some(s) && s.process.None?
    ensures Run(env, steps + [Start(None)]) == Some(s')
    ensures s' == s.(process := Some(NewProcess(env, s.offset))) && Calm(s'.process.value)
  {
    hide Run, Program;
    Append(env, steps, Start(None));
    s' := s.(process := Some(NewProcess(env, s.offset)));
  }

  lemma SettledReaches(g: Gate, h: nat) returns (i: nat)
    requires g.gated && Tidy(g) && Recorded(g, h) && h <= g.acked
    ensures i < |g.commits| && g.commits[i].lastHanded >= h && g.Settle().confirmable == g.commits[i].pos
  {
    var k := SettledCount(g.commits, g.acked);
    var j :| 0 <= j < |g.commits| && g.commits[j].lastHanded == h;
    i := k - 1;
  }

  lemma SavesConfirmable(s: State, p: Process)
    requires s.process == Some(p) && p.saved == NOWHERE && Usable(p.gate.Settle().confirmable)
    ensures SaveStep(s, p, true).offset == p.gate.Settle().confirmable && SaveStep(s, p, true).stream == s.stream
  {
    hide SettledCount;
  }

  /** What Save writes: the last entry the acks reach. */
  lemma SaveReaches(env: Env, steps: seq<Step>, s: State, p: Process, h: nat) returns (s': State)
    requires env.Valid() && Run(env, steps) == Some(s) && s.process == Some(p) && p.saved == NOWHERE
    requires p.gate.gated && Tidy(p.gate) && Recorded(p.gate, h) && h <= p.gate.acked
    requires forall i :: 0 <= i < |p.gate.commits| ==> Usable(p.gate.commits[i].pos)
    ensures Run(env, steps + [Step.Save(true)]) == Some(s') && s'.stream == s.stream
    ensures exists i :: 0 <= i < |p.gate.commits| && p.gate.commits[i].lastHanded >= h && s'.offset == p.gate.commits[i].pos
  {
    hide Run, SaveStep;
    Append(env, steps, Step.Save(true));
    s' := SaveStep(s, p, true);
    var i := SettledReaches(p.gate, h);
    SavesConfirmable(s, p);
  }

  /** The whole binlog from the initial offset, and then a save. */
  lemma WholeRun(env: Env) returns (steps: seq<Step>, s: State, p: Process)
    requires env.Valid()
    ensures Run(env, steps) == Some(s) && s.process == Some(p) && Calm(p) && p.todo == [] && p.saved == NOWHERE
    ensures NoDump([], steps)
    ensures p.gate.gated && Tidy(p.gate) && p.gate.handed == |Wanted(env)|
    ensures forall i :: 0 <= i < |Calls(env)| && IsBoundary(Calls(env)[i]) ==> Recorded(p.gate, |Names(Calls(env)[..i])|)
  {
    hide Calls, Names, Calm, Program, Need, Good, Recorded, GateAfterAll, Tidy, Run;
    RunsFromInit(env);
    s := FreshStart(env, [], Init(env));
    assert [] + [Start(None)] == [Start(None)];
    p := s.process.value;
    var g, todo := p.gate, p.todo;
    steps, s, p := AllCalls(env, [Start(None)], s, p);
    WholeGate(env, g);
    AcksBeside(g, p.gate.acked, todo);
    RecordedBesideAcks(GateAfterAll(g, todo), p.gate.acked);
  }

  lemma RunsFromInit(env: Env)
    requires env.Valid()
    ensures Run(env, []) == Some(Init(env))
  {
  }

  lemma RecordedBesideAcks(g: Gate, acked: nat)
    ensures Tidy(g) ==> Tidy(g.(acked := acked))
    ensures forall h: nat :: Recorded(g, h) ==> Recorded(g.(acked := acked), h)
  {
    forall h: nat | Recorded(g, h) ensures Recorded(g.(acked := acked), h) {
      var i :| 0 <= i < |g.commits| && g.commits[i].lastHanded == h;
      assert g.(acked := acked).commits[i].lastHanded == h;
    }
  }

  lemma WholeGate(env: Env, g: Gate)
    requires env.Valid() && g == NewGate(true)
    ensures var g' := GateAfterAll(g, Program(env, env.origin));
      && g'.gated && Tidy(g') && g'.handed == |Wanted(env)|
      && forall i :: 0 <= i < |Calls(env)| && IsBoundary(Calls(env)[i]) ==> Recorded(g', |Names(Calls(env)[..i])|)
  {
    hide Recorded, GateAfterAll, Names, Program, Need, Good, ProducedFrom;
    OriginIsGood(env);
    ProgramIs(env, env.origin);
    var program, calls := Program(env, env.origin), Calls(env);
    GateSteps(g, program);
    NamesOfRest(Commit(env.origin), calls);
    forall i | 0 <= i < |calls| && IsBoundary(calls[i]) ensures Recorded(GateAfterAll(g, program), |Names(calls[..i])|) {
      assert program[i + 1] == calls[i] && program[..i + 1] == [Commit(env.origin)] + calls[..i];
      NamesOfRest(Commit(env.origin), calls[..i]);
    }
  }

  lemma {:induction false} UnfitBelow(env: Env, k: nat) returns (f: nat)
    requires env.Valid() && k <= |Wanted(env)| && Count(env, k) < k
    ensures f < k && !env.Fits(Wanted(env)[f])
    decreases k
  {
    hide Count, Wanted;
    CountNext(env, k - 1);
    if env.Fits(Wanted(env)[k - 1]) {
      f := UnfitBelow(env, k - 1);
    } else {
      f := k - 1;
    }
  }

  /** What fits nowhere is never stored. */
  lemma UnfitIsNotStored(env: Env, steps: seq<Step>, id: SourceId)
    requires env.Valid() && Run(env, steps).Some? && Careful(env, false, steps) && !env.Fits(id)
    ensures MessageOf(env, id) !in Run(env, steps).value.stream
  {
    hide Run, Wanted, WantedStream, Count, ProcessOk, Confirmed, Careful, Overtaken;
    var w := RunOk(env, steps, false);
    var m := MessageOf(env, id);
    if m in WantedStream(env) {
      WantedMessagesFit(env, m);
    }
    assert m !in WantedStream(env)[..Count(env, w.n)];
  }

  /** A run whose offset lies behind the first k changes, when that many fit and
      a usable boundary follows them. */
  lemma OffsetPasses(env: Env, i: nat) returns (steps: seq<Step>)
    requires env.Valid() && i < |Calls(env)| && IsBoundary(Calls(env)[i])
    requires |Names(Calls(env)[..i])| <= Count(env, |Wanted(env)|)
    ensures Run(env, steps).Some? && NoDump([], steps)
    ensures Need(env, Run(env, steps).value.offset) >= |Names(Calls(env)[..i])|
  {
    hide Run, Names, Calls, Wanted, Calm, Tidy, Recorded, Count, Need, WantedStream, Careful, CommitsOk, Env.Valid, Next;
    var k := |Names(Calls(env)[..i])|;
    var s, p;
    steps, s, p := WholeRun(env);
    NoDumpIsCareful(env, steps);
    IdleMeansAllStored(env, steps, p);
    NothingCounted(env);
    CommitsAreUsable(env, p.gate);
    var s' := SaveReaches(env, steps, s, p, k);
    steps := steps + [Step.Save(true)];
    var e :| 0 <= e < |p.gate.commits| && p.gate.commits[e].lastHanded >= k && s'.offset == p.gate.commits[e].pos;
    CommitCounts(env, p.gate, e);
  }

  lemma CommitCounts(env: Env, g: Gate, e: nat)
    requires env.Valid() && CommitsOk(env, g, 0) && e < |g.commits|
    ensures Need(env, g.commits[e].pos) == g.commits[e].lastHanded
  {
    hide Need, Good, BoundaryAfter;
    assert CommitOk(env, g.commits[e], 0, g.handed);
  }

  /** For every binlog with an overtaken boundary there is a run whose offset
      passes a change that was never stored. */
  lemma OversizeLoses(env: Env, i: nat) returns (steps: seq<Step>)
    requires env.Valid() && i < |Calls(env)| && OvertakenAt(env, i)
    ensures Run(env, steps).Some? && !Lossless(env, Run(env, steps).value) && NoDump([], steps)
  {
    hide Run, Names, Calls, Wanted, Count, Need, Careful, Fitting;
    OvertakenCounts(env, i);
    steps := OffsetPasses(env, i);
    var f := UnfitBelow(env, |Names(Calls(env)[..i])|);
    NoDumpIsCareful(env, steps);
    UnfitIsNotStored(env, steps, Wanted(env)[f]);
  }

  lemma CommitsAreUsable(env: Env, g: Gate)
    requires env.Valid() && CommitsOk(env, g, 0)
    ensures forall i :: 0 <= i < |g.commits| ==> Usable(g.commits[i].pos)
  {
    hide Need, BoundaryAfter;
    forall i | 0 <= i < |g.commits| ensures Usable(g.commits[i].pos) {
      assert CommitOk(env, g.commits[i], 0, g.handed);
    }
  }

  /** No dump was taken before the initial offset. */
  ghost predicate NoOlderDumps(env: Env)
    requires env.Valid()
  {
    forall d <- env.dumps :: Good(env, d)
  }

  /** No dump was taken after a change that has to be delivered. */
  ghost predicate NoLaterDumps(env: Env)
    requires env.Valid()
  {
    forall d <- env.dumps :: Need(env, d) == 0
  }

  lemma {:induction false} AllRunsAreCareful(env: Env, steps: seq<Step>)
    requires env.Valid() && NoOlderDumps(env) && NoLaterDumps(env) && Run(env, steps).Some?
    ensures Careful(env, true, steps)
  {
    hide Good, Need, Wanted, Init, NewProcess;
    if steps == [] {
    } else {
      AllRunsAreCareful(env, steps[..|steps| - 1]);
    }
  }

  /** The first start finds the dump: what lies before it is never streamed. */
  lemma LaterDumpLoses(env: Env, d: Position) returns (steps: seq<Step>)
    requires env.Valid() && d in env.dumps && Good(env, d) && Need(env, d) != 0
    ensures Run(env, steps).Some? && !Lossless(env, Run(env, steps).value)
  {
    steps := [Start(Some(d))];
    RunsFromInit(env);
    Append(env, [], Start(Some(d)));
    assert [] + [Start(Some(d))] == steps;
    NeedIsBounded(env, d);
    hide Run, NewProcess, Need, Good, Wanted;
    var s := Run(env, steps).value;
    assert s.offset == d && s.stream == [];
    assert MessageOf(env, Wanted(env)[0]) !in s.stream;
  }

  /** No run loses a change if and only if no usable boundary is overtaken (at
      each, the changes before it that fit nowhere are none, or outnumber the
      changes after it that fit) and no dump was taken after a change that has
      to be delivered. */
  lemma LosslessIff(env: Env)
    requires env.Valid() && NoOlderDumps(env)
    ensures (forall steps: seq<Step> :: Run(env, steps).Some? ==> Lossless(env, Run(env, steps).value))
      <==> !Overtaken(env) && NoLaterDumps(env)
  {
    hide Lossless, OvertakenAt, Run, Calls, Good, Need, Careful;
    if Overtaken(env) {
      var i :| 0 <= i < |Calls(env)| && OvertakenAt(env, i);
      var steps := OversizeLoses(env, i);
    } else if !NoLaterDumps(env) {
      var d :| d in env.dumps && Need(env, d) != 0;
      var steps := LaterDumpLoses(env, d);
    } else {
      forall steps: seq<Step> | Run(env, steps).Some? ensures Lossless(env, Run(env, steps).value) {
        AllRunsAreCareful(env, steps);
        NotOvertakenIsLossless(env, steps);
      }
    }
  }

  /** For one: two statements, the first too large in every form. The ack of the
      second confirms the boundary between them. */
  lemma TwoStatementsLose() returns (env: Env, steps: seq<Step>)
    ensures env.Valid() && Run(env, steps).Some? && !Lossless(env, Run(env, steps).value)
  {
    var b := TwoStatementLog();
    var first, second := MySqlDdl("bin", 12), MySqlDdl("bin", 20);
    env := Env(b, "p", Position("bin", 4), true, {first}, {});
    StartIndex(b, 0);
    var here, later := Produced(b, b.groups[0]), Produced(b, b.groups[1]);
    TwoGroups(b);
    TwoStatements(env, here, later, first, second);
    hide Names, Fitting, ProducedFrom, FirstAtOrAfter;
    assert OvertakenAt(env, 2);
    steps := OversizeLoses(env, 2);
  }

  function TwoStatementLog(): (b: Binlog)
    ensures b.Valid() && |b.groups| == 2 && b.files == ["bin"]
  {
    Binlog(["bin"], [Group(0, 4, 8, 12, Statement), Group(0, 12, 16, 20, Statement)])
  }

  lemma TwoGroups(b: Binlog)
    requires b.Valid() && |b.groups| == 2
    ensures ProducedFrom(b, 0) == Produced(b, b.groups[0]) + Produced(b, b.groups[1])
  {
    hide Produced;
    assert ProducedFrom(b, 2) == [];
    assert ProducedFrom(b, 1) == Produced(b, b.groups[1]) + [];
  }

  lemma FittingOne(env: Env, id: SourceId)
    ensures Fitting(env, [id]) == if env.Fits(id) then [id] else []
  {
    assert [id][..0] == [];
  }

  lemma TwoStatements(env: Env, here: seq<Call>, later: seq<Call>, first: SourceId, second: SourceId)
    requires |here| == |later| == 3 && here[0].Commit? && here[2].Commit? && later[0].Commit? && later[2].Commit?
    requires here[1] == Emit(Emitted(Some(first), true)) && later[1] == Emit(Emitted(Some(second), true))
    requires !env.Fits(first) && env.Fits(second)
    ensures Names((here + later)[..2]) == [first] && Fitting(env, [first]) == []
    ensures Names((here + later)[2..]) == [second] && Fitting(env, [second]) == [second]
  {
    FittingOne(env, first);
    FittingOne(env, second);
    hide Names, Fitting;
    NamesOfRest(here[0], [here[1]]);
    NamesOne(here[1]);
    assert (here + later)[..2] == [here[0]] + [here[1]];
    NamesOne(later[2]);
    NamesOfRest(later[1], [later[2]]);
    NamesOfRest(later[0], [later[1]] + [later[2]]);
    NamesOfRest(here[2], [later[0]] + ([later[1]] + [later[2]]));
    assert (here + later)[2..] == [here[2]] + ([later[0]] + ([later[1]] + [later[2]]));
  }

  // ---------------------------------------------------------------------------
  // Every run can be finished

  /** The newest boundary recorded. */
  function NewestOf(g: Gate): Position {
    if g.commits == [] then g.confirmable else g.commits[|g.commits| - 1].pos
  }

  /** The last usable boundary among the calls, or else `before`. */
  function LastBoundary(before: Position, calls: seq<Call>): Position
    decreases |calls|
  {
    if calls == [] then before else LastBoundary(if IsBoundary(calls[0]) then calls[0].pos else before, calls[1..])
  }

  lemma {:induction false} NewestIsLast(g: Gate, calls: seq<Call>)
    ensures NewestOf(GateAfterAll(g, calls)) == LastBoundary(NewestOf(g), calls)
    decreases |calls|
  {
    if calls == [] {
    } else {
      NewestIsLast(GateAfter(g, calls[0]), calls[1..]);
    }
  }

  lemma {:induction false} UsableIsLast(before: Position, calls: seq<Call>)
    requires Usable(before) || (calls != [] && IsBoundary(calls[0]))
    ensures Usable(LastBoundary(before, calls))
    decreases |calls|
  {
    if calls == [] {
    } else {
      UsableIsLast(if IsBoundary(calls[0]) then calls[0].pos else before, calls[1..]);
    }
  }

  /** The process remembers what it wrote, and there is a boundary to go on from:
      recorded, or about to be. */
  ghost predicate Begun(s: State) {
    s.process.Some? ==>
      var p := s.process.value;
      && (p.saved == NOWHERE || p.saved == s.offset)
      && (Usable(NewestOf(p.gate)) || (p.todo != [] && IsBoundary(p.todo[0])))
  }

  lemma NewestSettled(g: Gate)
    ensures NewestOf(g.Settle()) == NewestOf(g)
  {
  }

  lemma NewestCommitted(g: Gate, pos: Position)
    ensures Usable(pos) ==> NewestOf(g.Committed(pos)) == pos
    ensures !Usable(pos) ==> g.Committed(pos) == g
  {
  }

  lemma BegunProcess(env: Env, p: Process, step: Step)
    requires ProcessStep(env, p, step).Some? && (Usable(NewestOf(p.gate)) || (p.todo != [] && IsBoundary(p.todo[0])))
    ensures var p' := ProcessStep(env, p, step).value;
      && p'.saved == p.saved && (Usable(NewestOf(p'.gate)) || (p'.todo != [] && IsBoundary(p'.todo[0])))
  {
    if step.NextCall? && p.todo[0].Commit? {
      NewestCommitted(p.gate, p.todo[0].pos);
    }
  }

  lemma BegunStep(env: Env, s: State, step: Step)
    requires env.Valid() && Begun(s) && Good(env, s.offset) && Next(env, s, step).Some?
    requires DumpOf(step).Some? ==> Good(env, DumpOf(step).value)
    ensures Begun(Next(env, s, step).value)
  {
    hide Good, Program, NewestOf, ProcessStep, Store, Usable, IsBoundary;
    if step.Start? {
      StartsWithTheOffset(env, StartOffset(s.offset, step.dump));
    } else if step.Save? {
      NewestSettled(s.process.value.gate);
    } else if !step.Crash? {
      BegunProcess(env, s.process.value, step);
    }
  }

  lemma StartsWithTheOffset(env: Env, offset: Position)
    requires env.Valid() && Good(env, offset)
    ensures Program(env, offset) != [] && IsBoundary(Program(env, offset)[0])
  {
    ProgramIs(env, offset);
  }

  lemma {:induction false} RunBegun(env: Env, steps: seq<Step>)
    requires env.Valid() && Run(env, steps).Some? && Careful(env, false, steps)
    ensures Begun(Run(env, steps).value)
  {
    hide Begun, Next, Good;
    if steps == [] {
      InitBegun(env);
    } else {
      var front := steps[..|steps| - 1];
      RunBegun(env, front);
      var w := RunOk(env, front, false);
      BegunStep(env, Run(env, front).value, steps[|steps| - 1]);
    }
  }

  lemma InitBegun(env: Env)
    ensures Begun(Init(env))
  {
  }

  /** The publisher of this state is at work, or no process runs at all. */
  predicate CanGoOn(s: State) {
    s.process.None? || Alive(s.process.value)
  }

  /** What a finished run saves: the last boundary recorded or still to come, of
      this process or of the one that starts next. */
  function FinalOffset(env: Env, s: State): Position
    requires env.Valid()
  {
    if s.process.Some? && Alive(s.process.value)
    then LastBoundary(NewestOf(s.process.value.gate), s.process.value.todo)
    else LastBoundary(NOWHERE, Program(env, s.offset))
  }

  ghost predicate AllFit(env: Env)
    requires env.Valid()
  {
    forall id <- Wanted(env) :: env.Fits(id)
  }

  lemma {:induction false} AllFitCounts(env: Env, k: nat)
    requires env.Valid() && AllFit(env) && k <= |Wanted(env)|
    ensures Count(env, k) == k
    decreases k
  {
    hide Wanted;
    if k == 0 {
    } else {
      AllFitCounts(env, k - 1);
      CountNext(env, k - 1);
      assert Wanted(env)[k - 1] in Wanted(env);
    }
  }

  /** From a live process: count what is half handed over, work the bus off,
      make the remaining calls. */
  lemma FinishCalls(env: Env, steps: seq<Step>, s: State, p: Process) returns (steps': seq<Step>, s': State, p': Process)
    requires env.Valid() && Run(env, steps) == Some(s) && s.process == Some(p) && Alive(p)
    ensures Run(env, steps') == Some(s') && NoCrash(steps, steps') && s'.process == Some(p') && s'.offset == s.offset
    ensures Calm(p') && p'.todo == [] && p'.saved == p.saved
    ensures NewestOf(p'.gate) == LastBoundary(NewestOf(p.gate), p.todo)
  {
    hide Run, GateAfterAll, LastBoundary;
    steps', s', p' := steps, s, p;
    if p.handing {
      s' := CountOne(env, steps, s, p);
      steps', p' := steps + [CountHanded], s'.process.value;
    }
    steps', s', p' := Drain(env, steps', s', p');
    var g := p'.gate;
    steps', s', p' := AllCalls(env, steps', s', p');
    NewestIsLast(g, p.todo);
  }

  lemma SaveFinal(env: Env, steps: seq<Step>, s: State, p: Process) returns (s': State)
    requires env.Valid() && Run(env, steps) == Some(s) && s.process == Some(p) && Usable(NewestOf(p.gate))
    requires p.saved == NOWHERE || p.saved == s.offset
    requires p.gate.gated && forall i :: 0 <= i < |p.gate.commits| ==> p.gate.commits[i].lastHanded <= p.gate.acked
    ensures Run(env, steps + [Step.Save(true)]) == Some(s') && s'.stream == s.stream && s'.offset == NewestOf(p.gate)
    ensures s'.process.Some?
  {
    hide Run;
    Append(env, steps, Step.Save(true));
    assert SettledCount(p.gate.commits, p.gate.acked) == |p.gate.commits|;
    s' := SaveStep(s, p, true);
  }

  /** All acked when all fit, so every boundary recorded may be saved. */
  lemma AllSettled(env: Env, steps: seq<Step>, p: Process)
    requires env.Valid() && AllFit(env) && Run(env, steps).Some? && Careful(env, false, steps)
    requires Run(env, steps).value.process == Some(p) && Calm(p) && p.todo == []
    ensures p.gate.gated && forall i :: 0 <= i < |p.gate.commits| ==> p.gate.commits[i].lastHanded <= p.gate.acked
  {
    hide Wanted, Count, Calm, WantedStream, AllFit, Good, Need, BoundaryAfter, Env.Valid, Run, Careful;
    IdleMeansAllStored(env, steps, p);
    AllFitCounts(env, |Wanted(env)|);
    AllFitCounts(env, |Wanted(env)| - p.gate.handed);
    forall i | 0 <= i < |p.gate.commits| ensures p.gate.commits[i].lastHanded <= p.gate.acked {
      assert CommitOk(env, p.gate.commits[i], |Wanted(env)| - p.gate.handed, p.gate.handed);
    }
  }

  /** A process that can go on: this one, or a new one. */
  lemma LiveProcess(env: Env, steps: seq<Step>, s: State) returns (steps': seq<Step>, s': State, p: Process)
    requires env.Valid() && Run(env, steps) == Some(s)
    ensures Run(env, steps') == Some(s') && s'.process == Some(p) && Alive(p) && s'.offset == s.offset && NoDump(steps, steps')
    ensures CanGoOn(s) ==> NoCrash(steps, steps')
    ensures FinalOffset(env, s) == LastBoundary(NewestOf(p.gate), p.todo)
  {
    hide Run, Program, LastBoundary;
    if s.process.Some? && Alive(s.process.value) {
      steps', s', p := steps, s, s.process.value;
    } else {
      steps', s' := steps, s;
      if s.process.Some? {
        Append(env, steps, Crash);
        steps', s' := steps + [Crash], s.(process := None);
      }
      s' := FreshStart(env, steps', s');
      steps', p := steps' + [Start(None)], s'.process.value;
    }
  }

  /** Every run whose dumps skipped nothing can be continued so that every change
      is stored and the offset is the last boundary there is; without a crash, as
      long as the publisher is at work. */
  lemma CanAlwaysFinish(env: Env, steps: seq<Step>) returns (rest: seq<Step>)
    requires env.Valid() && AllFit(env) && Run(env, steps).Some? && Careful(env, false, steps)
    ensures Run(env, rest).Some? && NoDump(steps, rest) && Run(env, rest).value.process.Some?
    ensures CanGoOn(Run(env, steps).value) ==> NoCrash(steps, rest)
    ensures forall m <- WantedStream(env) :: m in Run(env, rest).value.stream
    ensures Run(env, rest).value.offset == FinalOffset(env, Run(env, steps).value)
  {
    hide Run, Calm, NewestOf, Program, LastBoundary, WantedStream, AllFit, CanGoOn, Alive, FinalOffset, Careful;
    var s, p;
    rest, s, p := LiveProcess(env, steps, Run(env, steps).value);
    StaysCareful(env, false, steps, rest);
    RunBegun(env, rest);
    UsableIsLast(NewestOf(p.gate), p.todo);
    rest, s, p := FinishCalls(env, rest, s, p);
    StaysCareful(env, false, steps, rest);
    IdleMeansAllStored(env, rest, p);
    AllSettled(env, rest, p);
    s := SaveFinal(env, rest, s, p);
    rest := rest + [Step.Save(true)];
  }

  /** The two statements, starting before both; they fit. */
  function TwoStatementEnv(dumps: set<Position>): Env {
    Env(TwoStatementLog(), "p", Position("bin", 4), true, {}, dumps)
  }

  /** Before both statements, and after both. */
  lemma TwoStatementEnds()
    ensures var b := TwoStatementLog();
      && Resumable(b, Position("bin", 4)) && ResumeIndex(b, Position("bin", 4)) == 0 && Rank(b, Position("bin", 4)) == 4
      && Resumable(b, Position("bin", 20)) && ResumeIndex(b, Position("bin", 20)) == 2 && Rank(b, Position("bin", 20)) == 20
  {
    var b := TwoStatementLog();
    StartIndex(b, 0);
    EndIndex(b, 1);
    assert EndPosition(b, 1) == Position("bin", 20);
  }

  lemma TwoStatementsRun(env: Env) returns (steps: seq<Step>)
    requires env == TwoStatementEnv(env.dumps) && env.Valid()
    ensures AllFit(env) && Run(env, steps).Some? && NoDump([], steps)
    ensures |Wanted(env)| == 2 && Run(env, steps).value.offset == Position("bin", 20)
    ensures Need(env, Position("bin", 20)) == 2
    ensures Run(env, steps).value.process.Some?
  {
    TwoStatementEnds();
    RunsFromInit(env);
    OriginIsGood(env);
    ProgramIs(env, env.origin);
    var last := TwoStatementCalls(env);
    NoDumpIsCareful(env, []);
    hide Run, Names, ProducedFrom, FirstAtOrAfter, Program, LastBoundary, Careful;
    steps := CanAlwaysFinish(env, []);
  }

  /** None of this is empty: a binlog of two statements that fit, and a run that
      stores both and saves the position after them. */
  lemma TwoStatementsAreDelivered() returns (env: Env, steps: seq<Step>)
    ensures env.Valid() && AllFit(env) && env.unboundedWindow && Run(env, steps).Some? && Careful(env, false, steps)
    ensures |Wanted(env)| == 2 && Need(env, Run(env, steps).value.offset) == 2
    ensures forall k :: 0 <= k < 2 ==> MessageOf(env, Wanted(env)[k]) in Run(env, steps).value.stream
  {
    TwoStatementEnds();
    env := TwoStatementEnv({});
    steps := TwoStatementsRun(env);
    hide Run, Wanted, Need, Careful;
    NoDumpIsCareful(env, steps);
    forall k | 0 <= k < 2 ensures MessageOf(env, Wanted(env)[k]) in Run(env, steps).value.stream {
      assert Wanted(env)[k] in Wanted(env);
      NothingBeforeTheOffsetIsLost(env, steps, k);
    }
  }

  lemma TwoStatementCalls(env: Env) returns (last: Position)
    requires env.binlog == TwoStatementLog() && env.Valid() && First(env) == 0
    requires Program(env, env.origin) == [Commit(env.origin)] + ProducedFrom(env.binlog, 0)
    ensures |Wanted(env)| == 2 && last == Position("bin", 20) && Need(env, last) == 2
    ensures LastBoundary(NOWHERE, Program(env, env.origin)) == last
  {
    var b := env.binlog;
    var here, later := Produced(b, b.groups[0]), Produced(b, b.groups[1]);
    TwoGroups(b);
    hide Program;
    NamesOfThree(here);
    NamesOfThree(later);
    NamesConcat(here, later);
    EndIndex(b, 1);
    last := EndPosition(b, 1);
    hide FirstAtOrAfter, Names;
    assert ProducedFrom(b, 2) == [];
    NoNames();
    LastOfCalls(NOWHERE, [Commit(env.origin)] + here + later[..2], later[2]);
    assert [Commit(env.origin)] + (here + later) == [Commit(env.origin)] + here + later[..2] + [later[2]];
  }

  lemma NamesOfThree(calls: seq<Call>)
    requires |calls| == 3 && calls[0].Commit? && calls[2].Commit? && |NameOf(calls[1])| == 1
    ensures |Names(calls)| == 1
  {
    hide Names;
    NamesOne(calls[2]);
    NamesOfRest(calls[1], [calls[2]]);
    NamesOfRest(calls[0], [calls[1]] + [calls[2]]);
    assert calls == [calls[0]] + ([calls[1]] + [calls[2]]);
  }

  lemma {:induction false} LastOfCalls(before: Position, calls: seq<Call>, call: Call)
    requires IsBoundary(call)
    ensures LastBoundary(before, calls + [call]) == call.pos
    decreases |calls|
  {
    var all := calls + [call];
    if calls == [] {
      assert all[1..] == [];
    } else {
      assert all[1..] == calls[1..] + [call];
      LastOfCalls(if IsBoundary(calls[0]) then calls[0].pos else before, calls[1..], call);
    }
  }
}
