/** The MySQL delivery protocol, from the saved offset to the stream.

    Three threads interleave: the callbacks pass events to the bus and, as a
    separate step, count them; the publisher stores and acks; the saver writes
    the newest confirmed boundary to the offset file. A crash loses everything
    but the offset and the stream; a restart streams from the offset. With a
    backup file configured, every start first overwrites the offset with the
    position the dump was taken at. An event that fits the stream in no form is
    given up: it leaves the bus without ack.

    What is taken from the environment:
    - the server streams from the offset every later group of a well-formed
      binlog, after announcing the file and position it starts from;
    - the initial offset was saved, and it and the position of every dump lie
      between two groups;
    - writing the offset file either happens whole or not at all;
    - an ack means stored, and an attempt under an ended context stores nothing;
    - a change fits the stream in some form, or in none, the same way every time;
    - the bus is not shut down while callbacks still run. */
module MySqlDelivery {
  import opened SourceIds
  import opened Streams
  import opened MySqlGate
  import opened MySqlHandler
  import opened MySqlBinlog

  /** `oversized` are the changes too large for the stream in every form, `dumps`
      the positions of the dumps a start may find configured. */
  datatype Env = Env(binlog: Binlog, prefix: string, origin: Position, unboundedWindow: bool,
                     oversized: set<SourceId>, dumps: set<Position>)
  {
    predicate Fits(id: SourceId) {
      id !in oversized
    }

    ghost predicate Valid() {
      binlog.Valid() && Resumable(binlog, origin) && forall d <- dumps :: Resumable(binlog, d)
    }
  }

  datatype BusEvent = Own(id: SourceId) | Other

  /** `handing` is the moment between the bus taking an event and its count. */
  datatype Process = Process(gate: Gate, todo: seq<Call>, handing: bool,
                             bus: seq<BusEvent>, running: bool, ended: bool, saved: Position)

  datatype State = State(process: Option<Process>, stream: seq<Message<SourceId>>, offset: Position)

  function Init(env: Env): State {
    State(None, [], env.origin)
  }

  /** Everything the callbacks of a fresh process will do, from an offset on. */
  function Program(env: Env, offset: Position): seq<Call>
    requires env.Valid()
  {
    var run := RunCallbacks(Handler(offset.file, NOWHERE, 0),
                            [Rotate(offset.file, offset.offset)] + CallbacksFrom(env.binlog, ResumeIndex(env.binlog, offset)));
    if run.None? then [] else run.value.1
  }

  function NewProcess(env: Env, offset: Position): Process
    requires env.Valid()
  {
    Process(NewGate(true), Program(env, offset), false, [], true, false, NOWHERE)
  }

  function MessageOf(env: Env, id: SourceId): Message<SourceId> {
    Message(MessageId(env.prefix, Print(id)), id)
  }

  // ---------------------------------------------------------------------------
  // Steps

  datatype Step =
    | Start(dump: Option<Position>)
    | NextCall
    | CountHanded
    | OtherEvent
    | SkipOther
    | Publish(remembered: bool, ackArrives: bool)
    | SkipOversized
    | EndContext
    | GiveUp
    | StopPublisher
    | Save(written: bool)
    | Crash

  function Enqueue(p: Process, event: BusEvent): Process {
    if p.running then p.(bus := p.bus + [event]) else p
  }

  /** The next thing a callback does. Own events are counted one step later. */
  function CallStep(p: Process): Process
    requires p.todo != []
  {
    var rest := p.(todo := p.todo[1..]);
    match p.todo[0]
    case Commit(pos) => rest.(gate := p.gate.Committed(pos))
    case Emit(event) =>
      if !event.accepted then rest
      else if event.id.None? then Enqueue(rest, Other)
      else Enqueue(rest, Own(event.id.value)).(handing := true)
  }

  predicate AtOwn(p: Process) {
    p.running && p.bus != [] && p.bus[0].Own?
  }

  function ProcessStep(env: Env, p: Process, step: Step): Option<Process> {
    match step
    case NextCall => if !p.handing && p.todo != [] then Some(CallStep(p)) else None
    case CountHanded => if p.handing then Some(p.(gate := p.gate.Hand(), handing := false)) else None
    case OtherEvent => Some(Enqueue(p, Other))
    case SkipOther => if p.running && p.bus != [] && p.bus[0].Other? then Some(p.(bus := p.bus[1..])) else None
    case Publish(_, ackArrives) =>
      if AtOwn(p) && !p.ended && env.Fits(p.bus[0].id) then
        Some(if ackArrives then p.(bus := p.bus[1..], gate := p.gate.Observe()) else p)
      else None
    case SkipOversized => if AtOwn(p) && !env.Fits(p.bus[0].id) then Some(p.(bus := p.bus[1..])) else None
    case EndContext => Some(p.(ended := true))
    case GiveUp => if p.ended && p.running && p.bus != [] then Some(p.(bus := p.bus[1..])) else None
    case StopPublisher => Some(p.(running := false, bus := []))
    case _ => None
  }

  /** saveConfirmedOffset: nothing to write unless the boundary moved. */
  function SaveStep(s: State, p: Process, written: bool): State {
    var g := p.gate.Settle();
    var pos := g.confirmable;
    if pos.file == "" || pos == p.saved || !written then s.(process := Some(p.(gate := g)))
    else s.(process := Some(p.(gate := g, saved := pos)), offset := pos)
  }

  /** runSnapshot: a dump with a position overwrites the offset. */
  function StartOffset(offset: Position, dump: Option<Position>): Position {
    if dump.Some? && dump.value.file != "" then dump.value else offset
  }

  function Next(env: Env, s: State, step: Step): Option<State>
    requires env.Valid()
  {
    match step
    case Start(dump) =>
      if s.process.None? && (dump.Some? ==> dump.value in env.dumps) then
        var offset := StartOffset(s.offset, dump);
        Some(s.(process := Some(NewProcess(env, offset)), offset := offset))
      else None
    case Crash => Some(s.(process := None))
    case Save(written) => if s.process.Some? then Some(SaveStep(s, s.process.value, written)) else None
    case Publish(remembered, _) =>
      if s.process.None? || (env.unboundedWindow && !remembered) then None
      else
        var p := ProcessStep(env, s.process.value, step);
        if p.None? then None
        else Some(s.(process := p, stream := Store(s.stream, MessageOf(env, s.process.value.bus[0].id), remembered)))
    case _ =>
      if s.process.None? then None
      else
        var p := ProcessStep(env, s.process.value, step);
        if p.None? then None else Some(s.(process := p))
  }

  function Run(env: Env, steps: seq<Step>): Option<State>
    requires env.Valid()
  {
    if steps == [] then Some(Init(env))
    else
      var before := Run(env, steps[..|steps| - 1]);
      if before.None? then None else Next(env, before.value, steps[|steps| - 1])
  }

  /** What the world may do at any time: crash the process and start it again with
      any dump or none, end the context, stop the publisher, put other events on
      the bus, fail to write the offset. */
  lemma AnythingMayHappen(env: Env, s: State, dump: Option<Position>)
    requires env.Valid()
    ensures Next(env, s, Crash) == Some(s.(process := None))
    ensures s.process.None? && (dump.Some? ==> dump.value in env.dumps) ==> Next(env, s, Start(dump)).Some?
    ensures s.process.Some? ==>
      && Next(env, s, EndContext).Some? && Next(env, s, StopPublisher).Some? && Next(env, s, OtherEvent).Some?
      && Next(env, s, Step.Save(false)).Some? && Next(env, s, Step.Save(false)).value.offset == s.offset
  {
  }

  /** A publisher that stopped has no channel: nothing is kept for it. */
  ghost predicate NoChannelOnceStopped(s: State) {
    s.process.Some? && !s.process.value.running ==> s.process.value.bus == []
  }

  lemma {:induction false} StoppedMeansNoChannel(env: Env, steps: seq<Step>)
    requires env.Valid() && Run(env, steps).Some?
    ensures NoChannelOnceStopped(Run(env, steps).value)
  {
    hide Gate.Hand, Gate.Observe, Gate.Committed, Gate.Settle, Program, Resumable, Env.Valid;
    if steps == [] {
    } else {
      StoppedMeansNoChannel(env, steps[..|steps| - 1]);
    }
  }

  // ---------------------------------------------------------------------------
  // Changes in binlog order, counted from the initial offset

  function First(env: Env): nat {
    ResumeIndex(env.binlog, env.origin)
  }

  /** Everything the callbacks do from the initial offset on. */
  function Calls(env: Env): seq<Call>
    requires env.Valid()
  {
    ProducedFrom(env.binlog, First(env))
  }

  function Wanted(env: Env): (r: seq<SourceId>)
    requires env.Valid()
  {
    Names(Calls(env))
  }

  /** How many changes come from group j on. */
  function Left(env: Env, j: nat): nat
    requires env.Valid() && j <= |env.binlog.groups|
  {
    |Names(ProducedFrom(env.binlog, j))|
  }

  /** How many changes lie before a position. */
  function Need(env: Env, pos: Position): int
    requires env.Valid()
  {
    |Wanted(env)| - Left(env, ResumeIndex(env.binlog, pos))
  }

  /** A position replication can resume from, not before the initial offset. */
  ghost predicate Good(env: Env, pos: Position)
    requires env.Valid()
  {
    Resumable(env.binlog, pos) && First(env) <= ResumeIndex(env.binlog, pos)
  }

  lemma OriginIsGood(env: Env)
    requires env.Valid()
    ensures Good(env, env.origin) && Need(env, env.origin) == 0
  {
  }

  lemma NamesOfRest(head: Call, todo: seq<Call>)
    ensures Names([head] + todo) == NameOf(head) + Names(todo)
  {
    NamesConcat([head], todo);
    NamesOne(head);
  }

  predicate IsBoundary(call: Call) {
    call.Commit? && Usable(call.pos)
  }

  /** The boundary at call k of group j, and what is left when it is made. */
  lemma GroupBoundary(env: Env, j: nat, k: nat)
    requires env.Valid() && First(env) <= j < |env.binlog.groups| && k < |Produced(env.binlog, env.binlog.groups[j])|
    requires IsBoundary(Produced(env.binlog, env.binlog.groups[j])[k])
    ensures var pos := Produced(env.binlog, env.binlog.groups[j])[k].pos;
      Good(env, pos) && Left(env, ResumeIndex(env.binlog, pos)) == |Names(ProducedFrom(env.binlog, j)[k..])|
  {
    hide Names;
    hide Produced;
    hide FirstAtOrAfter;
    hide Rank;
    var b := env.binlog;
    var calls := Produced(b, b.groups[j]);
    BoundaryMeaning(b, j, k);
    StartIndex(b, j);
    EndIndex(b, j);
    if calls[k].pos == EndPosition(b, j) && k == |calls| - 1 {
      assert ProducedFrom(b, j)[k..] == [calls[k]] + ProducedFrom(b, j + 1);
      NamesOfRest(calls[k], ProducedFrom(b, j + 1));
    } else {
      assert ProducedFrom(b, j)[0..] == ProducedFrom(b, j);
    }
  }

  lemma {:induction false} LaterBoundary(env: Env, j: nat, i: nat)
    requires env.Valid() && First(env) <= j <= |env.binlog.groups| && i < |ProducedFrom(env.binlog, j)|
    requires IsBoundary(ProducedFrom(env.binlog, j)[i])
    ensures var pos := ProducedFrom(env.binlog, j)[i].pos;
      Good(env, pos) && Left(env, ResumeIndex(env.binlog, pos)) == |Names(ProducedFrom(env.binlog, j)[i..])|
    decreases |env.binlog.groups| - j
  {
    hide Names, Produced, FirstAtOrAfter, Good;
    var b := env.binlog;
    var here, later := Produced(b, b.groups[j]), ProducedFrom(b, j + 1);
    assert ProducedFrom(b, j) == here + later;
    if i < |here| {
      GroupBoundary(env, j, i);
    } else {
      LaterBoundary(env, j + 1, i - |here|);
      assert (here + later)[i..] == later[i - |here|..];
    }
  }

  /** Every usable boundary is a position to resume from, and what lies before
      it is exactly what was called before it. */
  lemma BoundaryCounts(env: Env, i: nat)
    requires env.Valid() && i < |Calls(env)| && IsBoundary(Calls(env)[i])
    ensures Good(env, Calls(env)[i].pos) && Need(env, Calls(env)[i].pos) == |Names(Calls(env)[..i])|
  {
    hide Names, ProducedFrom, FirstAtOrAfter, Good;
    var calls := Calls(env);
    LaterBoundary(env, First(env), i);
    NamesConcat(calls[..i], calls[i..]);
    assert calls[..i] + calls[i..] == calls;
  }

  /** What was called so far names a prefix of what is wanted, and the next call
      names the next of it. */
  lemma NamesSoFar(env: Env, at: nat)
    requires env.Valid() && at <= |Calls(env)|
    ensures |Names(Calls(env)[..at])| <= |Wanted(env)| && Names(Calls(env)[..at]) == Wanted(env)[..|Names(Calls(env)[..at])|]
    ensures at < |Calls(env)| ==> Names(Calls(env)[..at + 1]) == Names(Calls(env)[..at]) + NameOf(Calls(env)[at])
  {
    hide Calls, Names, NameOf;
    var calls := Calls(env);
    NamesConcat(calls[..at], calls[at..]);
    assert calls[..at] + calls[at..] == calls;
    if at < |calls| {
      assert calls[..at + 1] == calls[..at] + [calls[at]];
      NamesConcat(calls[..at], [calls[at]]);
      NamesOne(calls[at]);
    }
  }

  lemma {:induction false} ProducedIsATail(env: Env, r: nat) returns (at: nat)
    requires env.Valid() && First(env) <= r <= |env.binlog.groups|
    ensures at <= |Calls(env)| && Calls(env)[at..] == ProducedFrom(env.binlog, r)
    decreases r
  {
    hide Produced, FirstAtOrAfter;
    if r == First(env) {
      at := 0;
    } else {
      at := ProducedIsATail(env, r - 1);
      var here := Produced(env.binlog, env.binlog.groups[r - 1]);
      assert Calls(env)[at..][|here|..] == ProducedFrom(env.binlog, r);
      at := at + |here|;
    }
  }

  lemma ProgramIs(env: Env, offset: Position)
    requires env.Valid() && Good(env, offset)
    ensures Program(env, offset) == [Commit(offset)] + ProducedFrom(env.binlog, ResumeIndex(env.binlog, offset))
  {
    hide Program, ProducedFrom, FirstAtOrAfter;
    ProgramFrom(env, offset);
  }

  lemma ProgramFrom(env: Env, offset: Position)
    requires env.Valid() && Resumable(env.binlog, offset)
    ensures Program(env, offset) == [Commit(offset)] + ProducedFrom(env.binlog, ResumeIndex(env.binlog, offset))
  {
    hide CallbacksFrom;
    hide ProducedFrom;
    hide RunCallbacks;
    hide FirstAtOrAfter;
    ResumeRuns(env.binlog, offset);
  }

  /** A restart announces its offset and then repeats the calls from there on. */
  lemma ProgramIsATail(env: Env, offset: Position) returns (at: nat)
    requires env.Valid() && Good(env, offset)
    ensures at <= |Calls(env)| && Program(env, offset) == [Commit(offset)] + Calls(env)[at..]
    ensures Need(env, offset) == |Names(Calls(env)[..at])|
  {
    hide Names, ProducedFrom, Program, FirstAtOrAfter;
    ProgramIs(env, offset);
    at := ProducedIsATail(env, ResumeIndex(env.binlog, offset));
    var calls := Calls(env);
    NamesConcat(calls[..at], calls[at..]);
    assert calls[..at] + calls[at..] == calls;
  }

  // ---------------------------------------------------------------------------
  // Changes that fit

  /** Those the stream can take at all, in order. */
  function Fitting(env: Env, ids: seq<SourceId>): seq<SourceId> {
    if ids == [] then []
    else
      var last := ids[|ids| - 1];
      Fitting(env, ids[..|ids| - 1]) + if env.Fits(last) then [last] else []
  }

  /** How many of the first k wanted changes fit. */
  function Count(env: Env, k: nat): nat
    requires env.Valid() && k <= |Wanted(env)|
  {
    |Fitting(env, Wanted(env)[..k])|
  }

  lemma CountNext(env: Env, k: nat)
    requires env.Valid() && k < |Wanted(env)|
    ensures Count(env, k + 1) == Count(env, k) + if env.Fits(Wanted(env)[k]) then 1 else 0
  {
    hide Wanted, Fitting;
    FittingNext(env, Wanted(env), k);
  }

  lemma {:induction false} CountGrows(env: Env, j: nat, k: nat)
    requires env.Valid() && j <= k <= |Wanted(env)|
    ensures Count(env, j) <= Count(env, k) <= Count(env, j) + (k - j)
    decreases k
  {
    hide Count, Wanted;
    if j == k {
    } else {
      CountGrows(env, j, k - 1);
      CountNext(env, k - 1);
    }
  }

  lemma CountIsSmall(env: Env, k: nat)
    requires env.Valid() && k <= |Wanted(env)|
    ensures Count(env, k) <= k
  {
    hide Wanted;
    CountGrows(env, 0, k);
  }

  lemma {:induction false} FittingPrefix(env: Env, ids: seq<SourceId>, k: nat)
    requires k <= |ids|
    ensures Fitting(env, ids[..k]) <= Fitting(env, ids)
    decreases |ids|
  {
    if k == |ids| {
      assert ids[..k] == ids;
    } else {
      assert ids[..|ids| - 1][..k] == ids[..k];
      FittingPrefix(env, ids[..|ids| - 1], k);
    }
  }

  ghost function Messages(env: Env, ids: seq<SourceId>): (r: seq<Message<SourceId>>)
    ensures |r| == |ids|
    ensures forall k :: 0 <= k < |r| ==> r[k] == MessageOf(env, ids[k])
  {
    seq(|ids|, k requires 0 <= k < |ids| => MessageOf(env, ids[k]))
  }

  /** What the stream is meant to hold in the end, in binlog order. */
  ghost function WantedStream(env: Env): seq<Message<SourceId>>
    requires env.Valid()
  {
    Messages(env, Fitting(env, Wanted(env)))
  }

  /** Where a change that fits sits in that order. */
  lemma FittingPlace(env: Env, k: nat)
    requires env.Valid() && k < |Wanted(env)| && env.Fits(Wanted(env)[k])
    ensures Count(env, k) < |WantedStream(env)| && WantedStream(env)[Count(env, k)] == MessageOf(env, Wanted(env)[k])
  {
    hide Wanted, Fitting;
    var wanted := Wanted(env);
    FittingNext(env, wanted, k);
    FittingPrefix(env, wanted, k + 1);
    assert Fitting(env, wanted)[..Count(env, k) + 1] == Fitting(env, wanted[..k]) + [wanted[k]];
  }

  lemma FittingNext(env: Env, ids: seq<SourceId>, k: nat)
    requires k < |ids|
    ensures Fitting(env, ids[..k + 1]) == Fitting(env, ids[..k]) + if env.Fits(ids[k]) then [ids[k]] else []
  {
    assert ids[..k + 1][..k] == ids[..k] && ids[..k + 1][k] == ids[k];
  }

  lemma {:induction false} FittingIsDistinct(env: Env, ids: seq<SourceId>)
    requires Distinct(ids)
    ensures Distinct(Fitting(env, ids)) && forall x <- Fitting(env, ids) :: x in ids && env.Fits(x)
    decreases |ids|
  {
    if ids == [] {
    } else {
      var front, last := ids[..|ids| - 1], ids[|ids| - 1];
      FittingIsDistinct(env, front);
      assert forall x <- front :: x in ids && x != last;
    }
  }

  lemma MessageIdsDiffer(env: Env, ids: seq<SourceId>)
    requires Distinct(ids) && forall x <- ids :: x.Valid()
    ensures DistinctIds(Messages(env, ids))
  {
    forall j, k | 0 <= j < k < |ids| ensures MessageOf(env, ids[j]).id != MessageOf(env, ids[k]).id {
      assert ids[j] in ids && ids[k] in ids;
      if MessageId(env.prefix, Print(ids[j])) == MessageId(env.prefix, Print(ids[k])) {
        assert Print(ids[j]) == MessageId(env.prefix, Print(ids[j]))[|env.prefix| + 1..];
        SourceIdInjective(ids[j], ids[k]);
      }
    }
  }

  lemma WantedIdsDiffer(env: Env)
    requires env.Valid()
    ensures DistinctIds(WantedStream(env))
  {
    hide Names;
    NamesFromDistinct(env.binlog, First(env));
    FittingIsDistinct(env, Wanted(env));
    MessageIdsDiffer(env, Fitting(env, Wanted(env)));
  }

  // ---------------------------------------------------------------------------
  // When a boundary can be confirmed past a change that was given up

  /** At this boundary changes that fit nowhere lie before, and no more of them
      than changes that fit lie after: the acks of those make up for them. */
  ghost predicate OvertakenAt(env: Env, i: nat)
    requires env.Valid() && i < |Calls(env)|
  {
    var before, after := Names(Calls(env)[..i]), Names(Calls(env)[i..]);
    IsBoundary(Calls(env)[i]) && 0 < |before| - |Fitting(env, before)| <= |Fitting(env, after)|
  }

  ghost predicate Overtaken(env: Env)
    requires env.Valid()
  {
    exists i :: 0 <= i < |Calls(env)| && OvertakenAt(env, i)
  }

  /** Some usable boundary is recorded after exactly k changes. */
  ghost predicate BoundaryAfter(env: Env, k: nat)
    requires env.Valid()
  {
    exists i :: 0 <= i < |Calls(env)| && IsBoundary(Calls(env)[i]) && |Names(Calls(env)[..i])| == k
  }

  lemma {:induction false} FittingConcat(env: Env, a: seq<SourceId>, b: seq<SourceId>)
    ensures Fitting(env, a + b) == Fitting(env, a) + Fitting(env, b)
    decreases |b|
  {
    if b == [] {
      assert a + b == a;
    } else {
      assert (a + b)[..|a + b| - 1] == a + b[..|b| - 1];
      FittingConcat(env, a, b[..|b| - 1]);
    }
  }

  /** The condition, in terms of counts. */
  lemma OvertakenCounts(env: Env, i: nat)
    requires env.Valid() && i < |Calls(env)| && IsBoundary(Calls(env)[i])
    ensures var k := |Names(Calls(env)[..i])|;
      k <= |Wanted(env)| && (OvertakenAt(env, i) <==> Count(env, k) < k <= Count(env, |Wanted(env)|))
  {
    hide Fitting, Names, Calls;
    var calls, wanted := Calls(env), Wanted(env);
    var before, after := Names(calls[..i]), Names(calls[i..]);
    NamesSoFar(env, i);
    assert calls[..i] + calls[i..] == calls;
    NamesConcat(calls[..i], calls[i..]);
    FittingConcat(env, before, after);
    assert wanted[..|wanted|] == wanted;
  }

  /** Where strictness is asked for: no boundary is overtaken, and nothing given
      up lies among the first k changes. */
  ghost predicate Clean(env: Env, strict: bool, k: nat)
    requires env.Valid() && k <= |Wanted(env)|
  {
    strict ==> !Overtaken(env) && Count(env, k) == k
  }

  lemma BoundaryIsClean(env: Env, k: nat)
    requires env.Valid() && BoundaryAfter(env, k) && k <= |Wanted(env)| && k <= Count(env, |Wanted(env)|)
    ensures Clean(env, !Overtaken(env), k)
  {
    hide Fitting, Names, Calls, OvertakenAt, Count;
    var i :| 0 <= i < |Calls(env)| && IsBoundary(Calls(env)[i]) && |Names(Calls(env)[..i])| == k;
    OvertakenCounts(env, i);
    CountIsSmall(env, k);
  }

  // ---------------------------------------------------------------------------
  // The invariant

  /** The first n wanted changes are dealt with: stored, or given up. The
      process took its events from change `start` on and the publisher is done
      with `done` of them; the callbacks have made the first `at` calls. In a
      strict account nothing before the offset was given up. */
  datatype Progress = Progress(n: nat, start: nat, done: nat, at: nat, strict: bool)

  /** The watcher's events on the bus are the wanted changes from i up to j. */
  ghost predicate Queued(wanted: seq<SourceId>, bus: seq<BusEvent>, i: nat, j: nat)
    requires j <= |wanted|
    decreases |bus|
  {
    if bus == [] then i == j
    else if bus[0].Other? then Queued(wanted, bus[1..], i, j)
    else i < j && bus[0].id == wanted[i] && Queued(wanted, bus[1..], i + 1, j)
  }

  /** Events the bus took: one more than are counted, while one is counted. */
  function Taken(p: Process): nat {
    p.gate.handed + if p.handing then 1 else 0
  }

  ghost predicate CommitOk(env: Env, commit: Boundary, start: nat, handed: nat)
    requires env.Valid()
  {
    && commit.lastHanded <= handed && Good(env, commit.pos) && Need(env, commit.pos) == start + commit.lastHanded
    && (commit.lastHanded == 0 || BoundaryAfter(env, start + commit.lastHanded))
  }

  ghost predicate CommitsOk(env: Env, g: Gate, start: nat)
    requires env.Valid()
  {
    forall i :: 0 <= i < |g.commits| ==> CommitOk(env, g.commits[i], start, g.handed)
  }

  ghost predicate SettledOk(env: Env, g: Gate, start: nat)
    requires env.Valid()
  {
    g.confirmable == NOWHERE || exists h: nat :: h <= g.acked && CommitOk(env, Boundary(h, g.confirmable), start, h)
  }

  /** What the callbacks still have to do: the rest of the calls, after the
      announcement of a fresh process. */
  ghost predicate TodoOk(env: Env, todo: seq<Call>, start: nat, taken: nat, at: nat)
    requires env.Valid()
  {
    && at <= |Calls(env)| && |Names(Calls(env)[..at])| == start + taken
    && (todo == Calls(env)[at..] ||
        (taken == 0 && exists pos :: Good(env, pos) && Need(env, pos) == start && todo == [Commit(pos)] + Calls(env)[at..]))
  }

  /** What has been counted: acks are those of the changes that fit among the
      ones dealt with. */
  ghost predicate CountsOk(env: Env, p: Process, w: Progress)
    requires env.Valid()
  {
    && p.gate.gated && w.n <= |Wanted(env)| && w.done <= Taken(p) && w.start + w.done <= w.n && w.start + Taken(p) <= |Wanted(env)|
    && p.gate.acked == Count(env, w.start + w.done) - Count(env, w.start)
    && (p.running && !p.ended ==> Queued(Wanted(env), p.bus, w.start + w.done, w.start + Taken(p)))
    && Clean(env, w.strict, w.start)
  }

  ghost predicate ProcessOk(env: Env, p: Process, w: Progress)
    requires env.Valid()
  {
    && CountsOk(env, p, w) && CommitsOk(env, p.gate, w.start) && SettledOk(env, p.gate, w.start)
    && TodoOk(env, p.todo, w.start, Taken(p), w.at)
  }

  ghost predicate Confirmed(env: Env, pos: Position, n: nat, strict: bool)
    requires env.Valid() && n <= |Wanted(env)|
  {
    Good(env, pos) && 0 <= Need(env, pos) <= n && Clean(env, strict, Need(env, pos))
  }

  ghost predicate Invariant(env: Env, s: State, w: Progress)
    requires env.Valid()
  {
    && w.n <= |Wanted(env)| && HoldsPrefix(WantedStream(env), env.unboundedWindow, s.stream, Count(env, w.n))
    && Confirmed(env, s.offset, w.n, w.strict)
    && (s.process.Some? ==> ProcessOk(env, s.process.value, w))
  }

  // ---------------------------------------------------------------------------
  // Every step keeps it

  lemma StartOk(env: Env, offset: Position, n: nat, strict: bool) returns (w: Progress)
    requires env.Valid() && n <= |Wanted(env)| && Confirmed(env, offset, n, strict)
    ensures w.n == n && w.strict == strict && ProcessOk(env, NewProcess(env, offset), w)
  {
    hide Need, Good, Names, Program, Clean, Count, Calls;
    var at := ProgramIsATail(env, offset);
    w := Progress(n, Need(env, offset), 0, at, strict);
  }

  lemma {:induction false} QueuedOther(wanted: seq<SourceId>, bus: seq<BusEvent>, i: nat, j: nat)
    requires j <= |wanted| && Queued(wanted, bus, i, j)
    ensures Queued(wanted, bus + [Other], i, j)
    decreases |bus|
  {
    if bus == [] {
      assert bus + [Other] == [Other];
    } else {
      assert (bus + [Other])[1..] == bus[1..] + [Other];
      QueuedOther(wanted, bus[1..], if bus[0].Other? then i else i + 1, j);
    }
  }

  lemma {:induction false} QueuedOwn(wanted: seq<SourceId>, bus: seq<BusEvent>, i: nat, j: nat)
    requires j < |wanted| && Queued(wanted, bus, i, j)
    ensures Queued(wanted, bus + [Own(wanted[j])], i, j + 1)
    decreases |bus|
  {
    var event := Own(wanted[j]);
    if bus == [] {
      assert bus + [event] == [event];
      assert [event][1..] == [];
    } else {
      assert (bus + [event])[1..] == bus[1..] + [event];
      QueuedOwn(wanted, bus[1..], if bus[0].Other? then i else i + 1, j);
    }
  }

  lemma EnqueueOtherOk(env: Env, p: Process, w: Progress)
    requires env.Valid() && ProcessOk(env, p, w)
    ensures ProcessOk(env, Enqueue(p, Other), w)
  {
    hide CommitsOk, SettledOk, TodoOk, Count, Clean, Wanted;
    if p.running && !p.ended {
      QueuedOther(Wanted(env), p.bus, w.start + w.done, w.start + Taken(p));
    }
  }

  /** Recording a boundary at which exactly the changes taken lie behind. */
  lemma CommittedOk(env: Env, g: Gate, start: nat, pos: Position)
    requires env.Valid() && CommitsOk(env, g, start) && SettledOk(env, g, start)
    requires Usable(pos) ==> CommitOk(env, Boundary(g.handed, pos), start, g.handed)
    ensures CommitsOk(env, g.Committed(pos), start) && SettledOk(env, g.Committed(pos), start)
  {
    hide CommitOk;
  }

  /** The next call is a boundary: exactly the changes taken lie behind it. */
  lemma BoundaryAhead(env: Env, todo: seq<Call>, start: nat, taken: nat, at: nat) returns (at': nat)
    requires env.Valid() && TodoOk(env, todo, start, taken, at) && todo != [] && todo[0].Commit?
    ensures Usable(todo[0].pos) ==> CommitOk(env, Boundary(taken, todo[0].pos), start, taken)
    ensures TodoOk(env, todo[1..], start, taken, at')
  {
    hide Need, Good, Names, Calls;
    var calls := Calls(env);
    var pos := todo[0].pos;
    at' := at;
    if todo == calls[at..] {
      NamesSoFar(env, at);
      if Usable(pos) {
        BoundaryCounts(env, at);
        assert BoundaryAfter(env, start + taken);
      }
      at' := at + 1;
      assert todo[1..] == calls[at + 1..];
    } else {
      assert todo[1..] == calls[at..];
    }
  }

  lemma RecordOk(env: Env, p: Process, w: Progress) returns (w': Progress)
    requires env.Valid() && ProcessOk(env, p, w) && !p.handing && p.todo != [] && p.todo[0].Commit?
    ensures w'.n == w.n && w'.strict == w.strict && ProcessOk(env, CallStep(p), w')
  {
    hide CountsOk, CommitsOk, SettledOk, CommitOk, TodoOk;
    var at' := BoundaryAhead(env, p.todo, w.start, Taken(p), w.at);
    w' := w.(at := at');
    CommittedOk(env, p.gate, w.start, p.todo[0].pos);
    SameCounts(env, p, CallStep(p), w, w');
  }

  /** Counts, bus and publisher are untouched. */
  lemma SameCounts(env: Env, p: Process, p': Process, w: Progress, w': Progress)
    requires env.Valid() && CountsOk(env, p, w) && w' == w.(at := w'.at)
    requires p'.gate.gated == p.gate.gated && p'.gate.acked == p.gate.acked && Taken(p') == Taken(p)
    requires p'.bus == p.bus && p'.running == p.running && p'.ended == p.ended
    ensures CountsOk(env, p', w')
  {
    hide Count, Clean, Wanted, Queued;
  }

  /** A call that names nothing. */
  lemma UnnamedOk(env: Env, p: Process, w: Progress)
    requires env.Valid() && ProcessOk(env, p, w) && !p.handing && p.todo != [] && p.todo[0].Emit? && NameOf(p.todo[0]) == []
    ensures ProcessOk(env, p.(todo := p.todo[1..]), w.(at := w.at + 1))
  {
    hide Need, Good, Names, Calls, CountsOk, CommitsOk, SettledOk;
    NamesSoFar(env, w.at);
    assert p.todo[1..] == Calls(env)[w.at + 1..];
    SameCounts(env, p, p.(todo := p.todo[1..]), w, w.(at := w.at + 1));
  }

  /** The next named change is the next in binlog order. */
  lemma NextNamed(env: Env, todo: seq<Call>, start: nat, taken: nat, at: nat)
    requires env.Valid() && TodoOk(env, todo, start, taken, at) && todo != [] && NameOf(todo[0]) != []
    ensures start + taken < |Wanted(env)| && Wanted(env)[start + taken] == todo[0].event.id.value
    ensures TodoOk(env, todo[1..], start, taken + 1, at + 1)
  {
    hide Need, Good, Names, Calls;
    NamesSoFar(env, at);
    NamesSoFar(env, at + 1);
    var names := Names(Calls(env)[..at + 1]);
    assert names[start + taken] == todo[0].event.id.value;
    assert todo[1..] == Calls(env)[at + 1..];
  }

  lemma TakenOk(env: Env, p: Process, w: Progress, id: SourceId)
    requires env.Valid() && CountsOk(env, p, w) && !p.handing
    requires w.start + Taken(p) < |Wanted(env)| && Wanted(env)[w.start + Taken(p)] == id
    ensures CountsOk(env, Enqueue(p, Own(id)).(handing := true), w)
  {
    hide Count, Clean, Wanted;
    if p.running && !p.ended {
      QueuedOwn(Wanted(env), p.bus, w.start + w.done, w.start + Taken(p));
    }
  }

  lemma AcceptOk(env: Env, p: Process, w: Progress)
    requires env.Valid() && ProcessOk(env, p, w) && !p.handing && p.todo != [] && NameOf(p.todo[0]) != []
    ensures ProcessOk(env, CallStep(p), w.(at := w.at + 1))
  {
    hide CountsOk, CommitsOk, SettledOk, TodoOk, Wanted;
    NextNamed(env, p.todo, w.start, Taken(p), w.at);
    var rest := p.(todo := p.todo[1..]);
    SameCounts(env, p, rest, w, w.(at := w.at + 1));
    TakenOk(env, rest, w.(at := w.at + 1), p.todo[0].event.id.value);
  }

  lemma CallOk(env: Env, p: Process, w: Progress) returns (w': Progress)
    requires env.Valid() && ProcessOk(env, p, w) && !p.handing && p.todo != []
    ensures w'.n == w.n && w'.strict == w.strict && ProcessOk(env, CallStep(p), w')
  {
    hide ProcessOk;
    if p.todo[0].Commit? {
      w' := RecordOk(env, p, w);
    } else if NameOf(p.todo[0]) != [] {
      w' := w.(at := w.at + 1);
      AcceptOk(env, p, w);
    } else {
      w' := w.(at := w.at + 1);
      UnnamedOk(env, p, w);
      EnqueueOtherOk(env, p.(todo := p.todo[1..]), w');
    }
  }

  lemma CountedOk(env: Env, p: Process, w: Progress)
    requires env.Valid() && ProcessOk(env, p, w) && p.handing
    ensures ProcessOk(env, p.(gate := p.gate.Hand(), handing := false), w)
  {
    hide Need, Good, BoundaryAfter, TodoOk;
    var p' := p.(gate := p.gate.Hand(), handing := false);
    SameCounts(env, p, p', w, w);
    hide CountsOk;
  }

  lemma SettleOk(env: Env, g: Gate, start: nat)
    requires env.Valid() && g.gated && CommitsOk(env, g, start) && SettledOk(env, g, start)
    ensures CommitsOk(env, g.Settle(), start) && SettledOk(env, g.Settle(), start)
  {
    var k := SettledCount(g.commits, g.acked);
    RestOk(env, g, start, k);
    if k > 0 {
      LastOk(env, g.commits[k - 1], start, g.handed);
    }
    hide CommitOk, SettledCount;
  }

  lemma RestOk(env: Env, g: Gate, start: nat, k: nat)
    requires env.Valid() && CommitsOk(env, g, start) && k <= |g.commits|
    ensures CommitsOk(env, g.(commits := g.commits[k..]), start)
  {
    hide CommitOk;
    assert forall i :: 0 <= i < |g.commits[k..]| ==> g.commits[k..][i] == g.commits[k + i];
  }

  lemma LastOk(env: Env, commit: Boundary, start: nat, handed: nat)
    requires env.Valid() && CommitOk(env, commit, start, handed)
    ensures CommitOk(env, Boundary(commit.lastHanded, commit.pos), start, commit.lastHanded)
  {
    hide Need, Good, BoundaryAfter;
  }

  /** What the gate confirms is dealt with, and nothing given up lies before it
      unless a boundary is overtaken. */
  lemma ConfirmableIsConfirmed(env: Env, p: Process, w: Progress)
    requires env.Valid() && CountsOk(env, p, w) && SettledOk(env, p.gate, w.start) && p.gate.confirmable != NOWHERE
    ensures Confirmed(env, p.gate.confirmable, w.n, w.strict)
  {
    hide Need, Good, BoundaryAfter, Count, Wanted, Queued, Overtaken;
    var h: nat :| h <= p.gate.acked && CommitOk(env, Boundary(h, p.gate.confirmable), w.start, h);
    CountGrows(env, w.start, w.start + w.done);
    CountGrows(env, w.start + w.done, |Wanted(env)|);
    if h > 0 && w.strict {
      BoundaryIsClean(env, w.start + h);
    }
  }

  lemma SaveOk(env: Env, s: State, w: Progress, written: bool)
    requires env.Valid() && Invariant(env, s, w) && s.process.Some?
    ensures Invariant(env, SaveStep(s, s.process.value, written), w)
  {
    hide HoldsPrefix, WantedStream, Count, Confirmed, CommitsOk, SettledOk, TodoOk, Wanted;
    var p := s.process.value;
    var p' := p.(gate := p.gate.Settle());
    SettleOk(env, p.gate, w.start);
    SameCounts(env, p, p', w, w);
    if p'.gate.confirmable != NOWHERE {
      ConfirmableIsConfirmed(env, p', w);
    }
    var p'' := p'.(saved := p'.gate.confirmable);
    SameCounts(env, p', p'', w, w);
    hide CountsOk;
  }

  /** The head of the bus is the next change to deal with. */
  lemma HeadOfQueue(env: Env, p: Process, w: Progress)
    requires env.Valid() && CountsOk(env, p, w) && p.running && !p.ended && p.bus != [] && p.bus[0].Own?
    ensures w.done < Taken(p) && p.bus[0].id == Wanted(env)[w.start + w.done]
    ensures Queued(Wanted(env), p.bus[1..], w.start + w.done + 1, w.start + Taken(p))
  {
    hide Wanted, Count, Clean;
  }

  function DealtWith(w: Progress): Progress {
    w.(n := Max(w.n, w.start + w.done + 1), done := w.done + 1)
  }

  /** Storing the head, or giving it up, deals with it. */
  lemma DealtCounts(env: Env, p: Process, w: Progress)
    requires env.Valid() && CountsOk(env, p, w) && p.running && !p.ended && p.bus != [] && p.bus[0].Own?
    ensures var w' := DealtWith(w);
      && w'.n <= |Wanted(env)| && CountsOk(env, p.(bus := p.bus[1..], gate := if env.Fits(p.bus[0].id) then p.gate.Observe() else p.gate), w')
      && Count(env, w'.n) == (if env.Fits(p.bus[0].id) then Max(Count(env, w.n), Count(env, w.start + w.done) + 1) else Count(env, w.n))
  {
    hide Wanted, Count, Clean;
    HeadOfQueue(env, p, w);
    var h := w.start + w.done;
    CountNext(env, h);
    if h < w.n {
      CountGrows(env, h + 1, w.n);
    }
    hide Queued;
  }

  lemma DealtOk(env: Env, p: Process, w: Progress)
    requires env.Valid() && ProcessOk(env, p, w) && p.running && !p.ended && p.bus != [] && p.bus[0].Own?
    ensures ProcessOk(env, p.(bus := p.bus[1..], gate := if env.Fits(p.bus[0].id) then p.gate.Observe() else p.gate), DealtWith(w))
  {
    DealtCounts(env, p, w);
    hide CountsOk, CommitOk, TodoOk;
  }

  /** Stored, but the ack got lost: the event stays where it is. */
  lemma StoredOk(env: Env, p: Process, w: Progress, n: nat)
    requires env.Valid() && ProcessOk(env, p, w) && w.n <= n <= |Wanted(env)|
    ensures ProcessOk(env, p, w.(n := n))
  {
    hide Count, Clean, Wanted, Queued, CommitsOk, SettledOk, TodoOk;
  }

  lemma ConfirmedLater(env: Env, offset: Position, w: Progress)
    requires env.Valid() && w.n <= |Wanted(env)| && Confirmed(env, offset, w.n, w.strict)
    ensures DealtWith(w).n <= |Wanted(env)| ==> Confirmed(env, offset, DealtWith(w).n, w.strict)
  {
    hide Need, Good, Wanted, Clean;
  }

  lemma PublishOk(env: Env, s: State, p: Process, w: Progress, remembered: bool, ackArrives: bool) returns (w': Progress)
    requires env.Valid() && Invariant(env, s, w) && s.process == Some(p)
    requires AtOwn(p) && !p.ended && env.Fits(p.bus[0].id) && (env.unboundedWindow ==> remembered)
    ensures Next(env, s, Publish(remembered, ackArrives)).Some?
    ensures Invariant(env, Next(env, s, Publish(remembered, ackArrives)).value, w') && w'.strict == w.strict
  {
    hide Wanted, WantedStream, Count, Clean, CommitsOk, SettledOk, TodoOk, HoldsPrefix, Confirmed, Queued, MessageOf;
    ConfirmedLater(env, s.offset, w);
    var h := w.start + w.done;
    HeadOfQueue(env, p, w);
    DealtCounts(env, p, w);
    FittingPlace(env, h);
    CountGrows(env, h, w.n);
    WantedIdsDiffer(env);
    StoreKeepsPrefix(WantedStream(env), env.unboundedWindow, s.stream, Count(env, w.n), Count(env, h), remembered);
    DealtOk(env, p, w);
    StoredOk(env, p, w, DealtWith(w).n);
    hide ProcessOk, CountsOk;
    w' := if ackArrives then DealtWith(w) else w.(n := DealtWith(w).n);
  }

  /** Giving up the head, while the context lives, deals with it. */
  lemma SkipOk(env: Env, p: Process, w: Progress) returns (w': Progress)
    requires env.Valid() && ProcessOk(env, p, w) && AtOwn(p) && !env.Fits(p.bus[0].id)
    ensures ProcessOk(env, p.(bus := p.bus[1..]), w')
    ensures (w' == w || w' == DealtWith(w)) && w'.n <= |Wanted(env)| && Count(env, w'.n) == Count(env, w.n)
  {
    hide Wanted, Count, Clean, CommitsOk, SettledOk, TodoOk;
    w' := w;
    if !p.ended {
      DealtCounts(env, p, w);
      DealtOk(env, p, w);
      w' := DealtWith(w);
    }
  }

  lemma QuietStepOk(env: Env, p: Process, w: Progress, step: Step)
    requires env.Valid() && ProcessOk(env, p, w) && ProcessStep(env, p, step).Some?
    requires step.SkipOther? || step.EndContext? || step.GiveUp? || step.StopPublisher?
    ensures ProcessOk(env, ProcessStep(env, p, step).value, w)
  {
    hide CommitsOk, SettledOk, TodoOk, Count, Clean, Wanted;
  }

  lemma ProcessStepOk(env: Env, p: Process, w: Progress, step: Step) returns (w': Progress)
    requires env.Valid() && ProcessOk(env, p, w) && !step.Publish? && !step.SkipOversized? && ProcessStep(env, p, step).Some?
    ensures w'.n == w.n && w'.strict == w.strict && ProcessOk(env, ProcessStep(env, p, step).value, w')
  {
    hide ProcessOk;
    w' := w;
    match step
    case NextCall => w' := CallOk(env, p, w);
    case CountHanded => CountedOk(env, p, w);
    case OtherEvent => EnqueueOtherOk(env, p, w);
    case _ => QuietStepOk(env, p, w, step);
  }

  /** The dump a start finds. */
  function DumpOf(step: Step): Option<Position> {
    if step.Start? then step.dump else None
  }

  /** Nothing is skipped by going on from here: every earlier change that fits is
      stored, or, strictly, every earlier change. */
  ghost predicate Covered(env: Env, s: State, pos: Position, strict: bool)
    requires env.Valid()
  {
    && Good(env, pos)
    && forall k :: 0 <= k < |Wanted(env)| && k < Need(env, pos) && (strict || env.Fits(Wanted(env)[k])) ==>
         MessageOf(env, Wanted(env)[k]) in s.stream
  }

  /** What is stored is among the first n changes, and fits. */
  lemma StoredIsDealtWith(env: Env, s: State, w: Progress, k: nat)
    requires env.Valid() && Invariant(env, s, w) && k < |Wanted(env)| && MessageOf(env, Wanted(env)[k]) in s.stream
    ensures env.Fits(Wanted(env)[k]) && Count(env, k) < Count(env, w.n)
  {
    hide Wanted, Count, ProcessOk, Confirmed, WantedStream;
    var m, wanted := MessageOf(env, Wanted(env)[k]), WantedStream(env);
    assert m in wanted[..Count(env, w.n)];
    var j :| 0 <= j < Count(env, w.n) && j < |wanted| && wanted[j] == m;
    WantedMessagesFit(env, m);
    FittingPlace(env, k);
    WantedIdsDiffer(env);
    assert wanted[Count(env, k)].id == wanted[j].id;
    SameIdSamePlace(wanted, Count(env, k), j);
  }

  lemma SameIdSamePlace<T>(messages: seq<Message<T>>, i: nat, j: nat)
    requires DistinctIds(messages) && i < |messages| && j < |messages| && messages[i].id == messages[j].id
    ensures i == j
  {
  }

  lemma WantedMessagesFit(env: Env, m: Message<SourceId>)
    requires env.Valid() && m in WantedStream(env)
    ensures env.Fits(m.body)
  {
    hide Names;
    NamesFromDistinct(env.binlog, First(env));
    FittingIsDistinct(env, Wanted(env));
    var ids := Fitting(env, Wanted(env));
    var k :| 0 <= k < |ids| && WantedStream(env)[k] == m;
    assert ids[k] in ids;
  }

  lemma CoveredAt(env: Env, s: State, pos: Position, strict: bool, k: nat)
    requires env.Valid() && Covered(env, s, pos, strict) && k < |Wanted(env)| && k < Need(env, pos)
    requires strict || env.Fits(Wanted(env)[k])
    ensures MessageOf(env, Wanted(env)[k]) in s.stream
  {
    hide Wanted, Need, Good, MessageOf;
  }

  /** Covered changes beyond the ones dealt with fit nowhere. */
  lemma {:induction false} CoveredCounts(env: Env, s: State, w: Progress, pos: Position, k: nat)
    requires env.Valid() && Invariant(env, s, w) && Covered(env, s, pos, w.strict) && k <= |Wanted(env)| && k <= Need(env, pos)
    ensures Count(env, k) <= Count(env, w.n)
    ensures w.strict ==> Count(env, k) == k
    decreases k
  {
    hide Wanted, Count, Invariant, Covered, Need;
    if k == 0 {
      NothingCounted(env);
    } else {
      CoveredCounts(env, s, w, pos, k - 1);
      CountNext(env, k - 1);
      if w.strict || env.Fits(Wanted(env)[k - 1]) {
        CoveredAt(env, s, pos, w.strict, k - 1);
        StoredIsDealtWith(env, s, w, k - 1);
      }
    }
  }

  lemma NothingCounted(env: Env)
    requires env.Valid()
    ensures Count(env, 0) == 0
  {
  }

  lemma NeedIsBounded(env: Env, pos: Position)
    requires env.Valid() && Good(env, pos)
    ensures 0 <= Need(env, pos) <= |Wanted(env)|
  {
    hide Names, Program, FirstAtOrAfter, ProducedFrom;
    var at := ProgramIsATail(env, pos);
    NamesSoFar(env, at);
  }

  /** A dump that skips nothing may replace the offset. */
  lemma DumpOk(env: Env, s: State, w: Progress, d: Position) returns (n: nat)
    requires env.Valid() && Invariant(env, s, w) && Covered(env, s, d, w.strict)
    ensures w.n <= n <= |Wanted(env)| && Count(env, n) == Count(env, w.n) && Confirmed(env, d, n, w.strict)
  {
    NeedIsBounded(env, d);
    CoveredCounts(env, s, w, d, Need(env, d));
    StrictMeansNotOvertaken(env, s, w);
    hide Wanted, Count, Need, Good, ProcessOk, HoldsPrefix, WantedStream, Overtaken, Confirmed;
    n := Max(w.n, Need(env, d));
    CountGrows(env, w.n, n);
    assert Confirmed(env, d, n, w.strict) by { ConfirmedIs(env, d, n, w.strict); }
  }

  lemma ConfirmedIs(env: Env, pos: Position, n: nat, strict: bool)
    requires env.Valid() && n <= |Wanted(env)| && Good(env, pos) && 0 <= Need(env, pos) <= n
    requires strict ==> !Overtaken(env) && Count(env, Need(env, pos)) == Need(env, pos)
    ensures Confirmed(env, pos, n, strict)
  {
    hide Wanted, Count, Need, Good, Overtaken;
  }

  lemma StrictMeansNotOvertaken(env: Env, s: State, w: Progress)
    requires env.Valid() && Invariant(env, s, w)
    ensures w.strict ==> !Overtaken(env)
  {
    hide Wanted, Count, Need, Good, ProcessOk, HoldsPrefix, WantedStream, Overtaken;
  }

  lemma StepOk(env: Env, s: State, w: Progress, step: Step) returns (w': Progress)
    requires env.Valid() && Invariant(env, s, w) && Next(env, s, step).Some?
    requires DumpOf(step).Some? ==> Covered(env, s, DumpOf(step).value, w.strict)
    ensures Invariant(env, Next(env, s, step).value, w') && w'.strict == w.strict
  {
    hide ProcessOk, HoldsPrefix, Confirmed, Count, WantedStream, Wanted, Covered;
    w' := w;
    match step
    case Start(dump) =>
      var n := w.n;
      if dump.Some? {
        n := DumpOk(env, s, w, dump.value);
      }
      w' := StartOk(env, StartOffset(s.offset, dump), n, w.strict);
    case Crash =>
    case Save(written) => SaveOk(env, s, w, written);
    case Publish(remembered, ackArrives) => w' := PublishOk(env, s, s.process.value, w, remembered, ackArrives);
    case SkipOversized =>
      w' := SkipOk(env, s.process.value, w);
      ConfirmedLater(env, s.offset, w);
    case _ => w' := ProcessStepOk(env, s.process.value, w, step);
  }

  lemma InitOk(env: Env, strict: bool)
    requires env.Valid() && (strict ==> !Overtaken(env))
    ensures Invariant(env, Init(env), Progress(0, 0, 0, 0, strict))
  {
    OriginIsGood(env);
  }

  /** Every start of the run that finds a dump goes on from a covered position. */
  ghost predicate Careful(env: Env, strict: bool, steps: seq<Step>)
    requires env.Valid()
  {
    if steps == [] then true
    else
      var front, last := steps[..|steps| - 1], steps[|steps| - 1];
      && Careful(env, strict, front)
      && (Run(env, front).Some? && DumpOf(last).Some? ==> Covered(env, Run(env, front).value, DumpOf(last).value, strict))
  }

  lemma {:induction false} RunOk(env: Env, steps: seq<Step>, strict: bool) returns (w: Progress)
    requires env.Valid() && Run(env, steps).Some? && Careful(env, strict, steps) && (strict ==> !Overtaken(env))
    ensures Invariant(env, Run(env, steps).value, w) && w.strict == strict
  {
    hide Invariant, Next, Init, Covered, Overtaken;
    if steps == [] {
      w := Progress(0, 0, 0, 0, strict);
      InitOk(env, strict);
    } else {
      var front := steps[..|steps| - 1];
      w := RunOk(env, front, strict);
      w := StepOk(env, Run(env, front).value, w, steps[|steps| - 1]);
    }
  }

  // ---------------------------------------------------------------------------
  // Main results

  /** In every run whose dumps skip nothing, under every interleaving of
      callbacks, acks and saves and across crashes, every accepted change before
      the saved offset and after the initial one is stored, if the stream can
      take it at all. */
  lemma NothingBeforeTheOffsetIsLost(env: Env, steps: seq<Step>, k: nat)
    requires env.Valid() && Run(env, steps).Some? && Careful(env, false, steps)
    requires k < |Wanted(env)| && k < Need(env, Run(env, steps).value.offset) && env.Fits(Wanted(env)[k])
    ensures MessageOf(env, Wanted(env)[k]) in Run(env, steps).value.stream
  {
    hide Wanted, WantedStream, Count, Need, Overtaken;
    var w := RunOk(env, steps, false);
    FittingPlace(env, k);
    CountNext(env, k);
    CountGrows(env, k + 1, w.n);
    assert WantedStream(env)[..Count(env, w.n)][Count(env, k)] in Run(env, steps).value.stream;
  }

  /** What is produced from a later group is the tail of what is produced. */
  lemma {:induction false} NamesAreATail(env: Env, i: nat, j: nat)
    requires env.Valid() && i <= j <= |env.binlog.groups|
    ensures Left(env, j) <= Left(env, i)
    ensures Names(ProducedFrom(env.binlog, j)) == Names(ProducedFrom(env.binlog, i))[Left(env, i) - Left(env, j)..]
    decreases j - i
  {
    hide Names;
    hide Produced;
    if i == j {
    } else {
      NamesAreATail(env, i + 1, j);
      var here, later := Produced(env.binlog, env.binlog.groups[i]), ProducedFrom(env.binlog, i + 1);
      NamesConcat(here, later);
      TailOfConcat(Names(here), Names(later), Left(env, i + 1) - Left(env, j));
    }
  }

  lemma TailOfConcat<T>(a: seq<T>, b: seq<T>, k: nat)
    requires k <= |b|
    ensures (a + b)[|a| + k..] == b[k..]
  {
  }

  /** Where the changes of a group sit in the order of all changes. */
  lemma GroupPlace(env: Env, j: nat, i: nat)
    requires env.Valid() && First(env) <= j < |env.binlog.groups|
    requires i < |Names(Produced(env.binlog, env.binlog.groups[j]))|
    ensures var k := |Wanted(env)| - Left(env, j) + i;
      && 0 <= k < |Wanted(env)| - Left(env, j + 1)
      && Wanted(env)[k] == Names(Produced(env.binlog, env.binlog.groups[j]))[i]
  {
    hide Names;
    hide Produced;
    var b := env.binlog;
    var here, later := Produced(b, b.groups[j]), ProducedFrom(b, j + 1);
    assert ProducedFrom(b, j) == here + later;
    NamesConcat(here, later);
    NamesAreATail(env, First(env), j);
    assert Names(ProducedFrom(b, j))[i] == Names(here)[i];
  }

  /** The same, said of a group of the binlog: once the offset lies behind it,
      all its accepted rows, or its statement, are stored. */
  lemma GroupsBeforeTheOffsetAreStored(env: Env, steps: seq<Step>, j: nat, id: SourceId)
    requires env.Valid() && Run(env, steps).Some? && Careful(env, false, steps)
    requires First(env) <= j < ResumeIndex(env.binlog, Run(env, steps).value.offset)
    requires id in Names(Produced(env.binlog, env.binlog.groups[j])) && env.Fits(id)
    ensures MessageOf(env, id) in Run(env, steps).value.stream
  {
    hide Names, Produced, ProducedFrom, Run, Wanted, Left, FirstAtOrAfter, Careful, MessageOf;
    var here := Names(Produced(env.binlog, env.binlog.groups[j]));
    var i :| 0 <= i < |here| && here[i] == id;
    GroupPlace(env, j, i);
    NamesAreATail(env, j + 1, ResumeIndex(env.binlog, Run(env, steps).value.offset));
    NothingBeforeTheOffsetIsLost(env, steps, |Wanted(env)| - Left(env, j) + i);
  }

  /** The law over the binlog itself: once the offset lies behind a transaction,
      every row of it that the bus takes, every pair of an update, is stored if
      it fits. The message id is the prefix, a slash, and the change's place. */
  lemma RowsBeforeTheOffsetAreStored(env: Env, steps: seq<Step>, j: nat, k: nat, i: nat)
    requires env.Valid() && Run(env, steps).Some? && Careful(env, false, steps)
    requires First(env) <= j < ResumeIndex(env.binlog, Run(env, steps).value.offset) && env.binlog.groups[j].body.Transaction?
    requires k < |env.binlog.groups[j].body.rows| && Takes(env.binlog.groups[j].body.rows[k], i)
    ensures var id := ChangeName(env.binlog, env.binlog.groups[j], k, i);
      env.Fits(id) ==> Message(env.prefix + "/" + Print(id), id) in Run(env, steps).value.stream
  {
    hide Run, Careful, Names, Produced, ChangeName, Takes;
    var id := ChangeName(env.binlog, env.binlog.groups[j], k, i);
    EveryChangeIsNamed(env.binlog, env.binlog.groups[j], k, i);
    if env.Fits(id) {
      GroupsBeforeTheOffsetAreStored(env, steps, j, id);
      MessageText(env, id);
    }
  }

  lemma MessageText(env: Env, id: SourceId)
    ensures MessageOf(env, id) == Message(env.prefix + "/" + Print(id), id)
  {
    hide Print;
  }

  /** And so is every statement behind the offset. */
  lemma StatementsBeforeTheOffsetAreStored(env: Env, steps: seq<Step>, j: nat)
    requires env.Valid() && Run(env, steps).Some? && Careful(env, false, steps)
    requires First(env) <= j < ResumeIndex(env.binlog, Run(env, steps).value.offset) && env.binlog.groups[j].body.Statement?
    ensures var g := env.binlog.groups[j];
      var id := MySqlDdl(env.binlog.files[g.file], g.end);
      env.Fits(id) ==> Message(env.prefix + "/" + Print(id), id) in Run(env, steps).value.stream
  {
    hide Run, Careful, Names, Produced;
    var g := env.binlog.groups[j];
    var id := MySqlDdl(env.binlog.files[g.file], g.end);
    EveryStatementIsNamed(env.binlog, g);
    if env.Fits(id) {
      GroupsBeforeTheOffsetAreStored(env, steps, j, id);
      MessageText(env, id);
    }
  }

  /** With an unbounded duplicate window the stream is at every moment a prefix
      of the changes it can take, in binlog order, each exactly once; and it
      holds all of those before the offset. */
  lemma StreamIsABinlogOrderPrefix(env: Env, steps: seq<Step>)
    requires env.Valid() && env.unboundedWindow && Run(env, steps).Some? && Careful(env, false, steps)
    ensures var s := Run(env, steps).value;
      && s.stream <= WantedStream(env) && DistinctIds(s.stream)
      && 0 <= Need(env, s.offset) <= |Wanted(env)| && Count(env, Need(env, s.offset)) <= |s.stream|
  {
    hide Wanted, WantedStream, Count, Need, Overtaken;
    var w := RunOk(env, steps, false);
    WantedIdsDiffer(env);
    CountGrows(env, Need(env, Run(env, steps).value.offset), w.n);
  }
}
