/** When the delivery protocol loses a change, exactly.

    The publisher gives up on an event that is too large even without its data,
    and the gate counts by the highest acked sequence. So one such event is
    lost as soon as any later event is acked, a re-streamed earlier one
    included. This module builds that run for every source that allows it and
    shows that there is none otherwise. It also shows that the protocol can
    always finish: from wherever a run stands, some continuation delivers the
    whole source and confirms it. */
module PgOversize {
  import opened Ladder
  import opened PgGate
  import opened PgDelivery
  import opened Streams

  /** Everything the slot has passed is in the stream, in some form. */
  ghost predicate Lossless(env: Env, s: State) {
    forall t, i :: 0 <= t < |env.source| && env.source[t].endLsn <= s.slot && 0 <= i && PlaceIn(env, Place(t, i)) ==>
      exists m <- s.stream :: m.id == IdAt(env, Place(t, i)) && m.body.change == env.source[t].changes[i]
  }

  ghost predicate NoneDeliverable(env: Env) {
    forall t, i :: 0 <= t < |env.source| && 0 <= i < |env.source[t].changes| && env.source[t].changes[i].accepted ==>
      !env.source[t].changes[i].Deliverable()
  }

  // ---------------------------------------------------------------------------
  // Building runs

  lemma Append(env: Env, steps: seq<Step>, step: Step)
    requires Run(env, steps).Some?
    ensures Run(env, steps + [step]) == Next(env, Run(env, steps).value, step)
  {
    assert (steps + [step])[..|steps|] == steps;
  }

  /** The steps go on without taking the process down or breaking its session. */
  ghost predicate Uninterrupted(steps: seq<Step>, steps': seq<Step>) {
    steps <= steps' && forall k :: |steps| <= k < |steps'| ==> !steps'[k].Crash? && !steps'[k].Disconnect?
  }

  /** The commits queued or already settled cover a position. */
  ghost predicate Recorded(g: Gate, lsn: Lsn) {
    g.confirmable >= lsn || exists i :: 0 <= i < |g.commits| && g.commits[i].end >= lsn
  }

  /** A gate whose queued commits wait on events already handed. */
  ghost predicate Tidy(g: Gate) {
    g.gated && Bounded(g.commits, g.handed)
  }

  /** The listener is streaming, the publisher at rest. */
  ghost predicate Ready(env: Env, p: Process) {
    && p.session.Some? && InSource(env, p.session.value) && p.idling.None?
    && p.running && !p.ended && p.form == Full && Tidy(p.gate)
  }

  /** Only deliverable changes are stored: nothing else ever is. */
  ghost predicate CleanStream(s: State) {
    forall m <- s.stream :: m.body.change.Deliverable()
  }

  function Successor(env: Env, c: Cursor): Cursor
    requires InSource(env, c) && c.txn < |env.source|
  {
    if c.step <= |env.source[c.txn].changes| then Cursor(c.txn, c.step + 1) else Cursor(c.txn + 1, 0)
  }

  function StepAt(env: Env, c: Cursor): Step
    requires InSource(env, c) && c.txn < |env.source|
  {
    if c.step == 0 then StreamBegin
    else if c.step <= |env.source[c.txn].changes| then StreamChange
    else StreamCommit
  }

  lemma CommitRecords(g: Gate, end: Lsn, lsn: Lsn)
    requires Tidy(g)
    ensures Tidy(g.Committed(end)) && Recorded(g.Committed(end), end)
    ensures Recorded(g, lsn) ==> Recorded(g.Committed(end), lsn)
  {
    var g' := g.Committed(end);
    assert g'.commits[|g'.commits| - 1].end >= end;
    if Recorded(g, lsn) && g.confirmable < lsn {
      var i :| 0 <= i < |g.commits| && g.commits[i].end >= lsn;
      assert g'.commits[i].end >= lsn;
    }
  }

  /** Nothing but the listener moved, and it only went on. */
  ghost predicate ListenerWentOn(s: State, s': State, lsn: Lsn) {
    && s'.stream == s.stream && s'.slot == s.slot && s'.sent == s.sent
    && s'.process.gate.acked == s.process.gate.acked
    && s'.process.gate.handed >= s.process.gate.handed
    && (Recorded(s.process.gate, lsn) ==> Recorded(s'.process.gate, lsn))
  }

  lemma StreamStep(env: Env, s: State, lsn: Lsn) returns (s': State)
    requires Ready(env, s.process) && s.process.session.value.txn < |env.source|
    ensures var c := s.process.session.value;
      && Next(env, s, StepAt(env, c)) == Some(s')
      && Ready(env, s'.process) && s'.process.session.value == Successor(env, c)
      && ListenerWentOn(s, s', lsn)
      && (StepAt(env, c).StreamCommit? ==> Recorded(s'.process.gate, env.source[c.txn].endLsn))
  {
    var c := s.process.session.value;
    s' := Next(env, s, StepAt(env, c)).value;
    if StepAt(env, c).StreamCommit? {
      CommitRecords(s.process.gate, env.source[c.txn].endLsn, lsn);
    }
  }

  predicate Before(c: Cursor, target: Cursor) {
    c.txn < target.txn || (c.txn == target.txn && c.step <= target.step)
  }

  function MessagesLeft(env: Env, c: Cursor): nat {
    if c.txn < |env.source| && c.step <= |env.source[c.txn].changes| then |env.source[c.txn].changes| + 1 - c.step else 0
  }

  lemma StreamOne(env: Env, steps: seq<Step>, s: State, lsn: Lsn) returns (steps': seq<Step>, s': State)
    requires Run(env, steps) == Some(s) && Ready(env, s.process) && s.process.session.value.txn < |env.source|
    ensures Run(env, steps') == Some(s') && Uninterrupted(steps, steps')
    ensures Ready(env, s'.process) && s'.process.session.value == Successor(env, s.process.session.value)
    ensures ListenerWentOn(s, s', lsn)
    ensures s'.process.session.value.txn > s.process.session.value.txn && lsn == env.source[s.process.session.value.txn].endLsn ==>
      Recorded(s'.process.gate, lsn)
  {
    var step := StepAt(env, s.process.session.value);
    s' := StreamStep(env, s, lsn);
    Append(env, steps, step);
    steps' := steps + [step];
  }

  lemma WentOnFurther(s1: State, s2: State, s3: State, lsn: Lsn)
    requires ListenerWentOn(s1, s2, lsn) && ListenerWentOn(s2, s3, lsn)
    ensures ListenerWentOn(s1, s3, lsn)
    ensures Recorded(s2.process.gate, lsn) ==> Recorded(s3.process.gate, lsn)
  {
  }

  lemma SuccessorAdvances(env: Env, c: Cursor, target: Cursor)
    requires InSource(env, c) && InSource(env, target) && Before(c, target) && c != target
    ensures c.txn < |env.source| && InSource(env, Successor(env, c)) && Before(Successor(env, c), target)
    ensures Successor(env, c).txn == c.txn ==> MessagesLeft(env, Successor(env, c)) < MessagesLeft(env, c)
    ensures Successor(env, c).txn <= c.txn + 1
  {
  }

  /** Stream up to a later point; a commit on the way is recorded. */
  lemma {:induction false} StreamUntil(env: Env, steps: seq<Step>, s: State, target: Cursor, t: nat)
    returns (steps': seq<Step>, s': State)
    requires Run(env, steps) == Some(s) && Ready(env, s.process)
    requires InSource(env, target) && Before(s.process.session.value, target) && t < |env.source|
    ensures Run(env, steps') == Some(s') && Uninterrupted(steps, steps')
    ensures Ready(env, s'.process) && s'.process.session.value == target
    ensures ListenerWentOn(s, s', env.source[t].endLsn)
    ensures s.process.session.value.txn <= t < target.txn ==> Recorded(s'.process.gate, env.source[t].endLsn)
    decreases target.txn - s.process.session.value.txn, MessagesLeft(env, s.process.session.value)
  {
    if s.process.session.value == target {
      steps', s' := steps, s;
    } else {
      SuccessorAdvances(env, s.process.session.value, target);
      var from := s.process.session.value.txn;
      var one, next := StreamOne(env, steps, s, env.source[t].endLsn);
      steps', s' := StreamUntil(env, one, next, target, t);
      WentOnFurther(s, next, s', env.source[t].endLsn);
      if from <= t < target.txn {
        assert t == from || next.process.session.value.txn <= t;
        assert Recorded(s'.process.gate, env.source[t].endLsn);
      }
    }
  }

  /** Streaming an accepted change puts it, with the newest sequence, last on
      the bus. */
  lemma StreamAccepted(env: Env, s: State, lsn: Lsn) returns (s': State)
    requires Ready(env, s.process) && s.process.session.value.txn < |env.source|
    requires var c := s.process.session.value;
      0 < c.step <= |env.source[c.txn].changes| && env.source[c.txn].changes[c.step - 1].accepted
    ensures Next(env, s, StreamChange) == Some(s') && Ready(env, s'.process) && ListenerWentOn(s, s', lsn)
    ensures s'.process.gate.handed == s.process.gate.handed + 1
    ensures s'.process.bus != []
    ensures var c := s.process.session.value;
      var last := s'.process.bus[|s'.process.bus| - 1];
      last.Own? && last.sequence == s'.process.gate.handed && last.change == env.source[c.txn].changes[c.step - 1]
  {
    s' := StreamStep(env, s, lsn);
  }

  // Publisher

  /** Only the publisher moved. */
  ghost predicate PublisherWentOn(s: State, s': State) {
    && s'.slot == s.slot && s'.sent == s.sent
    && s'.process.gate == s.process.gate.(acked := s'.process.gate.acked)
    && s'.process.gate.acked >= s.process.gate.acked
    && s'.process.session == s.process.session && s'.process.idling == s.process.idling
    && s'.process.running && !s'.process.ended && s'.process.form == Full
    && (CleanStream(s) ==> CleanStream(s'))
  }

  ghost predicate AtRest(p: Process) {
    p.running && !p.ended && p.form == Full
  }

  lemma PublishForm(env: Env, s: State)
    requires Attempting(s.process) && !s.process.ended && s.process.running && s.process.form in s.process.bus[0].change.fits
    ensures var next := Next(env, s, Publish(true, true));
      && next.Some? && PublisherWentOn(s, next.value) && next.value.process.bus == s.process.bus[1..]
      && next.value.process.gate.acked >= s.process.bus[0].sequence
  {
    assert s.process.bus[0].change.Deliverable() by {
      match s.process.form
      case Full =>
      case KeyOnly =>
      case Stripped =>
    }
  }

  /** The steps the head of the bus goes through: published in the first form
      that fits, or given up. */
  function HeadSteps(e: BusEvent): seq<Step> {
    if e.Other? then [SkipOther]
    else if Full in e.change.fits then [Publish(true, true)]
    else if KeyOnly in e.change.fits then [TooLarge, Publish(true, true)]
    else if Stripped in e.change.fits then [TooLarge, TooLarge, Publish(true, true)]
    else [TooLarge, TooLarge, TooLarge]
  }

  lemma TwiceTooLarge(env: Env, steps: seq<Step>, s: State)
    requires Run(env, steps) == Some(s) && AtRest(s.process) && s.process.bus != [] && s.process.bus[0].Own?
    requires Full !in s.process.bus[0].change.fits
    ensures Run(env, steps + [TooLarge]) == Some(s.(process := s.process.(form := KeyOnly)))
    ensures KeyOnly !in s.process.bus[0].change.fits ==>
      Run(env, steps + [TooLarge] + [TooLarge]) == Some(s.(process := s.process.(form := Stripped)))
  {
    Append(env, steps, TooLarge);
    if KeyOnly !in s.process.bus[0].change.fits {
      Append(env, steps + [TooLarge], TooLarge);
    }
  }

  /** What became of the head of the bus. */
  ghost predicate HeadDone(s: State, next: State)
    requires s.process.bus != []
  {
    && PublisherWentOn(s, next) && next.process.bus == s.process.bus[1..]
    && var e := s.process.bus[0];
       (e.Own? && e.change.Deliverable() ==> next.process.gate.acked >= e.sequence)
  }

  lemma DrainKeyOnly(env: Env, steps: seq<Step>, s: State)
    requires Run(env, steps) == Some(s) && AtRest(s.process) && s.process.bus != [] && s.process.bus[0].Own?
    requires Full !in s.process.bus[0].change.fits && KeyOnly in s.process.bus[0].change.fits
    ensures var next := Run(env, steps + [TooLarge, Publish(true, true)]); next.Some? && HeadDone(s, next.value)
  {
    TwiceTooLarge(env, steps, s);
    PublishForm(env, s.(process := s.process.(form := KeyOnly)));
    Append(env, steps + [TooLarge], Publish(true, true));
    assert steps + [TooLarge, Publish(true, true)] == steps + [TooLarge] + [Publish(true, true)];
  }

  lemma DrainStripped(env: Env, steps: seq<Step>, s: State)
    requires Run(env, steps) == Some(s) && AtRest(s.process) && s.process.bus != [] && s.process.bus[0].Own?
    requires Full !in s.process.bus[0].change.fits && KeyOnly !in s.process.bus[0].change.fits
    ensures var next := Run(env, steps + HeadSteps(s.process.bus[0])); next.Some? && HeadDone(s, next.value)
  {
    var e := s.process.bus[0];
    TwiceTooLarge(env, steps, s);
    var last := if Stripped in e.change.fits then Publish(true, true) else TooLarge;
    if Stripped in e.change.fits {
      PublishForm(env, s.(process := s.process.(form := Stripped)));
    }
    Append(env, steps + [TooLarge] + [TooLarge], last);
    assert steps + HeadSteps(e) == steps + [TooLarge] + [TooLarge] + [last];
  }

  lemma DrainHead(env: Env, steps: seq<Step>, s: State) returns (steps': seq<Step>, s': State)
    requires Run(env, steps) == Some(s) && AtRest(s.process) && s.process.bus != []
    ensures Run(env, steps') == Some(s') && Uninterrupted(steps, steps') && HeadDone(s, s')
  {
    var e := s.process.bus[0];
    steps' := steps + HeadSteps(e);
    if e.Other? {
      Append(env, steps, SkipOther);
    } else if Full in e.change.fits {
      PublishForm(env, s);
      Append(env, steps, Publish(true, true));
    } else if KeyOnly in e.change.fits {
      DrainKeyOnly(env, steps, s);
    } else {
      DrainStripped(env, steps, s);
    }
    s' := Run(env, steps').value;
  }

  lemma PublishedFurther(s1: State, s2: State, s3: State)
    requires PublisherWentOn(s1, s2) && PublisherWentOn(s2, s3)
    ensures PublisherWentOn(s1, s3)
  {
  }

  /** Work the whole bus off. */
  lemma {:induction false} Drain(env: Env, steps: seq<Step>, s: State) returns (steps': seq<Step>, s': State)
    requires Run(env, steps) == Some(s) && AtRest(s.process)
    ensures Run(env, steps') == Some(s') && Uninterrupted(steps, steps')
    ensures PublisherWentOn(s, s') && s'.process.bus == []
    ensures s.process.bus != [] ==>
      var last := s.process.bus[|s.process.bus| - 1];
      last.Own? && last.change.Deliverable() ==> s'.process.gate.acked >= last.sequence
    decreases |s.process.bus|
  {
    hide Next, Run, CleanStream;
    var bus := s.process.bus;
    if bus == [] {
      steps', s' := steps, s;
    } else {
      assert |bus| > 1 ==> bus[1..][|bus| - 2] == bus[|bus| - 1];
      var one, next := DrainHead(env, steps, s);
      steps', s' := Drain(env, one, next);
      PublishedFurther(s, next, s');
    }
  }

  lemma {:induction false} ConfirmedCovers(commits: seq<PendingCommit>, acked: nat, i: nat)
    requires i < |commits| && commits[i].lastSequence <= acked
    ensures Confirmed(commits, acked) >= commits[i].end
  {
    if i == |commits| - 1 {
    } else {
      ConfirmedCovers(commits[..|commits| - 1], acked, i);
    }
  }

  /** With every handed event acked, the whole queue settles. */
  lemma FlushCovers(g: Gate, lsn: Lsn)
    requires Tidy(g) && g.acked >= g.handed && Recorded(g, lsn)
    ensures g.Settle().confirmable >= lsn
  {
    var k := SettledCount(g.commits, g.acked);
    assert k == |g.commits|;
    assert g.commits[..k] == g.commits;
    if g.confirmable < lsn {
      var i :| 0 <= i < |g.commits| && g.commits[i].end >= lsn;
      ConfirmedCovers(g.commits, g.acked, i);
    }
  }

  /** Confirm what is settled and let the server take it over. */
  lemma ConfirmNow(env: Env, steps: seq<Step>, s: State, lsn: Lsn) returns (steps': seq<Step>, s': State)
    requires Run(env, steps) == Some(s) && s.process.session.Some? && s.process.idling.None?
    requires Tidy(s.process.gate) && s.process.gate.acked >= s.process.gate.handed
    requires lsn > 0 && Recorded(s.process.gate, lsn)
    ensures Run(env, steps') == Some(s') && Uninterrupted(steps, steps')
    ensures s'.slot >= lsn && s'.stream == s.stream
  {
    FlushCovers(s.process.gate, lsn);
    var flush := s.process.gate.Settle().confirmable;
    Append(env, steps, SendStatus);
    Append(env, steps + [SendStatus], ServerAdopts(flush));
    steps' := steps + [SendStatus] + [ServerAdopts(flush)];
    s' := Run(env, steps').value;
  }

  // ---------------------------------------------------------------------------
  // Losing a change

  /** Session one, everything up to the doomed transaction, bus worked off. */
  lemma FirstSession(env: Env, t: nat) returns (steps: seq<Step>, s: State)
    requires env.Valid() && t < |env.source|
    ensures Run(env, steps) == Some(s)
    ensures Ready(env, s.process) && CleanStream(s) && s.slot == env.origin
    ensures Recorded(s.process.gate, env.source[t].endLsn)
  {
    FirstIs(env.source, env.origin, 0);
    Append(env, [], Connect);
    var connected := Run(env, [] + [Connect]).value;
    steps, s := StreamUntil(env, [] + [Connect], connected, Cursor(t + 1, 0), t);
    steps, s := Drain(env, steps, s);
  }

  lemma Reconnect(env: Env, steps: seq<Step>, s: State, lsn: Lsn) returns (steps': seq<Step>, s': State)
    requires env.Valid() && Run(env, steps) == Some(s) && Ready(env, s.process) && s.slot == env.origin
    ensures Run(env, steps') == Some(s')
    ensures Ready(env, s'.process) && s'.process.session.value == Cursor(0, 0)
    ensures s'.stream == s.stream
    ensures Recorded(s.process.gate, lsn) ==> Recorded(s'.process.gate, lsn)
  {
    FirstIs(env.source, env.origin, 0);
    Append(env, steps, Disconnect);
    Append(env, steps + [Disconnect], Connect);
    steps' := steps + [Disconnect] + [Connect];
    s' := Run(env, steps').value;
  }

  lemma SameStreamIsClean(s: State, s': State)
    requires s'.stream == s.stream && CleanStream(s)
    ensures CleanStream(s')
  {
  }

  lemma AcksLeaveTheQueue(g: Gate, acked: nat, lsn: Lsn)
    ensures Tidy(g) ==> Tidy(g.(acked := acked))
    ensures Recorded(g, lsn) ==> Recorded(g.(acked := acked), lsn)
  {
  }

  /** Session two: stream a change that fits and get it acked. */
  lemma SecondSession(env: Env, steps: seq<Step>, s: State, t: nat, t': nat, i': nat) returns (steps': seq<Step>, s': State)
    requires t < |env.source| && PlaceIn(env, Place(t', i')) && env.source[t'].changes[i'].Deliverable()
    requires Run(env, steps) == Some(s) && Ready(env, s.process) && CleanStream(s)
    requires s.process.session.value == Cursor(0, 0) && Recorded(s.process.gate, env.source[t].endLsn)
    ensures Run(env, steps') == Some(s') && Ready(env, s'.process) && CleanStream(s')
    ensures s'.process.gate.acked >= s'.process.gate.handed
    ensures Recorded(s'.process.gate, env.source[t].endLsn)
  {
    hide Run, Next, CleanStream, Tidy, Recorded;
    var lsn := env.source[t].endLsn;
    steps', s' := StreamUntil(env, steps, s, Cursor(t', i' + 1), t);
    Append(env, steps', StreamChange);
    assert CleanStream(s') by { SameStreamIsClean(s, s'); }
    var before := s';
    s' := StreamAccepted(env, s', lsn);
    SameStreamIsClean(before, s');
    steps' := steps' + [StreamChange];
    var g := s'.process.gate;
    steps', s' := Drain(env, steps', s');
    AcksLeaveTheQueue(g, s'.process.gate.acked, lsn);
  }

  /** Some change can be delivered in no form, another can: a run loses the
      first. Its own sequence is never acked; a re-streamed change that fits
      gets a higher one, and that ack covers it. */
  lemma OversizeLoses(env: Env, t: nat, i: nat, t': nat, i': nat) returns (steps: seq<Step>)
    requires env.Valid() && PlaceIn(env, Place(t, i)) && PlaceIn(env, Place(t', i'))
    requires !env.source[t].changes[i].Deliverable() && env.source[t'].changes[i'].Deliverable()
    ensures Run(env, steps).Some? && !Lossless(env, Run(env, steps).value)
  {
    var s: State;
    steps, s := FirstSession(env, t);
    steps, s := Reconnect(env, steps, s, env.source[t].endLsn);
    steps, s := SecondSession(env, steps, s, t, t', i');
    steps, s := ConfirmNow(env, steps, s, env.source[t].endLsn);
    assert PlaceIn(env, Place(t, i)) && env.source[t].endLsn <= s.slot;
    assert forall m <- s.stream :: m.body.change != env.source[t].changes[i];
  }

  // ---------------------------------------------------------------------------
  // Nothing deliverable at all: nothing is ever acked, so nothing confirmed

  ghost predicate StalledGate(env: Env, g: Gate) {
    && g.gated && g.acked == 0 && Need(env, g.confirmable) == 0
    && forall k :: 0 <= k < |g.commits| && g.commits[k].lastSequence == 0 ==> Need(env, g.commits[k].end) == 0
  }

  ghost predicate StalledBus(bus: seq<BusEvent>) {
    forall k :: 0 <= k < |bus| && bus[k].Own? ==> !bus[k].change.Deliverable()
  }

  ghost predicate StalledCursor(env: Env, p: Process) {
    && (p.session.Some? ==>
         && InSource(env, p.session.value)
         && (Passed(env, p.session.value) > 0 ==> p.gate.handed > 0)
         && (p.gate.inTxn <==> p.session.value.step > 0))
    && (p.idling.Some? ==> p.session.Some? && Streamed(env, p.session.value, p.idling.value))
  }

  ghost predicate StalledProcess(env: Env, p: Process) {
    StalledGate(env, p.gate) && StalledBus(p.bus) && StalledCursor(env, p)
  }

  ghost predicate Stalled(env: Env, s: State) {
    && s.stream == [] && Need(env, s.slot) == 0 && (forall lsn <- s.sent :: Need(env, lsn) == 0)
    && StalledProcess(env, s.process)
  }

  lemma StalledBegin(env: Env, p: Process, slot: Lsn)
    requires StalledProcess(env, p) && ListenerStep(env, p, slot, StreamBegin).Some?
    ensures StalledProcess(env, ListenerStep(env, p, slot, StreamBegin).value)
  {
    var t := p.session.value.txn;
    assert PlacesIn(env.source[t].changes, t, 0) == [];
  }

  lemma StalledEmit(env: Env, p: Process, change: Change)
    requires StalledGate(env, p.gate) && StalledBus(p.bus) && !(change.accepted && change.Deliverable())
    ensures var p' := Emit(env, p, change);
      && StalledGate(env, p'.gate) && StalledBus(p'.bus) && p'.session == p.session && p'.idling == p.idling
      && p'.gate.inTxn == p.gate.inTxn
      && p'.gate.handed == p.gate.handed + if change.accepted then 1 else 0
  {
  }

  lemma StalledChange(env: Env, p: Process, slot: Lsn)
    requires NoneDeliverable(env) && StalledProcess(env, p) && ListenerStep(env, p, slot, StreamChange).Some?
    ensures StalledProcess(env, ListenerStep(env, p, slot, StreamChange).value)
  {
    var c := p.session.value;
    CursorPlace(env, c);
    StalledEmit(env, p, env.source[c.txn].changes[c.step - 1]);
  }

  lemma StalledEnqueue(env: Env, g: Gate, end: Lsn)
    requires StalledGate(env, g) && (g.handed == 0 ==> Need(env, end) == 0)
    ensures StalledGate(env, g.Committed(end))
  {
    var last := |g.commits| - 1;
    if last >= 0 && g.commits[last].lastSequence == g.handed == 0 {
      NeedMax(env, g.commits[last].end, end, 0);
    }
  }

  lemma StalledCommit(env: Env, p: Process, slot: Lsn)
    requires env.Valid() && StalledProcess(env, p) && ListenerStep(env, p, slot, StreamCommit).Some?
    ensures StalledProcess(env, ListenerStep(env, p, slot, StreamCommit).value)
  {
    var t := p.session.value.txn;
    CommitNeed(env, t);
    StalledEnqueue(env, p.gate, env.source[t].endLsn);
    var p' := p.(gate := p.gate.Committed(env.source[t].endLsn), session := Some(Cursor(t + 1, 0)));
    assert StalledCursor(env, p');
    assert StalledBus(Enqueue(p', Other).bus);
  }

  lemma {:induction false} StalledConfirmed(env: Env, g: Gate, k: nat)
    requires env.Valid() && StalledGate(env, g) && k <= |g.commits|
    ensures Need(env, Confirmed(g.commits[..k], 0)) == 0
  {
    if k == 0 {
      NeedNothing(env);
    } else {
      hide Need, First;
      StalledConfirmed(env, g, k - 1);
      assert g.commits[..k][..k - 1] == g.commits[..k - 1];
      assert g.commits[..k][k - 1] == g.commits[k - 1];
      if g.commits[k - 1].lastSequence == 0 {
        NeedMax(env, Confirmed(g.commits[..k - 1], 0), g.commits[k - 1].end, 0);
      }
    }
  }

  lemma StalledSettle(env: Env, g: Gate)
    requires env.Valid() && StalledGate(env, g)
    ensures StalledGate(env, g.Settle())
  {
    var k := SettledCount(g.commits, 0);
    StalledConfirmed(env, g, k);
    NeedMax(env, g.confirmable, Confirmed(g.commits[..k], 0), 0);
    forall j | 0 <= j < |g.commits[k..]| && g.commits[k..][j].lastSequence == 0
      ensures Need(env, g.commits[k..][j].end) == 0
    {
      assert g.commits[k..][j] == g.commits[k + j];
    }
  }

  lemma StalledIdle(env: Env, p: Process)
    requires StalledProcess(env, p) && p.idling.Some?
    ensures StalledProcess(env, p.(gate := p.gate.IdleCheck(p.idling.value), idling := None))
  {
    var g, w := p.gate, p.idling.value;
    if !(g.inTxn || |g.commits| > 0 || g.Pending()) {
      PlacesPrefix(env, First(env.source, w), p.session.value.txn);
      NeedMax(env, g.confirmable, w, 0);
    }
  }

  lemma StalledListener(env: Env, p: Process, slot: Lsn, step: Step)
    requires env.Valid() && NoneDeliverable(env) && StalledProcess(env, p) && Need(env, slot) == 0
    requires ListenerStep(env, p, slot, step).Some?
    ensures StalledProcess(env, ListenerStep(env, p, slot, step).value)
  {
    match step
    case StreamBegin => StalledBegin(env, p, slot);
    case StreamChange => StalledChange(env, p, slot);
    case StreamCommit => StalledCommit(env, p, slot);
    case KeepaliveSettle(_) => StalledSettle(env, p.gate);
    case SendStatus => StalledSettle(env, p.gate);
    case KeepaliveCheck => StalledIdle(env, p);
    case _ =>
  }

  lemma StalledSameListener(env: Env, p: Process, p': Process)
    requires StalledCursor(env, p)
    requires p'.session == p.session && p'.idling == p.idling && p'.gate.handed == p.gate.handed && p'.gate.inTxn == p.gate.inTxn
    ensures StalledCursor(env, p')
  {
    hide InSource, Passed, Streamed;
  }

  lemma StalledPublisher(env: Env, p: Process, step: Step)
    requires StalledProcess(env, p) && PublisherStep(p, step).Some?
    ensures !step.Publish? && StalledProcess(env, PublisherStep(p, step).value)
  {
    hide StalledGate, StalledCursor;
    StalledSameListener(env, p, PublisherStep(p, step).value);
    if step.Publish? {
      assert !p.bus[0].change.Deliverable();
      match p.form {
        case Full =>
        case KeyOnly =>
        case Stripped =>
      }
    } else {
      assert PublisherStep(p, step).value.gate == p.gate;
      assert StalledBus(PublisherStep(p, step).value.bus);
    }
  }

  lemma StalledFresh(env: Env)
    requires env.Valid()
    ensures StalledProcess(env, NewProcess())
  {
    NeedNothing(env);
  }

  lemma StalledConfirms(env: Env, p: Process)
    requires StalledProcess(env, p)
    ensures Need(env, p.gate.confirmable) == 0
  {
  }

  lemma StalledStep(env: Env, s: State, step: Step)
    requires env.Valid() && NoneDeliverable(env) && Stalled(env, s) && Next(env, s, step).Some?
    ensures Stalled(env, Next(env, s, step).value)
  {
    hide Need, StalledProcess;
    match step
    case Crash => StalledFresh(env);
    case ServerAdopts(_) =>
    case Publish(_, _) => StalledPublisher(env, s.process, step);
    case OtherEvent | SkipOther | TooLarge | EndContext | GiveUp | StopPublisher => StalledPublisher(env, s.process, step);
    case _ =>
      StalledListener(env, s.process, s.slot, step);
      StalledConfirms(env, ListenerStep(env, s.process, s.slot, step).value);
  }

  lemma {:induction false} StalledRun(env: Env, steps: seq<Step>)
    requires env.Valid() && NoneDeliverable(env) && Run(env, steps).Some?
    ensures Stalled(env, Run(env, steps).value)
  {
    if steps == [] {
      NeedNothing(env);
    } else {
      StalledRun(env, steps[..|steps| - 1]);
      StalledStep(env, Run(env, steps[..|steps| - 1]).value, steps[|steps| - 1]);
    }
  }

  // ---------------------------------------------------------------------------
  // Main results

  lemma DeliverableIsLossless(env: Env, steps: seq<Step>)
    requires env.Valid() && env.AllDeliverable() && Run(env, steps).Some?
    ensures Lossless(env, Run(env, steps).value)
  {
    var s := Run(env, steps).value;
    forall t, i | 0 <= t < |env.source| && env.source[t].endLsn <= s.slot && 0 <= i && PlaceIn(env, Place(t, i))
      ensures exists m <- s.stream :: m.id == IdAt(env, Place(t, i)) && m.body.change == env.source[t].changes[i]
    {
      NothingConfirmedIsLost(env, steps, t, i);
    }
  }

  lemma NothingNeededBelow(env: Env, lsn: Lsn, t: nat, i: nat)
    requires env.Valid() && Need(env, lsn) == 0 && PlaceIn(env, Place(t, i))
    ensures env.source[t].endLsn > lsn
  {
    CommitNeed(env, t);
    CursorPlace(env, Cursor(t, i + 1));
    PlacesInPrefix(env.source[t].changes, t, i + 1, |env.source[t].changes|);
    if env.source[t].endLsn <= lsn {
      NeedMonotone(env, env.source[t].endLsn, lsn);
    }
  }

  lemma StalledIsLossless(env: Env, s: State)
    requires env.Valid() && Stalled(env, s)
    ensures Lossless(env, s)
  {
    forall t: nat, i: nat | PlaceIn(env, Place(t, i)) ensures env.source[t].endLsn > s.slot {
      NothingNeededBelow(env, s.slot, t, i);
    }
  }

  /** The exact condition: no run loses a confirmed change if and only if every
      accepted change fits in some form, or none does. */
  lemma LosslessIff(env: Env)
    requires env.Valid()
    ensures (forall steps: seq<Step> :: Run(env, steps).Some? ==> Lossless(env, Run(env, steps).value))
      <==> env.AllDeliverable() || NoneDeliverable(env)
  {
    if env.AllDeliverable() {
      forall steps: seq<Step> | Run(env, steps).Some? ensures Lossless(env, Run(env, steps).value) {
        DeliverableIsLossless(env, steps);
      }
    } else if NoneDeliverable(env) {
      forall steps: seq<Step> | Run(env, steps).Some? ensures Lossless(env, Run(env, steps).value) {
        StalledRun(env, steps);
        StalledIsLossless(env, Run(env, steps).value);
      }
    } else {
      var t: int, i: int :| 0 <= t < |env.source| && 0 <= i < |env.source[t].changes| &&
        env.source[t].changes[i].accepted && !env.source[t].changes[i].Deliverable();
      var t': int, i': int :| 0 <= t' < |env.source| && 0 <= i' < |env.source[t'].changes| &&
        env.source[t'].changes[i'].accepted && env.source[t'].changes[i'].Deliverable();
      var steps := OversizeLoses(env, t, i, t', i');
    }
  }

  /** A new session streams from the slot on. */
  lemma ConnectNow(env: Env, steps: seq<Step>, s: State) returns (s': State)
    requires Run(env, steps) == Some(s) && s.process.session.None? && s.process.idling.None?
    requires AtRest(s.process) && Tidy(s.process.gate)
    ensures Run(env, steps + [Connect]) == Some(s') && s'.slot == s.slot
    ensures Ready(env, s'.process) && s'.process.session.value == Cursor(First(env.source, s.slot), 0)
  {
    Append(env, steps, Connect);
    s' := Run(env, steps + [Connect]).value;
  }

  lemma FreshStart(env: Env, steps: seq<Step>, s: State) returns (steps': seq<Step>, s': State)
    requires Run(env, steps) == Some(s)
    ensures Run(env, steps') == Some(s') && steps <= steps'
    ensures Ready(env, s'.process) && s'.slot == s.slot
    ensures s'.process.session.value == Cursor(First(env.source, s.slot), 0)
  {
    Append(env, steps, Crash);
    steps' := steps + [Crash];
    s' := ConnectNow(env, steps', Run(env, steps').value);
    steps' := steps' + [Connect];
  }

  /** The publisher is in the middle of the ladder: one more try in this form, or
      one form down. */
  lemma LadderStep(env: Env, steps: seq<Step>, s: State) returns (steps': seq<Step>, s': State)
    requires Run(env, steps) == Some(s) && s.process.running && !s.process.ended && FormOk(s.process.bus, s.process.form)
    requires s.process.form != Full
    ensures Run(env, steps') == Some(s') && Uninterrupted(steps, steps') && s'.slot == s.slot
    ensures s'.process.running && !s'.process.ended && s'.process.session == s.process.session && s'.process.idling == s.process.idling
    ensures s'.process.form == Full || (s.process.form == KeyOnly && s'.process.form == Stripped && FormOk(s'.process.bus, Stripped))
  {
    var fits := s.process.form in s.process.bus[0].change.fits;
    var step := if fits then Publish(true, true) else TooLarge;
    Append(env, steps, step);
    steps' := steps + [step];
    s' := Run(env, steps').value;
  }

  /** The publisher finishes the event it is at. */
  lemma FinishForm(env: Env, steps: seq<Step>, s: State) returns (steps': seq<Step>, s': State)
    requires Run(env, steps) == Some(s) && s.process.running && !s.process.ended && FormOk(s.process.bus, s.process.form)
    ensures Run(env, steps') == Some(s') && Uninterrupted(steps, steps') && s'.slot == s.slot && AtRest(s'.process)
    ensures s'.process.session == s.process.session && s'.process.idling == s.process.idling
  {
    hide Run, FormOk;
    steps', s' := steps, s;
    if s'.process.form != Full {
      steps', s' := LadderStep(env, steps', s');
    }
    if s'.process.form != Full {
      steps', s' := LadderStep(env, steps', s');
    }
  }

  /** The listener gets through the keepalive it is at. */
  lemma LeaveKeepalive(env: Env, steps: seq<Step>, s: State) returns (steps': seq<Step>, s': State)
    requires Run(env, steps) == Some(s) && AtRest(s.process)
    ensures Run(env, steps') == Some(s') && Uninterrupted(steps, steps') && s'.slot == s.slot && AtRest(s'.process)
    ensures s'.process.session == s.process.session && s'.process.idling.None?
  {
    hide Run;
    steps', s' := steps, s;
    if s'.process.idling.Some? {
      Append(env, steps', KeepaliveCheck);
      s' := Next(env, s', KeepaliveCheck).value;
      steps' := steps' + [KeepaliveCheck];
    }
  }

  // ---------------------------------------------------------------------------
  // What lies behind the cursor of a session

  /** Some status reported at least this position; the server may still adopt it. */
  ghost predicate Reported(s: State, lsn: Lsn) {
    exists x <- s.sent :: x >= lsn
  }

  /** The last commit behind the session's cursor is recorded in the gate, or was
      reported: before the session began, by this process or an earlier one. */
  ghost predicate BehindCursor(env: Env, s: State) {
    && (s.slot == env.origin || s.slot in s.sent)
    && (s.process.session.Some? ==>
      var t := s.process.session.value.txn;
      && t <= |env.source|
      && (t > 0 ==> Recorded(s.process.gate, env.source[t - 1].endLsn) || Reported(s, env.source[t - 1].endLsn)))
  }

  lemma RecordedSettled(g: Gate, lsn: Lsn)
    requires Recorded(g, lsn)
    ensures Recorded(g.Settle(), lsn)
  {
    var k := SettledCount(g.commits, g.AckedSequence());
    if g.confirmable < lsn {
      var i :| 0 <= i < |g.commits| && g.commits[i].end >= lsn;
      if i < k {
        ConfirmedCovers(g.commits[..k], g.AckedSequence(), i);
      } else {
        assert g.commits[k..][i - k].end >= lsn;
      }
    }
  }

  lemma RecordedCommitted(g: Gate, end: Lsn)
    ensures Recorded(g.Committed(end), end)
  {
    var g' := g.Committed(end);
    assert g'.commits[|g'.commits| - 1].end >= end;
  }

  /** A position the slot is at was reported, unless it is the first. */
  lemma ConnectBehind(env: Env, s: State)
    requires env.Valid() && BehindCursor(env, s) && Next(env, s, Connect).Some?
    ensures BehindCursor(env, Next(env, s, Connect).value)
  {
    hide Recorded;
    var t := First(env.source, s.slot);
    if t > 0 {
      assert env.source[t - 1].endLsn <= s.slot;
      assert env.source[t - 1].endLsn > env.origin;
    }
  }

  /** Nothing a step leaves recorded or reported is forgotten. */
  ghost predicate Remembers(s: State, s': State) {
    && (forall lsn: Lsn :: Recorded(s.process.gate, lsn) ==> Recorded(s'.process.gate, lsn))
    && s.sent <= s'.sent && (s'.slot == s.slot || s'.slot in s'.sent)
  }

  lemma RememberedBehind(env: Env, s: State, s': State)
    requires BehindCursor(env, s) && Remembers(s, s')
    requires s'.process.session.Some? ==> s.process.session.Some? && s'.process.session.value.txn == s.process.session.value.txn
    ensures BehindCursor(env, s')
  {
    hide Recorded;
  }

  lemma ListenerRemembers(env: Env, s: State, step: Step)
    requires step.Disconnect? || step.StreamBegin? || step.StreamChange? || step.KeepaliveSettle? || step.KeepaliveCheck? || step.SendStatus?
    requires Next(env, s, step).Some?
    ensures Remembers(s, Next(env, s, step).value)
    ensures var s' := Next(env, s, step).value;
      s'.process.session.Some? ==> s.process.session.Some? && s'.process.session.value.txn == s.process.session.value.txn
  {
    var g := s.process.gate;
    if step.KeepaliveSettle? || step.SendStatus? {
      forall lsn: Lsn | Recorded(g, lsn) ensures Recorded(g.Settle(), lsn) {
        RecordedSettled(g, lsn);
      }
      hide Gate.Settle, Recorded;
    }
  }

  lemma PublisherRemembers(env: Env, s: State, step: Step)
    requires PublisherStep(s.process, step).Some? && Next(env, s, step).Some?
    ensures Remembers(s, Next(env, s, step).value)
    ensures Next(env, s, step).value.process.session == s.process.session
  {
    hide Store;
  }

  lemma CommitBehind(env: Env, s: State)
    requires BehindCursor(env, s) && Next(env, s, StreamCommit).Some?
    ensures BehindCursor(env, Next(env, s, StreamCommit).value)
  {
    var t := s.process.session.value.txn;
    RecordedCommitted(s.process.gate, env.source[t].endLsn);
    hide Recorded, Gate.Committed;
  }

  lemma StepBehind(env: Env, s: State, step: Step)
    requires env.Valid() && BehindCursor(env, s) && Next(env, s, step).Some?
    ensures BehindCursor(env, Next(env, s, step).value)
  {
    match step
    case Connect => ConnectBehind(env, s);
    case StreamCommit => CommitBehind(env, s);
    case Crash =>
    case ServerAdopts(_) => hide Recorded;
    case Disconnect | StreamBegin | StreamChange | KeepaliveSettle(_) | KeepaliveCheck | SendStatus =>
      ListenerRemembers(env, s, step);
      hide Next;
      RememberedBehind(env, s, Next(env, s, step).value);
    case _ =>
      PublisherRemembers(env, s, step);
      hide Next;
      RememberedBehind(env, s, Next(env, s, step).value);
  }

  lemma {:induction false} RunBehind(env: Env, steps: seq<Step>)
    requires env.Valid() && Run(env, steps).Some?
    ensures BehindCursor(env, Run(env, steps).value)
  {
    hide Next;
    if steps == [] {
    } else {
      var front := steps[..|steps| - 1];
      RunBehind(env, front);
      StepBehind(env, Run(env, front).value, steps[|steps| - 1]);
    }
  }

  /** What every run knows of its process. */
  lemma ProcessInOrder(env: Env, steps: seq<Step>)
    requires env.Valid() && env.AllDeliverable() && Run(env, steps).Some?
    ensures var p := Run(env, steps).value.process;
      && Tidy(p.gate) && FormOk(p.bus, p.form) && (p.idling.Some? ==> p.session.Some?)
      && (p.session.Some? ==> InSource(env, p.session.value))
  {
    EnvIsSound(env);
    var n, log := RunOk(env, steps);
    hide Need, ReachTo, Queued, Contiguous;
    assert Bounded(Run(env, steps).value.process.gate.commits, |log|);
  }

  /** The running process streams on, and connects only if it has no session. */
  lemma GoOn(env: Env, steps: seq<Step>, s: State) returns (steps': seq<Step>, s': State)
    requires env.Valid() && env.AllDeliverable() && Run(env, steps) == Some(s)
    requires s.process.running && !s.process.ended
    ensures Run(env, steps') == Some(s') && Uninterrupted(steps, steps')
    ensures Ready(env, s'.process)
  {
    hide Run, FormOk, Tidy, InSource, Env.Valid, Env.AllDeliverable;
    ProcessInOrder(env, steps);
    steps', s' := FinishForm(env, steps, s);
    steps', s' := LeaveKeepalive(env, steps', s');
    ProcessInOrder(env, steps');
    if s'.process.session.None? {
      s' := ConnectNow(env, steps', s');
      steps' := steps' + [Connect];
    }
  }

  /** The process streams: this one, while its publisher is at work, or else a
      new one. */
  lemma StreamAgain(env: Env, steps: seq<Step>, s: State) returns (steps': seq<Step>, s': State)
    requires env.Valid() && env.AllDeliverable() && Run(env, steps) == Some(s)
    ensures Run(env, steps') == Some(s') && steps <= steps'
    ensures s.process.running && !s.process.ended ==> Uninterrupted(steps, steps')
    ensures Ready(env, s'.process)
  {
    hide Run;
    if s.process.running && !s.process.ended {
      steps', s' := GoOn(env, steps, s);
    } else {
      steps', s' := FreshStart(env, steps, s);
    }
  }

  /** The server takes over a position that was reported. */
  lemma AdoptNow(env: Env, steps: seq<Step>, s: State, lsn: Lsn) returns (steps': seq<Step>, s': State)
    requires Run(env, steps) == Some(s) && lsn > 0 && Reported(s, lsn)
    ensures Run(env, steps') == Some(s') && Uninterrupted(steps, steps')
    ensures s'.slot >= lsn && s'.stream == s.stream
  {
    var x :| x in s.sent && x >= lsn;
    Append(env, steps, ServerAdopts(x));
    steps' := steps + [ServerAdopts(x)];
    s' := Run(env, steps').value;
  }

  /** A bus worked off means every handed event is acked. */
  lemma DrainedMeansAcked(env: Env, steps: seq<Step>, s: State)
    requires env.Valid() && env.AllDeliverable() && Run(env, steps) == Some(s)
    requires s.process.bus == [] && s.process.running && !s.process.ended
    ensures s.process.gate.acked == s.process.gate.handed
  {
    EnvIsSound(env);
    var n, log := RunOk(env, steps);
  }

  lemma PassedEndMeansNeedAll(env: Env, lsn: Lsn)
    requires env.Valid() && |env.source| > 0 && lsn >= env.source[|env.source| - 1].endLsn
    ensures Need(env, lsn) == |AllPlaces(env)|
  {
    FirstIs(env.source, lsn, |env.source|);
  }

  lemma EndConfirmedMeansAllStored(env: Env, steps: seq<Step>, s: State)
    requires env.Valid() && env.AllDeliverable() && |env.source| > 0 && Run(env, steps) == Some(s)
    requires s.slot >= env.source[|env.source| - 1].endLsn
    ensures Sound(env) && forall m <- Wanted(env) :: m in s.stream
  {
    EnvIsSound(env);
    var n, log := RunOk(env, steps);
    PassedEndMeansNeedAll(env, s.slot);
    assert Wanted(env)[..n] == Wanted(env);
  }

  /** Every run can be continued so that the whole source is stored and the
      slot confirmed to its end: safety is not bought by standing still. While
      the publisher is at work this takes neither a crash nor the end of the
      session in progress. */
  lemma CanAlwaysFinish(env: Env, steps: seq<Step>) returns (rest: seq<Step>)
    requires env.Valid() && env.AllDeliverable() && |env.source| > 0 && Run(env, steps).Some?
    ensures Run(env, rest).Some? && steps <= rest
    ensures Run(env, steps).value.process.running && !Run(env, steps).value.process.ended ==> Uninterrupted(steps, rest)
    ensures Run(env, rest).value.slot >= env.source[|env.source| - 1].endLsn
    ensures Sound(env) && forall m <- Wanted(env) :: m in Run(env, rest).value.stream
  {
    hide Run, Recorded, Reported, Tidy;
    var t := |env.source| - 1;
    var end := env.source[t].endLsn;
    var s: State;
    rest, s := StreamAgain(env, steps, Run(env, steps).value);
    rest, s := StreamUntil(env, rest, s, Cursor(|env.source|, 0), t);
    rest, s := Drain(env, rest, s);
    DrainedMeansAcked(env, rest, s);
    ProcessInOrder(env, rest);
    RunBehind(env, rest);
    if Recorded(s.process.gate, end) {
      rest, s := ConfirmNow(env, rest, s, end);
    } else {
      rest, s := AdoptNow(env, rest, s, end);
    }
    EndConfirmedMeansAllStored(env, rest, s);
  }

  /** None of this is empty: a source of one change, and a run that stores it and
      confirms it. */
  lemma OneChangeIsDelivered() returns (env: Env, steps: seq<Step>)
    ensures env.Valid() && env.AllDeliverable() && env.unboundedWindow && Run(env, steps).Some?
    ensures |env.source| == 1 && env.source[0].endLsn <= Run(env, steps).value.slot && PlaceIn(env, Place(0, 0))
    ensures Run(env, steps).value.stream != []
  {
    var txn := Txn(1, 2, [Change("row", true, {Full})]);
    env := Env([txn], "prefix", 0, true);
    assert env.source[0] == txn;
    StartsEmpty(env);
    hide Run;
    steps := CanAlwaysFinish(env, []);
    NothingConfirmedIsLost(env, steps, 0, 0);
  }

  lemma StartsEmpty(env: Env)
    ensures Run(env, []) == Some(Init(env))
  {
  }
}
