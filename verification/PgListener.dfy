/** The listener's own code: what it does with a decoded event, a keepalive and
    a status, as the steps the delivery protocol takes. */
module PgListener {
  import opened PgGate
  import opened PgDelivery
  import opened PgOversize
  import opened SourceIds
  import opened Streams

  datatype Decoded = BeginEvent | CommitEvent | ChangeEvent(change: Change)

  /** What emit does to the process, the parser having just read the message. */
  function Emitted(env: Env, p: Process, endLsn: Lsn, e: Decoded): Process {
    match e
    case BeginEvent => Enqueue(p.(txnIndex := 0, gate := p.gate.Begin()), Other)
    case CommitEvent => Enqueue(p.(gate := p.gate.Committed(endLsn)), Other)
    case ChangeEvent(change) => Emit(env, p, change)
  }

  /** A keepalive and the look at the position to confirm that follows it; acks
      up to `late` land between its two halves. */
  function AfterKeepalive(g: Gate, position: Lsn, late: nat): Gate {
    g.Idle(position, late).Settle()
  }

  lemma SettlesOnce(g: Gate)
    ensures g.Settle().Settle() == g.Settle()
  {
    var s := g.Settle();
    assert SettledCount(s.commits, s.AckedSequence()) == 0;
  }

  class Listener {
    const env: Env
    const gate: AckGate
    /** What the parser last read: the transaction's commit position and the end
        of the last commit. */
    var txnLsn: Lsn
    var endLsn: Lsn
    var txnIndex: nat
    /** The publisher's channel, while it is subscribed. */
    var running: bool
    var bus: seq<BusEvent>
    var lastFlushSent: Lsn
    /** Every position reported to the server. */
    var sent: set<Lsn>

    ghost predicate Valid()
      reads this, gate
    {
      gate.Valid() && (lastFlushSent == 0 || lastFlushSent in sent)
    }

    /** The process of the protocol, with this listener's part of it. */
    ghost function View(p: Process): Process
      reads this, gate
    {
      p.(gate := gate.Model(), txnLsn := txnLsn, txnIndex := txnIndex, bus := bus, running := running)
    }

    constructor (env: Env)
      ensures Valid() && fresh(gate) && this.env == env && sent == {} && lastFlushSent == 0
      ensures forall p :: View(p) == p.(gate := NewGate(true), txnLsn := 0, txnIndex := 0, bus := [], running := true)
    {
      var g := new AckGate();
      g.Enable();
      this.env, gate := env, g;
      txnLsn, endLsn, txnIndex, running, bus, lastFlushSent, sent := 0, 0, 0, true, [], 0, {};
    }

    method HandleEvent(event: BusEvent, valid: bool) returns (accepted: bool)
      modifies this`bus
      ensures accepted == valid
      ensures bus == old(bus) + if valid && running then [event] else []
    {
      if valid && running {
        bus := bus + [event];
      }
      accepted := valid;
    }

    /** A new session: forget the transaction the last one broke off in, and what
        was reported in it. */
    method OpenSession()
      requires Valid()
      modifies this, gate
      ensures Valid() && lastFlushSent == 0 && sent == old(sent)
      ensures forall p :: View(p) == old(View(p)).(gate := old(gate.Model()).NewSession())
    {
      gate.StartSession();
      lastFlushSent := 0;
    }

    method EmitEvent(e: Decoded)
      requires Valid()
      modifies this, gate
      ensures Valid() && (txnLsn, endLsn, running) == old((txnLsn, endLsn, running)) && sent == old(sent)
      ensures forall p :: View(p) == Emitted(env, old(View(p)), endLsn, e)
    {
      hide AckGate.Valid;
      match e
      case BeginEvent =>
        txnIndex := 0;
        gate.BeginTransaction();
        var _ := HandleEvent(Other, true);
      case CommitEvent =>
        gate.Committed(endLsn);
        var _ := HandleEvent(Other, true);
      case ChangeEvent(change) =>
        var id := MessageId(env.prefix, Print(PgChange(txnLsn, txnIndex)));
        txnIndex := txnIndex + 1;
        var sequence := gate.HandOver();
        var accepted := HandleEvent(Own(sequence, id, change), change.accepted);
        if !accepted {
          gate.TakeBack();
        }
    }

    /** The position reported is the gate's answer. */
    method SendStatus()
      requires Valid()
      modifies this, gate
      ensures Valid() && gate.history == old(gate.history)
      ensures lastFlushSent == gate.history.Answer() && sent == old(sent) + {lastFlushSent}
      ensures forall p :: View(p) == old(View(p)).(gate := old(gate.Model()).Settle())
    {
      var flush := gate.Flush();
      sent := sent + {flush};
      lastFlushSent := flush;
    }

    /** `late` is the sequence acked by the time the pending test runs. A status
        goes out when asked for, or when the position to confirm has moved. */
    method HandleKeepalive(position: Lsn, replyRequested: bool, late: nat)
      requires Valid()
      modifies this, gate
      ensures Valid() && gate.history == old(gate.history).Apply(Keepalive(position, late))
      ensures forall p :: View(p) == old(View(p)).(gate := AfterKeepalive(old(gate.Model()), position, late))
      ensures var answer := gate.history.Answer();
        if replyRequested || answer != old(lastFlushSent) then lastFlushSent == answer && sent == old(sent) + {answer}
        else sent == old(sent) && (answer == 0 || answer in sent) && lastFlushSent == answer
    {
      hide AckGate.Valid, Gate.Settle, Gate.Idle, History.Apply, History.Answer;
      gate.Idle(position, late);
      SettlesOnce(gate.Model());
      if !replyRequested {
        var flush := gate.Flush();
        if flush == lastFlushSent {
          return;
        }
      }
      SendStatus();
    }
  }

  // ---------------------------------------------------------------------------
  // The protocol's steps are the listener's

  /** Streaming a message is the parser reading it and emit: the BEGIN gives the
      commit position, the COMMIT the end, and the cursor moves on by one. */
  lemma StepsAreEmits(env: Env, p: Process, slot: Lsn, step: Step)
    requires step.StreamBegin? || step.StreamChange? || step.StreamCommit?
    requires ListenerStep(env, p, slot, step).Some?
    ensures p.session.Some? && p.session.value.txn < |env.source|
    ensures step.StreamBegin? ==> ListenerStep(env, p, slot, step) == Some(Begun(env, p))
    ensures step.StreamChange? ==> 0 < p.session.value.step <= |env.source[p.session.value.txn].changes|
    ensures step.StreamChange? ==> ListenerStep(env, p, slot, step) == Some(Changed(env, p))
    ensures step.StreamCommit? ==> ListenerStep(env, p, slot, step) == Some(Finished(env, p))
  {
  }

  function Begun(env: Env, p: Process): Process
    requires p.session.Some? && p.session.value.txn < |env.source|
  {
    var c := p.session.value;
    var txn := env.source[c.txn];
    Emitted(env, p.(txnLsn := txn.commitLsn), txn.endLsn, BeginEvent).(session := Some(Cursor(c.txn, 1)))
  }

  function Changed(env: Env, p: Process): Process
    requires p.session.Some? && p.session.value.txn < |env.source|
    requires 0 < p.session.value.step <= |env.source[p.session.value.txn].changes|
  {
    var c := p.session.value;
    var txn := env.source[c.txn];
    Emitted(env, p, txn.endLsn, ChangeEvent(txn.changes[c.step - 1])).(session := Some(Cursor(c.txn, c.step + 1)))
  }

  function Finished(env: Env, p: Process): Process
    requires p.session.Some? && p.session.value.txn < |env.source|
  {
    var c := p.session.value;
    Emitted(env, p, env.source[c.txn].endLsn, CommitEvent).(session := Some(Cursor(c.txn + 1, 0)))
  }

  // ---------------------------------------------------------------------------
  // A keepalive with the publisher at work in its middle

  predicate IsPublisherStep(step: Step) {
    || step.OtherEvent? || step.SkipOther? || step.Publish? || step.TooLarge?
    || step.EndContext? || step.GiveUp? || step.StopPublisher?
  }

  /** The publisher moves bus, stream and acks; the listener's side stays. */
  ghost predicate OnlyAcks(s: State, s': State) {
    && s'.process.gate == s.process.gate.(acked := s'.process.gate.acked) && s'.process.gate.acked >= s.process.gate.acked
    && s'.process.session == s.process.session && s'.process.idling == s.process.idling
    && s'.slot == s.slot && s'.sent == s.sent
  }

  lemma OneActOnlyAcks(env: Env, s: State, step: Step)
    requires IsPublisherStep(step) && Next(env, s, step).Some?
    ensures OnlyAcks(s, Next(env, s, step).value)
  {
    hide Store;
  }

  lemma {:induction false} ActsOnlyAck(env: Env, steps: seq<Step>, acts: seq<Step>)
    requires Run(env, steps).Some? && Run(env, steps + acts).Some? && forall a <- acts :: IsPublisherStep(a)
    ensures OnlyAcks(Run(env, steps).value, Run(env, steps + acts).value)
    decreases |acts|
  {
    hide Next, IsPublisherStep;
    if acts == [] {
      assert steps + acts == steps;
    } else {
      var front, last := acts[..|acts| - 1], acts[|acts| - 1];
      assert last in acts;
      assert (steps + acts)[..|steps + acts| - 1] == steps + front;
      ActsOnlyAck(env, steps, front);
      OneActOnlyAcks(env, Run(env, steps + front).value, last);
    }
  }

  /** A keepalive in the protocol: settle, whatever the publisher does meanwhile,
      the test, and the look at the position to confirm, which the protocol takes
      together with its report. The gate ends where the listener leaves it, with
      the acks that landed meanwhile. When the position was reported before, or is
      zero, the report adds nothing the server could adopt: so it may as well not
      go out. */
  lemma KeepaliveIsSteps(env: Env, steps: seq<Step>, position: Lsn, acts: seq<Step>)
    requires Run(env, steps).Some? && Run(env, steps + [KeepaliveSettle(position)]).Some?
    requires Run(env, steps + [KeepaliveSettle(position)] + acts).Some? && forall a <- acts :: IsPublisherStep(a)
    ensures var s, meanwhile := Run(env, steps).value, Run(env, steps + [KeepaliveSettle(position)] + acts).value;
      var late := meanwhile.process.gate.acked;
      var tested := Run(env, steps + [KeepaliveSettle(position)] + acts + [KeepaliveCheck]);
      var end := Run(env, steps + [KeepaliveSettle(position)] + acts + [KeepaliveCheck] + [Step.SendStatus]);
      var answer := AfterKeepalive(s.process.gate, position, late).confirmable;
      && tested.Some? && tested.value.process.gate == s.process.gate.Idle(position, late)
      && end == Some(meanwhile.(process := meanwhile.process.(gate := AfterKeepalive(s.process.gate, position, late), idling := None),
                                sent := s.sent + {answer}))
      && (answer == 0 || answer in s.sent ==> end.value.sent - {0} == s.sent - {0})
  {
    var settle := steps + [KeepaliveSettle(position)];
    var s := Run(env, steps).value;
    Append(env, steps, KeepaliveSettle(position));
    hide Run, Gate.Settle;
    assert Run(env, settle).value == s.(process := s.process.(gate := s.process.gate.Settle(), idling := Some(position)));
    ActsOnlyAck(env, settle, acts);
    var meanwhile := Run(env, settle + acts).value;
    var late := meanwhile.process.gate.acked;
    Append(env, settle + acts, KeepaliveCheck);
    Append(env, settle + acts + [KeepaliveCheck], Step.SendStatus);
    assert meanwhile.process.gate == s.process.gate.Settle().Observe(late);
  }
}
