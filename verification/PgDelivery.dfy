/** The Postgres delivery protocol, from the replication slot to the stream.

    The source is the sequence of committed transactions the server decodes.
    The watcher's process is volatile: gate, parser position, session, bus and
    publisher all vanish in a crash. What survives is the slot position, the
    status messages already sent and the stream. Steps interleave freely; lost
    acks, lost or late statuses, reconnects in the middle of a transaction and
    crashes at any point are all steps.

    What is taken from the environment:
    - a session streams, in commit order, every transaction that ends after
      the slot position (section 55.5 of the PostgreSQL 16 manual);
    - a keepalive position has every earlier commit already streamed, except
      possibly the transaction being streamed at that moment;
    - an ack from the stream means the message is stored;
    - an attempt under an ended context stores nothing;
    - a change is accepted by the bus, and fits the stream, or not, the same
      way every time (table filter and limits do not change);
    - the publisher subscribes and gating is enabled before streaming starts;
    - the listener stops before the bus is shut down, so that no change is
      refused because of a shutdown. */
module PgDelivery {
  import opened Ladder
  import opened PgGate
  import opened SourceIds
  import opened Streams

  /** A publishable change of a transaction. `fits` are the forms the stream
      does not refuse for their size. */
  datatype Change = Change(row: string, accepted: bool, fits: set<Form>) {
    predicate Deliverable() {
      Full in fits || KeyOnly in fits || Stripped in fits
    }

    /** The form the publisher ends up with: the first that fits. */
    function DeliveredForm(): (f: Form)
      requires Deliverable()
      ensures f in fits
    {
      if Full in fits then Full else if KeyOnly in fits then KeyOnly else Stripped
    }
  }

  /** The changes in the order the listener emits them. */
  datatype Txn = Txn(commitLsn: Lsn, endLsn: Lsn, changes: seq<Change>)

  datatype Env = Env(source: seq<Txn>, prefix: string, origin: Lsn, unboundedWindow: bool) {
    /** Commit order is the order of commit ends; commit positions name
        transactions; the slot was created before all of them. */
    ghost predicate Valid() {
      && (forall i :: 0 <= i < |source| ==> source[i].endLsn > origin && source[i].commitLsn < LSN_LIMIT)
      && (forall i, j :: 0 <= i < j < |source| ==> source[i].endLsn < source[j].endLsn)
      && (forall i, j :: 0 <= i < j < |source| ==> source[i].commitLsn != source[j].commitLsn)
    }

    /** No accepted change is too large in every form. */
    ghost predicate AllDeliverable() {
      forall t, i :: 0 <= t < |source| && 0 <= i < |source[t].changes| && source[t].changes[i].accepted ==>
        source[t].changes[i].Deliverable()
    }
  }

  // ---------------------------------------------------------------------------
  // State

  datatype BusEvent = Own(sequence: nat, id: string, change: Change) | Other

  datatype Payload = Payload(change: Change, form: Form)

  /** Transaction being streamed; step 0 is before its BEGIN, step i + 1 before
      its change i (or before its COMMIT). */
  datatype Cursor = Cursor(txn: nat, step: nat)

  datatype Process = Process(
    gate: Gate, txnLsn: Lsn, txnIndex: nat, session: Option<Cursor>, idling: Option<Lsn>,
    bus: seq<BusEvent>, form: Form, running: bool, ended: bool)

  datatype State = State(process: Process, stream: seq<Message<Payload>>, slot: Lsn, sent: set<Lsn>)

  function NewProcess(): Process {
    Process(NewGate(true), 0, 0, None, None, [], Full, true, false)
  }

  function Init(env: Env): State {
    State(NewProcess(), [], env.origin, {})
  }

  /** How many leading transactions end at or before a position. */
  function First(source: seq<Txn>, lsn: Lsn): (k: nat)
    ensures k <= |source|
    ensures forall i :: 0 <= i < k ==> source[i].endLsn <= lsn
    ensures k < |source| ==> source[k].endLsn > lsn
  {
    if source == [] || source[0].endLsn > lsn then 0 else 1 + First(source[1..], lsn)
  }

  // ---------------------------------------------------------------------------
  // Steps

  datatype Step =
    | Connect
    | Disconnect
    | StreamBegin
    | StreamChange
    | StreamCommit
    | KeepaliveSettle(position: Lsn)
    | KeepaliveCheck
    | SendStatus
    | ServerAdopts(lsn: Lsn)
    | OtherEvent
    | SkipOther
    | Publish(remembered: bool, ackArrives: bool)
    | TooLarge
    | EndContext
    | GiveUp
    | StopPublisher
    | Crash

  function Enqueue(p: Process, event: BusEvent): Process {
    if p.running then p.(bus := p.bus + [event]) else p
  }

  function Dequeue(p: Process): Process
    requires p.bus != []
  {
    p.(bus := p.bus[1..], form := Full)
  }

  /** The listener has a session and is not inside a keepalive. */
  predicate Streaming(env: Env, p: Process) {
    p.session.Some? && p.idling.None? && p.session.value.txn < |env.source|
  }

  /** emit: number the change, name it, hand it over, take it back if refused. */
  function Emit(env: Env, p: Process, change: Change): Process {
    var id := MessageId(env.prefix, Print(PgChange(p.txnLsn, p.txnIndex)));
    var named := p.(txnIndex := p.txnIndex + 1);
    var handed := named.(gate := p.gate.Hand());
    if change.accepted then Enqueue(handed, Own(handed.gate.handed, id, change))
    else handed.(gate := handed.gate.Unhand())
  }

  function ListenerStep(env: Env, p: Process, slot: Lsn, step: Step): Option<Process> {
    match step
    case Connect =>
      if p.session.None? then
        Some(p.(gate := p.gate.NewSession(), session := Some(Cursor(First(env.source, slot), 0))))
      else None
    case Disconnect =>
      if p.session.Some? && p.idling.None? then Some(p.(session := None)) else None
    case StreamBegin =>
      if Streaming(env, p) && p.session.value.step == 0 then
        var t := p.session.value.txn;
        Some(Enqueue(p.(txnLsn := env.source[t].commitLsn, txnIndex := 0, gate := p.gate.Begin(),
                        session := Some(Cursor(t, 1))), Other))
      else None
    case StreamChange =>
      if Streaming(env, p) && 0 < p.session.value.step <= |env.source[p.session.value.txn].changes| then
        var c := p.session.value;
        Some(Emit(env, p, env.source[c.txn].changes[c.step - 1]).(session := Some(Cursor(c.txn, c.step + 1))))
      else None
    case StreamCommit =>
      if Streaming(env, p) && p.session.value.step == |env.source[p.session.value.txn].changes| + 1 then
        var t := p.session.value.txn;
        Some(Enqueue(p.(gate := p.gate.Committed(env.source[t].endLsn), session := Some(Cursor(t + 1, 0))), Other))
      else None
    case KeepaliveSettle(position) =>
      if p.session.Some? && p.idling.None? && Streamed(env, p.session.value, position) then
        Some(p.(gate := p.gate.Settle(), idling := Some(position)))
      else None
    case KeepaliveCheck =>
      if p.idling.Some? then Some(p.(gate := p.gate.IdleCheck(p.idling.value), idling := None)) else None
    case SendStatus =>
      if p.session.Some? && p.idling.None? then Some(p.(gate := p.gate.Settle())) else None
    case _ => None
  }

  /** The keepalive promise: commits before `position` are behind the cursor,
      or it is the transaction the cursor is in. */
  predicate Streamed(env: Env, c: Cursor, position: Lsn) {
    First(env.source, position) <= c.txn + (if c.step > 0 then 1 else 0)
  }

  predicate Attempting(p: Process) {
    p.running && p.bus != [] && p.bus[0].Own?
  }

  function PublisherStep(p: Process, step: Step): Option<Process> {
    match step
    case OtherEvent => Some(Enqueue(p, Other))
    case SkipOther =>
      if p.running && p.bus != [] && p.bus[0].Other? then Some(Dequeue(p)) else None
    case Publish(_, ackArrives) =>
      if Attempting(p) && !p.ended && p.form in p.bus[0].change.fits then
        Some(if ackArrives then Dequeue(p).(gate := p.gate.Observe(p.bus[0].sequence)) else p)
      else None
    case TooLarge =>
      if Attempting(p) && p.form !in p.bus[0].change.fits then
        Some(match p.form
             case Full => p.(form := KeyOnly)
             case KeyOnly => p.(form := Stripped)
             case Stripped => Dequeue(p))
      else None
    case EndContext => Some(p.(ended := true))
    case GiveUp => if p.ended && p.running && p.bus != [] then Some(Dequeue(p)) else None
    case StopPublisher => Some(p.(running := false, bus := [], form := Full))
    case _ => None
  }

  function Next(env: Env, s: State, step: Step): Option<State> {
    match step
    case ServerAdopts(lsn) => if lsn in s.sent && lsn > 0 then Some(s.(slot := lsn)) else None
    case Crash => Some(s.(process := NewProcess()))
    case Publish(remembered, _) =>
      var p := PublisherStep(s.process, step);
      if p.Some? && (env.unboundedWindow ==> remembered) then
        var e := s.process.bus[0];
        Some(s.(process := p.value,
                stream := Store(s.stream, Message(e.id, Payload(e.change, s.process.form)), remembered)))
      else None
    case SendStatus =>
      var p := ListenerStep(env, s.process, s.slot, step);
      if p.Some? then Some(s.(process := p.value, sent := s.sent + {p.value.gate.confirmable})) else None
    case OtherEvent | SkipOther | TooLarge | EndContext | GiveUp | StopPublisher =>
      var p := PublisherStep(s.process, step);
      if p.Some? then Some(s.(process := p.value)) else None
    case _ =>
      var p := ListenerStep(env, s.process, s.slot, step);
      if p.Some? then Some(s.(process := p.value)) else None
  }

  /** The state after a run, if every one of its steps was possible. */
  function Run(env: Env, steps: seq<Step>): Option<State> {
    if steps == [] then Some(Init(env))
    else
      var before := Run(env, steps[..|steps| - 1]);
      if before.None? then None else Next(env, before.value, steps[|steps| - 1])
  }

  /** What the world may do at any time: crash the process, end the context, stop
      the publisher, put other events on the bus, end a session, take over any
      position reported. */
  lemma AnythingMayHappen(env: Env, s: State, lsn: Lsn)
    ensures Next(env, s, Crash).Some? && Next(env, s, EndContext).Some? && Next(env, s, StopPublisher).Some?
    ensures Next(env, s, OtherEvent).Some?
    ensures s.process.session.Some? && s.process.idling.None? ==> Next(env, s, Disconnect).Some?
    ensures lsn in s.sent && lsn > 0 ==> Next(env, s, ServerAdopts(lsn)) == Some(s.(slot := lsn))
  {
  }

  /** Once everything is streamed a keepalive may come with any position, and its
      second half always follows. */
  lemma CaughtUpMayIdle(env: Env, s: State, position: Lsn)
    requires s.process.session == Some(Cursor(|env.source|, 0)) && s.process.idling.None?
    ensures Next(env, s, KeepaliveSettle(position)).Some?
    ensures Next(env, Next(env, s, KeepaliveSettle(position)).value, KeepaliveCheck).Some?
  {
  }

  /** It may also come in the middle of a transaction, and then lie behind that
      one's end. */
  lemma MayIdleInside(env: Env, s: State, c: Cursor, position: Lsn)
    requires s.process.session == Some(c) && c.step > 0 && s.process.idling.None? && First(env.source, position) <= c.txn + 1
    ensures Next(env, s, KeepaliveSettle(position)).Some?
  {
  }

  /** A publisher that stopped has no channel: nothing is kept for it. */
  lemma {:induction false} StoppedMeansNoChannel(env: Env, steps: seq<Step>)
    requires Run(env, steps).Some?
    ensures !Run(env, steps).value.process.running ==> Run(env, steps).value.process.bus == []
  {
    hide Next;
    if steps == [] {
    } else {
      var front := steps[..|steps| - 1];
      StoppedMeansNoChannel(env, front);
      StepKeepsNoChannel(env, Run(env, front).value, steps[|steps| - 1]);
    }
  }

  predicate NoChannelOnceStopped(p: Process) {
    !p.running ==> p.bus == []
  }

  lemma StepKeepsNoChannel(env: Env, s: State, step: Step)
    requires NoChannelOnceStopped(s.process) && Next(env, s, step).Some?
    ensures NoChannelOnceStopped(Next(env, s, step).value.process)
  {
    hide ListenerStep, PublisherStep, Store;
    if ListenerStep(env, s.process, s.slot, step).Some? {
      ListenerKeepsNoChannel(env, s.process, s.slot, step);
    }
    if PublisherStep(s.process, step).Some? {
      PublisherKeepsNoChannel(s.process, step);
    }
  }

  lemma ListenerKeepsNoChannel(env: Env, p: Process, slot: Lsn, step: Step)
    requires NoChannelOnceStopped(p) && ListenerStep(env, p, slot, step).Some?
    ensures NoChannelOnceStopped(ListenerStep(env, p, slot, step).value)
  {
    hide Gate.Settle, Gate.Committed, Gate.IdleCheck, First, Streamed, Print;
  }

  lemma PublisherKeepsNoChannel(p: Process, step: Step)
    requires NoChannelOnceStopped(p) && PublisherStep(p, step).Some?
    ensures NoChannelOnceStopped(PublisherStep(p, step).value)
  {
  }

  // ---------------------------------------------------------------------------
  // Accepted changes in commit order

  datatype Place = Place(txn: nat, index: nat)

  /** The accepted ones among the first `count` changes of transaction `txn`. */
  function PlacesIn(changes: seq<Change>, txn: nat, count: nat): seq<Place>
    requires count <= |changes|
  {
    if count == 0 then []
    else PlacesIn(changes, txn, count - 1) +
         if changes[count - 1].accepted then [Place(txn, count - 1)] else []
  }

  /** The accepted changes of the first `count` transactions. */
  function Places(source: seq<Txn>, count: nat): seq<Place>
    requires count <= |source|
  {
    if count == 0 then []
    else Places(source, count - 1) +
         PlacesIn(source[count - 1].changes, count - 1, |source[count - 1].changes|)
  }

  function AllPlaces(env: Env): seq<Place> {
    Places(env.source, |env.source|)
  }

  /** How many accepted changes end at or before a position. */
  function Need(env: Env, lsn: Lsn): nat {
    |Places(env.source, First(env.source, lsn))|
  }

  /** How many accepted changes lie before a cursor. */
  function Passed(env: Env, c: Cursor): nat
    requires InSource(env, c)
  {
    |Places(env.source, c.txn)| +
    if c.step == 0 then 0 else |PlacesIn(env.source[c.txn].changes, c.txn, c.step - 1)|
  }

  predicate InSource(env: Env, c: Cursor) {
    && c.txn <= |env.source|
    && (c.txn == |env.source| ==> c.step == 0)
    && (c.txn < |env.source| ==> c.step <= |env.source[c.txn].changes| + 1)
  }

  ghost predicate PlaceIn(env: Env, place: Place) {
    && place.txn < |env.source| && place.index < |env.source[place.txn].changes|
    && env.source[place.txn].changes[place.index].accepted
  }

  function ChangeAt(env: Env, place: Place): Change
    requires PlaceIn(env, place)
  {
    env.source[place.txn].changes[place.index]
  }

  /** The one name a source change goes by in the stream. */
  function IdAt(env: Env, place: Place): string
    requires PlaceIn(env, place)
  {
    MessageId(env.prefix, Print(PgChange(env.source[place.txn].commitLsn, place.index)))
  }

  lemma {:induction false} PlacesInValid(env: Env, txn: nat, count: nat)
    requires txn < |env.source| && count <= |env.source[txn].changes|
    ensures forall p <- PlacesIn(env.source[txn].changes, txn, count) :: PlaceIn(env, p) && p.txn == txn && p.index < count
    ensures |PlacesIn(env.source[txn].changes, txn, count)| <= count
  {
    if count == 0 {
    } else {
      PlacesInValid(env, txn, count - 1);
    }
  }

  lemma {:induction false} PlacesValid(env: Env, count: nat)
    requires count <= |env.source|
    ensures forall p <- Places(env.source, count) :: PlaceIn(env, p) && p.txn < count
  {
    if count == 0 {
    } else {
      PlacesValid(env, count - 1);
      PlacesInValid(env, count - 1, |env.source[count - 1].changes|);
    }
  }

  lemma {:induction false} PlacesPrefix(env: Env, a: nat, b: nat)
    requires a <= b <= |env.source|
    ensures Places(env.source, a) <= Places(env.source, b)
    decreases b
  {
    if a == b {
    } else {
      PlacesPrefix(env, a, b - 1);
    }
  }

  lemma {:induction false} PlacesInPrefix(changes: seq<Change>, txn: nat, a: nat, b: nat)
    requires a <= b <= |changes|
    ensures PlacesIn(changes, txn, a) <= PlacesIn(changes, txn, b)
    decreases b
  {
    if a == b {
    } else {
      PlacesInPrefix(changes, txn, a, b - 1);
    }
  }

  /** The accepted change the cursor is about to stream is the next in line. */
  lemma CursorPlace(env: Env, c: Cursor)
    requires InSource(env, c) && c.txn < |env.source| && 0 < c.step <= |env.source[c.txn].changes|
    ensures InSource(env, Cursor(c.txn, c.step + 1))
    ensures var change := env.source[c.txn].changes[c.step - 1];
      Passed(env, Cursor(c.txn, c.step + 1)) == Passed(env, c) + if change.accepted then 1 else 0
    ensures env.source[c.txn].changes[c.step - 1].accepted ==>
      Passed(env, c) < |AllPlaces(env)| && AllPlaces(env)[Passed(env, c)] == Place(c.txn, c.step - 1)
  {
    var changes := env.source[c.txn].changes;
    if changes[c.step - 1].accepted {
      var before := PlacesIn(changes, c.txn, c.step - 1);
      var here := PlacesIn(changes, c.txn, c.step);
      PlacesInPrefix(changes, c.txn, c.step, |changes|);
      PlacesPrefix(env, c.txn + 1, |env.source|);
      assert here[|before|] == Place(c.txn, c.step - 1);
      assert Places(env.source, c.txn + 1)[Passed(env, c)] == PlacesIn(changes, c.txn, |changes|)[|before|];
    }
  }

  lemma {:induction false} FirstMonotone(source: seq<Txn>, a: Lsn, b: Lsn)
    requires a <= b
    ensures First(source, a) <= First(source, b)
  {
    if source == [] {
    } else {
      FirstMonotone(source[1..], a, b);
    }
  }

  lemma {:induction false} FirstIs(source: seq<Txn>, lsn: Lsn, k: nat)
    requires k <= |source|
    requires forall i :: 0 <= i < k ==> source[i].endLsn <= lsn
    requires k < |source| ==> source[k].endLsn > lsn
    ensures First(source, lsn) == k
  {
    if k == 0 {
    } else {
      FirstIs(source[1..], lsn, k - 1);
    }
  }

  lemma NeedMonotone(env: Env, a: Lsn, b: Lsn)
    requires a <= b
    ensures Need(env, a) <= Need(env, b)
  {
    FirstMonotone(env.source, a, b);
    PlacesPrefix(env, First(env.source, a), First(env.source, b));
  }

  lemma NeedMax(env: Env, a: Lsn, b: Lsn, limit: nat)
    requires Need(env, a) <= limit && Need(env, b) <= limit
    ensures Need(env, Max(a, b)) <= limit
  {
  }

  lemma CommitNeed(env: Env, t: nat)
    requires env.Valid() && t < |env.source|
    ensures Need(env, env.source[t].endLsn) == |Places(env.source, t + 1)|
  {
    FirstIs(env.source, env.source[t].endLsn, t + 1);
  }

  // ---------------------------------------------------------------------------
  // The invariant

  function OwnEvent(env: Env, position: nat, sequence: nat): BusEvent
    requires position < |AllPlaces(env)| && PlaceIn(env, AllPlaces(env)[position])
  {
    var place := AllPlaces(env)[position];
    Own(sequence, IdAt(env, place), ChangeAt(env, place))
  }

  /** What the stream holds for the change at a position of the commit order. */
  function Expected(env: Env, position: nat): Message<Payload>
    requires position < |AllPlaces(env)| && PlaceIn(env, AllPlaces(env)[position])
    requires ChangeAt(env, AllPlaces(env)[position]).Deliverable()
  {
    var place := AllPlaces(env)[position];
    Message(IdAt(env, place), Payload(ChangeAt(env, place), ChangeAt(env, place).DeliveredForm()))
  }

  ghost predicate Sound(env: Env) {
    && env.Valid() && env.AllDeliverable()
    && forall k :: 0 <= k < |AllPlaces(env)| ==>
         PlaceIn(env, AllPlaces(env)[k]) && ChangeAt(env, AllPlaces(env)[k]).Deliverable()
  }

  lemma EnvIsSound(env: Env)
    requires env.Valid() && env.AllDeliverable()
    ensures Sound(env)
  {
    PlacesValid(env, |env.source|);
    forall k | 0 <= k < |AllPlaces(env)|
      ensures PlaceIn(env, AllPlaces(env)[k]) && ChangeAt(env, AllPlaces(env)[k]).Deliverable()
    {
      assert AllPlaces(env)[k] in AllPlaces(env);
    }
  }

  /** One message per accepted change, in commit order. */
  ghost function Wanted(env: Env): (r: seq<Message<Payload>>)
    requires Sound(env)
    ensures |r| == |AllPlaces(env)|
    ensures forall k :: 0 <= k < |r| ==> r[k] == Expected(env, k)
  {
    seq(|AllPlaces(env)|, k requires 0 <= k < |AllPlaces(env)| => Expected(env, k))
  }

  /** The watcher's events waiting on the bus are those handed and not acked. */
  ghost predicate Queued(env: Env, bus: seq<BusEvent>, log: seq<nat>, acked: nat)
    requires Sound(env) && Positions(env, log)
  {
    if bus == [] then acked == |log|
    else if bus[0].Other? then Queued(env, bus[1..], log, acked)
    else acked < |log| && bus[0] == OwnEvent(env, log[acked], acked + 1) && Queued(env, bus[1..], log, acked + 1)
  }

  ghost predicate Positions(env: Env, log: seq<nat>) {
    forall i :: 0 <= i < |log| ==> log[i] < |AllPlaces(env)|
  }

  /** The publisher only shortens an event after the longer forms were refused. */
  predicate FormOk(bus: seq<BusEvent>, form: Form) {
    form != Full ==>
      && bus != [] && bus[0].Own? && Full !in bus[0].change.fits
      && (form == Stripped ==> KeyOnly !in bus[0].change.fits)
  }

  ghost predicate SessionOk(env: Env, p: Process, n: nat, log: seq<nat>)
    requires p.gate.acked <= |log|
  {
    && (p.session.Some? ==>
      var c := p.session.value;
      && InSource(env, c)
      && Passed(env, c) <= Reach(n, log[p.gate.acked..])
      && (p.gate.inTxn <==> c.step > 0)
      && (c.step > 0 ==> p.txnLsn == env.source[c.txn].commitLsn && p.txnIndex == c.step - 1))
    && (p.idling.Some? ==> p.session.Some? && Streamed(env, p.session.value, p.idling.value))
  }

  ghost predicate CommitsOk(env: Env, g: Gate, n: nat, log: seq<nat>) {
    forall i :: 0 <= i < |g.commits| ==>
      g.commits[i].lastSequence <= |log| &&
      Need(env, g.commits[i].end) <= ReachTo(n, log, g.acked, g.commits[i].lastSequence)
  }

  /** n changes are stored and `log` holds the position of every handed event. */
  ghost predicate ProcessOk(env: Env, p: Process, n: nat, log: seq<nat>)
    requires Sound(env)
  {
    && p.gate.gated && p.gate.handed == |log| && p.gate.acked <= |log|
    && Positions(env, log) && Contiguous(n, log[p.gate.acked..])
    && (p.running && !p.ended ==> Queued(env, p.bus, log, p.gate.acked))
    && FormOk(p.bus, p.form)
    && CommitsOk(env, p.gate, n, log)
    && Need(env, p.gate.confirmable) <= n
    && SessionOk(env, p, n, log)
  }

  ghost predicate Invariant(env: Env, s: State, n: nat, log: seq<nat>)
    requires Sound(env)
  {
    && HoldsPrefix(Wanted(env), env.unboundedWindow, s.stream, n)
    && Need(env, s.slot) <= n
    && (forall lsn <- s.sent :: Need(env, lsn) <= n)
    && ProcessOk(env, s.process, n, log)
  }

  // ---------------------------------------------------------------------------
  // Every step keeps it

  lemma NeedNothing(env: Env)
    requires env.Valid()
    ensures Need(env, 0) == 0 && Need(env, env.origin) == 0
  {
    FirstIs(env.source, 0, 0);
    FirstIs(env.source, env.origin, 0);
  }

  lemma NewProcessOk(env: Env, n: nat)
    requires Sound(env)
    ensures ProcessOk(env, NewProcess(), n, [])
  {
    NeedNothing(env);
  }

  lemma {:induction false} QueuedOther(env: Env, bus: seq<BusEvent>, log: seq<nat>, acked: nat)
    requires Sound(env) && Positions(env, log) && Queued(env, bus, log, acked)
    ensures Queued(env, bus + [Other], log, acked)
    decreases |bus|
  {
    if bus == [] {
      assert bus + [Other] == [Other];
    } else {
      assert (bus + [Other])[1..] == bus[1..] + [Other];
      QueuedOther(env, bus[1..], log, if bus[0].Other? then acked else acked + 1);
    }
  }

  lemma {:induction false} QueuedOwn(env: Env, bus: seq<BusEvent>, log: seq<nat>, acked: nat, p: nat)
    requires Sound(env) && Positions(env, log) && Queued(env, bus, log, acked) && p < |AllPlaces(env)|
    ensures Queued(env, bus + [OwnEvent(env, p, |log| + 1)], log + [p], acked)
    decreases |bus|
  {
    hide Places, PlaceIn, IdAt, ChangeAt;
    var event := OwnEvent(env, p, |log| + 1);
    if bus == [] {
      assert bus + [event] == [event];
      assert [event][1..] == [];
    } else {
      assert (bus + [event])[1..] == bus[1..] + [event];
      QueuedOwn(env, bus[1..], log, if bus[0].Other? then acked else acked + 1, p);
    }
  }

  lemma EnqueueOtherOk(env: Env, p: Process, n: nat, log: seq<nat>)
    requires Sound(env) && ProcessOk(env, p, n, log)
    ensures ProcessOk(env, Enqueue(p, Other), n, log)
  {
    if p.running && !p.ended {
      QueuedOther(env, p.bus, log, p.gate.acked);
    }
  }

  lemma RestOk(env: Env, g: Gate, n: nat, log: seq<nat>, k: nat)
    requires CommitsOk(env, g, n, log) && k <= |g.commits|
    ensures CommitsOk(env, g.(commits := g.commits[k..]), n, log)
  {
    hide Need, ReachTo;
    assert forall i :: 0 <= i < |g.commits[k..]| ==> g.commits[k..][i] == g.commits[k + i];
  }

  lemma SettleOk(env: Env, g: Gate, n: nat, log: seq<nat>)
    requires env.Valid() && g.gated && CommitsOk(env, g, n, log) && Need(env, g.confirmable) <= n
    ensures CommitsOk(env, g.Settle(), n, log) && Need(env, g.Settle().confirmable) <= n
  {
    var k := SettledCount(g.commits, g.acked);
    ConfirmedOk(env, g, n, log, k);
    hide Need, Confirmed, SettledCount, ReachTo;
    NeedMax(env, g.confirmable, Confirmed(g.commits[..k], g.acked), n);
    RestOk(env, g, n, log, k);
  }

  lemma SettledIsStored(env: Env, g: Gate, n: nat, log: seq<nat>, i: nat)
    requires CommitsOk(env, g, n, log) && i < |g.commits| && g.commits[i].lastSequence <= g.acked
    ensures Need(env, g.commits[i].end) <= n
  {
    hide Need;
  }

  lemma {:induction false} ConfirmedOk(env: Env, g: Gate, n: nat, log: seq<nat>, k: nat)
    requires env.Valid() && CommitsOk(env, g, n, log) && k <= |g.commits|
    requires forall i :: 0 <= i < k ==> g.commits[i].lastSequence <= g.acked
    ensures Need(env, Confirmed(g.commits[..k], g.acked)) <= n
  {
    hide Need, CommitsOk, Env.Valid;
    if k == 0 {
      NeedNothing(env);
    } else {
      ConfirmedOk(env, g, n, log, k - 1);
      SettledIsStored(env, g, n, log, k - 1);
      assert g.commits[..k][..k - 1] == g.commits[..k - 1];
      assert g.commits[..k][k - 1] == g.commits[k - 1];
      NeedMax(env, Confirmed(g.commits[..k - 1], g.acked), g.commits[k - 1].end, n);
    }
  }

  lemma BeginOk(env: Env, p: Process, slot: Lsn, n: nat, log: seq<nat>)
    requires Sound(env) && ProcessOk(env, p, n, log) && ListenerStep(env, p, slot, StreamBegin).Some?
    ensures ProcessOk(env, ListenerStep(env, p, slot, StreamBegin).value, n, log)
  {
    var t := p.session.value.txn;
    var p' := p.(txnLsn := env.source[t].commitLsn, txnIndex := 0, gate := p.gate.Begin(),
                 session := Some(Cursor(t, 1)));
    assert PlacesIn(env.source[t].changes, t, 0) == [];
    assert ProcessOk(env, p', n, log);
    EnqueueOtherOk(env, p', n, log);
  }

  lemma RefusedOk(env: Env, p: Process, n: nat, log: seq<nat>, change: Change)
    requires Sound(env) && ProcessOk(env, p, n, log) && Streaming(env, p)
    requires var c := p.session.value;
      0 < c.step <= |env.source[c.txn].changes| && change == env.source[c.txn].changes[c.step - 1] && !change.accepted
    ensures var c := p.session.value;
      ProcessOk(env, Emit(env, p, change).(session := Some(Cursor(c.txn, c.step + 1))), n, log)
  {
    CursorPlace(env, p.session.value);
  }

  /** The cursor moves past the change just handed over. */
  lemma PassedOne(env: Env, p: Process, n: nat, log: seq<nat>, p': Process)
    requires env.Valid() && p.gate.acked <= |log| && SessionOk(env, p, n, log) && Streaming(env, p)
    requires var c := p.session.value;
      && 0 < c.step <= |env.source[c.txn].changes| && env.source[c.txn].changes[c.step - 1].accepted
      && p'.session == Some(Cursor(c.txn, c.step + 1))
    requires p'.idling == p.idling && p'.txnLsn == p.txnLsn && p'.txnIndex == p.txnIndex + 1
    requires p'.gate.acked == p.gate.acked && p'.gate.inTxn == p.gate.inTxn
    requires Reach(n, (log + [Passed(env, p.session.value)])[p.gate.acked..]) >= Passed(env, p.session.value) + 1
    ensures SessionOk(env, p', n, log + [Passed(env, p.session.value)])
  {
    hide Reach, Places;
    CursorPlace(env, p.session.value);
  }

  /** The event emit builds is the one the change is wanted as. */
  lemma EmitsTheWanted(env: Env, p: Process, n: nat, log: seq<nat>)
    requires Sound(env) && p.gate.acked <= |log| && SessionOk(env, p, n, log) && Streaming(env, p)
    requires var c := p.session.value;
      0 < c.step <= |env.source[c.txn].changes| && env.source[c.txn].changes[c.step - 1].accepted
    ensures var c := p.session.value;
      && Passed(env, c) < |AllPlaces(env)|
      && OwnEvent(env, Passed(env, c), |log| + 1)
         == Own(|log| + 1, MessageId(env.prefix, Print(PgChange(p.txnLsn, p.txnIndex))), env.source[c.txn].changes[c.step - 1])
  {
    hide Reach, Places, MessageId, Print;
    CursorPlace(env, p.session.value);
  }

  lemma AcceptedOk(env: Env, p: Process, n: nat, log: seq<nat>, change: Change)
    requires Sound(env) && ProcessOk(env, p, n, log) && Streaming(env, p)
    requires var c := p.session.value;
      0 < c.step <= |env.source[c.txn].changes| && change == env.source[c.txn].changes[c.step - 1] && change.accepted
    ensures var c := p.session.value;
      ProcessOk(env, Emit(env, p, change).(session := Some(Cursor(c.txn, c.step + 1))), n, log + [Passed(env, c)])
  {
    hide Need, MessageId, Print, OwnEvent, AllPlaces;
    var c := p.session.value;
    var position := Passed(env, c);
    EmitsTheWanted(env, p, n, log);
    HandedOk(env, p, n, log, position);
    if p.running && !p.ended {
      QueuedOwn(env, p.bus, log, p.gate.acked, position);
    }
    var p' := Emit(env, p, change).(session := Some(Cursor(c.txn, c.step + 1)));
    PassedOne(env, p, n, log, p');
    hide SessionOk, CommitsOk, Reach, Contiguous, Queued, Passed;
    assert p'.gate == p.gate.Hand();
  }

  lemma ChangeOk(env: Env, p: Process, slot: Lsn, n: nat, log: seq<nat>) returns (log': seq<nat>)
    requires Sound(env) && ProcessOk(env, p, n, log) && ListenerStep(env, p, slot, StreamChange).Some?
    ensures ProcessOk(env, ListenerStep(env, p, slot, StreamChange).value, n, log')
  {
    var c := p.session.value;
    var change := env.source[c.txn].changes[c.step - 1];
    if change.accepted {
      log' := log + [Passed(env, c)];
      AcceptedOk(env, p, n, log, change);
    } else {
      log' := log;
      RefusedOk(env, p, n, log, change);
    }
  }

  lemma HandedOk(env: Env, p: Process, n: nat, log: seq<nat>, position: nat)
    requires Sound(env) && ProcessOk(env, p, n, log)
    requires position < |AllPlaces(env)| && position <= Reach(n, log[p.gate.acked..])
    ensures Contiguous(n, (log + [position])[p.gate.acked..])
    ensures Reach(n, (log + [position])[p.gate.acked..]) == Max(Reach(n, log[p.gate.acked..]), position + 1)
    ensures CommitsOk(env, p.gate.Hand(), n, log + [position])
  {
    assert (log + [position])[p.gate.acked..] == log[p.gate.acked..] + [position];
    Extend(n, log[p.gate.acked..], position);
    forall i | 0 <= i < |p.gate.commits|
      ensures Need(env, p.gate.commits[i].end) <= ReachTo(n, log + [position], p.gate.acked, p.gate.commits[i].lastSequence)
    {
      ReachToHand(n, log, p.gate.acked, p.gate.commits[i].lastSequence, position);
    }
  }

  lemma CommittedOk(env: Env, g: Gate, n: nat, log: seq<nat>, end: Lsn)
    requires CommitsOk(env, g, n, log) && g.handed == |log|
    requires Need(env, end) <= ReachTo(n, log, g.acked, |log|)
    ensures CommitsOk(env, g.Committed(end), n, log)
  {
    var last := |g.commits| - 1;
    if last >= 0 && g.commits[last].lastSequence == |log| {
      NeedMax(env, g.commits[last].end, end, ReachTo(n, log, g.acked, |log|));
    }
  }

  lemma CommitCursor(env: Env, t: nat)
    requires env.Valid() && t < |env.source|
    ensures var c := Cursor(t, |env.source[t].changes| + 1);
      && InSource(env, c) && InSource(env, Cursor(t + 1, 0))
      && Passed(env, Cursor(t + 1, 0)) == Passed(env, c) == Need(env, env.source[t].endLsn)
  {
    CommitNeed(env, t);
  }

  lemma CommitOk(env: Env, p: Process, slot: Lsn, n: nat, log: seq<nat>)
    requires Sound(env) && ProcessOk(env, p, n, log) && ListenerStep(env, p, slot, StreamCommit).Some?
    ensures ProcessOk(env, ListenerStep(env, p, slot, StreamCommit).value, n, log)
  {
    hide AllPlaces;
    hide Need;
    hide Passed;
    hide Queued;
    var t := p.session.value.txn;
    CommitCursor(env, t);
    assert log[p.gate.acked..] == log[p.gate.acked..|log|];
    CommittedOk(env, p.gate, n, log, env.source[t].endLsn);
    var p' := p.(gate := p.gate.Committed(env.source[t].endLsn), session := Some(Cursor(t + 1, 0)));
    assert SessionOk(env, p', n, log);
    EnqueueOtherOk(env, p', n, log);
  }

  /** A keepalive is adopted only with nothing pending and no transaction open,
      so everything before the cursor, hence before it, is stored. */
  lemma KeepaliveOk(env: Env, p: Process, slot: Lsn, n: nat, log: seq<nat>)
    requires Sound(env) && ProcessOk(env, p, n, log) && p.idling.Some?
    ensures ProcessOk(env, ListenerStep(env, p, slot, KeepaliveCheck).value, n, log)
    ensures p.gate.IdleCheck(p.idling.value) != p.gate ==> Need(env, p.idling.value) <= n && p.gate.acked == p.gate.handed
  {
    var g, w := p.gate, p.idling.value;
    if !(g.inTxn || |g.commits| > 0 || g.Pending()) {
      var c := p.session.value;
      assert log[g.acked..] == [];
      PlacesPrefix(env, First(env.source, w), c.txn);
      NeedMax(env, g.confirmable, w, n);
    }
  }

  // Publisher

  lemma {:induction false} PlacesInDistinct(env: Env, txn: nat, count: nat, j: nat, k: nat)
    requires txn < |env.source| && count <= |env.source[txn].changes|
    requires j < k < |PlacesIn(env.source[txn].changes, txn, count)|
    ensures PlacesIn(env.source[txn].changes, txn, count)[j] != PlacesIn(env.source[txn].changes, txn, count)[k]
    decreases count
  {
    var before := PlacesIn(env.source[txn].changes, txn, count - 1);
    PlacesInValid(env, txn, count - 1);
    if k < |before| {
      PlacesInDistinct(env, txn, count - 1, j, k);
    } else {
      assert before[j] in before;
    }
  }

  lemma {:induction false} PlacesDistinct(env: Env, count: nat, j: nat, k: nat)
    requires count <= |env.source| && j < k < |Places(env.source, count)|
    ensures Places(env.source, count)[j] != Places(env.source, count)[k]
    decreases count
  {
    var before := Places(env.source, count - 1);
    var here := PlacesIn(env.source[count - 1].changes, count - 1, |env.source[count - 1].changes|);
    PlacesValid(env, count - 1);
    PlacesInValid(env, count - 1, |env.source[count - 1].changes|);
    if k < |before| {
      PlacesDistinct(env, count - 1, j, k);
    } else if j < |before| {
      assert before[j] in before && here[k - |before|] in here;
    } else {
      PlacesInDistinct(env, count - 1, |env.source[count - 1].changes|, j - |before|, k - |before|);
    }
  }

  /** Different changes go by different names. */
  lemma IdsDiffer(env: Env, j: nat, k: nat)
    requires Sound(env) && j < k < |AllPlaces(env)|
    ensures Expected(env, j).id != Expected(env, k).id
  {
    PlacesDistinct(env, |env.source|, j, k);
    var a, b := AllPlaces(env)[j], AllPlaces(env)[k];
    if IdAt(env, a) == IdAt(env, b) {
      PgMessageIdInjective(env.prefix, env.source[a.txn].commitLsn, a.index,
                           env.prefix, env.source[b.txn].commitLsn, b.index);
    }
  }

  lemma WantedIdsDiffer(env: Env)
    requires Sound(env)
    ensures DistinctIds(Wanted(env))
  {
    var wanted := Wanted(env);
    forall j, k | 0 <= j < k < |wanted| ensures wanted[j].id != wanted[k].id {
      IdsDiffer(env, j, k);
    }
  }

  lemma HeadOfQueue(env: Env, p: Process, n: nat, log: seq<nat>)
    requires Sound(env) && ProcessOk(env, p, n, log) && Attempting(p) && !p.ended
    ensures p.gate.acked < |log| && log[p.gate.acked] < |AllPlaces(env)| && log[p.gate.acked] <= n
    ensures p.bus[0] == OwnEvent(env, log[p.gate.acked], p.gate.acked + 1)
    ensures Positions(env, log) && Queued(env, p.bus[1..], log, p.gate.acked + 1)
    ensures p.bus[0].change.Deliverable()
    ensures p.form in p.bus[0].change.fits ==>
      Message(p.bus[0].id, Payload(p.bus[0].change, p.form)) == Expected(env, log[p.gate.acked])
  {
    assert log[p.gate.acked..][0] == log[p.gate.acked];
  }

  /** More is stored; nothing else moved. */
  lemma StoredMore(env: Env, p: Process, n: nat, n': nat, log: seq<nat>)
    requires Sound(env) && ProcessOk(env, p, n, log) && n <= n'
    ensures ProcessOk(env, p, n', log)
  {
    Weaken(n, n', log[p.gate.acked..]);
    forall i | 0 <= i < |p.gate.commits|
      ensures Need(env, p.gate.commits[i].end) <= ReachTo(n', log, p.gate.acked, p.gate.commits[i].lastSequence)
    {
      ReachToWeaken(n, n', log, p.gate.acked, p.gate.commits[i].lastSequence);
    }
  }

  lemma AckedCommitsOk(env: Env, g: Gate, n: nat, log: seq<nat>)
    requires CommitsOk(env, g, n, log) && g.acked < |log| && log[g.acked] <= n
    ensures CommitsOk(env, g.Observe(g.acked + 1), Max(n, log[g.acked] + 1), log)
  {
    forall i | 0 <= i < |g.commits|
      ensures Need(env, g.commits[i].end) <= ReachTo(Max(n, log[g.acked] + 1), log, g.acked + 1, g.commits[i].lastSequence)
    {
      ReachToAck(n, log, g.acked, g.commits[i].lastSequence);
    }
  }

  lemma AckedLogOk(n: nat, log: seq<nat>, acked: nat)
    requires acked < |log| && Contiguous(n, log[acked..])
    ensures Contiguous(Max(n, log[acked] + 1), log[acked + 1..])
    ensures Reach(Max(n, log[acked] + 1), log[acked + 1..]) == Reach(n, log[acked..])
  {
    assert log[acked..][1..] == log[acked + 1..];
  }

  lemma AckedSessionOk(env: Env, p: Process, p': Process, n: nat, n': nat, log: seq<nat>)
    requires p.gate.acked < |log| && SessionOk(env, p, n, log) && p'.gate == p.gate.(acked := p.gate.acked + 1)
    requires p'.session == p.session && p'.idling == p.idling && p'.txnLsn == p.txnLsn && p'.txnIndex == p.txnIndex
    requires Reach(n', log[p.gate.acked + 1..]) == Reach(n, log[p.gate.acked..])
    ensures SessionOk(env, p', n', log)
  {
    hide Reach, Passed, InSource, Streamed;
  }

  lemma AckedOk(env: Env, p: Process, n: nat, log: seq<nat>)
    requires Sound(env) && ProcessOk(env, p, n, log) && Attempting(p) && !p.ended
    requires p.form in p.bus[0].change.fits
    ensures p.gate.acked < |log|
    ensures ProcessOk(env, Dequeue(p).(gate := p.gate.Observe(p.bus[0].sequence)), Max(n, log[p.gate.acked] + 1), log)
  {
    hide Need, AllPlaces, SessionOk, CommitsOk, Queued;
    HeadOfQueue(env, p, n, log);
    AckedLogOk(n, log, p.gate.acked);
    AckedCommitsOk(env, p.gate, n, log);
    var p' := Dequeue(p).(gate := p.gate.Observe(p.bus[0].sequence));
    AckedSessionOk(env, p, p', n, Max(n, log[p.gate.acked] + 1), log);
    hide Reach, Contiguous, OwnEvent;
  }

  lemma PublishedProcessOk(env: Env, p: Process, n: nat, log: seq<nat>, remembered: bool, ackArrives: bool)
    requires Sound(env) && ProcessOk(env, p, n, log) && Attempting(p) && !p.ended
    requires p.form in p.bus[0].change.fits
    ensures p.gate.acked < |log|
    ensures ProcessOk(env, PublisherStep(p, Publish(remembered, ackArrives)).value, Max(n, log[p.gate.acked] + 1), log)
  {
    hide ProcessOk, Queued, OwnEvent, Expected, AllPlaces;
    HeadOfQueue(env, p, n, log);
    if ackArrives {
      AckedOk(env, p, n, log);
    } else {
      StoredMore(env, p, n, Max(n, log[p.gate.acked] + 1), log);
    }
  }

  lemma PublishedStreamOk(env: Env, p: Process, stream: seq<Message<Payload>>, n: nat, log: seq<nat>, remembered: bool)
    requires Sound(env) && ProcessOk(env, p, n, log) && Attempting(p) && !p.ended
    requires p.form in p.bus[0].change.fits && (env.unboundedWindow ==> remembered)
    requires HoldsPrefix(Wanted(env), env.unboundedWindow, stream, n)
    ensures p.gate.acked < |log|
    ensures HoldsPrefix(Wanted(env), env.unboundedWindow,
      Store(stream, Message(p.bus[0].id, Payload(p.bus[0].change, p.form)), remembered), Max(n, log[p.gate.acked] + 1))
  {
    HeadOfQueue(env, p, n, log);
    WantedIdsDiffer(env);
    hide Wanted, ProcessOk, Sound, HoldsPrefix, DistinctIds, Store;
    StoreKeepsPrefix(Wanted(env), env.unboundedWindow, stream, n, log[p.gate.acked], remembered);
  }

  lemma PublishOk(env: Env, s: State, n: nat, log: seq<nat>, remembered: bool, ackArrives: bool) returns (n': nat)
    requires Sound(env) && Invariant(env, s, n, log) && Next(env, s, Publish(remembered, ackArrives)).Some?
    ensures Invariant(env, Next(env, s, Publish(remembered, ackArrives)).value, n', log)
  {
    hide ProcessOk;
    hide HoldsPrefix;
    PublishedStreamOk(env, s.process, s.stream, n, log, remembered);
    PublishedProcessOk(env, s.process, n, log, remembered, ackArrives);
    n' := Max(n, log[s.process.gate.acked] + 1);
  }

  lemma OtherPublisherOk(env: Env, p: Process, n: nat, log: seq<nat>, step: Step)
    requires Sound(env) && ProcessOk(env, p, n, log)
    requires step.OtherEvent? || step.SkipOther? || step.TooLarge? || step.EndContext? || step.GiveUp? || step.StopPublisher?
    requires PublisherStep(p, step).Some?
    ensures ProcessOk(env, PublisherStep(p, step).value, n, log)
  {
    hide InSource, Passed, Streamed, CommitsOk, Contiguous, Need, OwnEvent;
    match step
    case OtherEvent => EnqueueOtherOk(env, p, n, log);
    case TooLarge =>
      if !p.ended {
        HeadOfQueue(env, p, n, log);
      }
    case _ =>
  }

  lemma SettledProcessOk(env: Env, p: Process, n: nat, log: seq<nat>, idling: Option<Lsn>)
    requires Sound(env) && ProcessOk(env, p, n, log)
    requires idling.Some? ==> p.session.Some? && Streamed(env, p.session.value, idling.value)
    ensures ProcessOk(env, p.(gate := p.gate.Settle(), idling := idling), n, log)
  {
    SettleOk(env, p.gate, n, log);
    hide Need, Passed, CommitsOk, Queued, Contiguous, Streamed, Confirmed, SettledCount;
  }

  lemma ConnectionOk(env: Env, p: Process, slot: Lsn, n: nat, log: seq<nat>, step: Step)
    requires Sound(env) && ProcessOk(env, p, n, log) && Need(env, slot) <= n
    requires (step.Connect? || step.Disconnect?) && ListenerStep(env, p, slot, step).Some?
    ensures ProcessOk(env, ListenerStep(env, p, slot, step).value, n, log)
  {
    hide Queued, Contiguous;
  }

  lemma ListenerOk(env: Env, p: Process, slot: Lsn, n: nat, log: seq<nat>, step: Step) returns (log': seq<nat>)
    requires Sound(env) && ProcessOk(env, p, n, log) && Need(env, slot) <= n && ListenerStep(env, p, slot, step).Some?
    ensures ProcessOk(env, ListenerStep(env, p, slot, step).value, n, log')
  {
    log' := log;
    match step
    case Connect => ConnectionOk(env, p, slot, n, log, step);
    case StreamBegin => BeginOk(env, p, slot, n, log);
    case StreamChange => log' := ChangeOk(env, p, slot, n, log);
    case StreamCommit => CommitOk(env, p, slot, n, log);
    case KeepaliveSettle(position) =>
      hide ProcessOk;
      SettledProcessOk(env, p, n, log, Some(position));
    case KeepaliveCheck => KeepaliveOk(env, p, slot, n, log);
    case SendStatus =>
      hide ProcessOk;
      SettledProcessOk(env, p, n, log, None);
    case Disconnect => ConnectionOk(env, p, slot, n, log, step);
  }

  lemma OtherStepOk(env: Env, s: State, n: nat, log: seq<nat>, step: Step) returns (log': seq<nat>)
    requires Sound(env) && Invariant(env, s, n, log) && Next(env, s, step).Some?
    requires !step.Publish? && !step.ServerAdopts? && !step.Crash?
    ensures Invariant(env, Next(env, s, step).value, n, log')
  {
    if PublisherStep(s.process, step).Some? {
      log' := log;
      OtherPublisherOk(env, s.process, n, log, step);
      assert Next(env, s, step).value == s.(process := PublisherStep(s.process, step).value);
    } else {
      log' := ListenerOk(env, s.process, s.slot, n, log, step);
      var p := ListenerStep(env, s.process, s.slot, step).value;
      assert Next(env, s, step).value
          == s.(process := p, sent := if step.SendStatus? then s.sent + {p.gate.confirmable} else s.sent);
    }
  }

  lemma StepOk(env: Env, s: State, n: nat, log: seq<nat>, step: Step) returns (n': nat, log': seq<nat>)
    requires Sound(env) && Invariant(env, s, n, log) && Next(env, s, step).Some?
    ensures Invariant(env, Next(env, s, step).value, n', log')
  {
    hide HoldsPrefix;
    hide Need;
    n', log' := n, log;
    match step
    case ServerAdopts(_) =>
    case Crash =>
      NewProcessOk(env, n);
      log' := [];
    case Publish(remembered, ackArrives) => n' := PublishOk(env, s, n, log, remembered, ackArrives);
    case _ => log' := OtherStepOk(env, s, n, log, step);
  }

  lemma {:induction false} RunOk(env: Env, steps: seq<Step>) returns (n: nat, log: seq<nat>)
    requires Sound(env) && Run(env, steps).Some?
    ensures Invariant(env, Run(env, steps).value, n, log)
  {
    if steps == [] {
      n, log := 0, [];
      NewProcessOk(env, 0);
      NeedNothing(env);
    } else {
      var front := steps[..|steps| - 1];
      n, log := RunOk(env, front);
      n, log := StepOk(env, Run(env, front).value, n, log, steps[|steps| - 1]);
    }
  }

  // ---------------------------------------------------------------------------
  // Main results

  /** A change of a transaction that ends at or before a position whose needs are
      stored is itself stored. */
  lemma StoredWithin(env: Env, s: State, n: nat, log: seq<nat>, lsn: Lsn, t: nat, i: nat)
    requires Sound(env) && Invariant(env, s, n, log) && Need(env, lsn) <= n
    requires t < |env.source| && env.source[t].endLsn <= lsn && PlaceIn(env, Place(t, i))
    ensures var change := env.source[t].changes[i];
      Message(IdAt(env, Place(t, i)), Payload(change, change.DeliveredForm())) in s.stream
  {
    hide ProcessOk;
    var changes := env.source[t].changes;
    var c := Cursor(t, i + 1);
    CursorPlace(env, c);
    CommitNeed(env, t);
    NeedMonotone(env, env.source[t].endLsn, lsn);
    PlacesInPrefix(changes, t, i + 1, |changes|);
    hide Need;
    assert Passed(env, c) < Need(env, env.source[t].endLsn);
    assert Wanted(env)[..n][Passed(env, c)] in s.stream;
  }

  /** No loss: in every run, every accepted change of every transaction that
      ends at or before the slot position is stored, in the first form that
      fits, under the name every re-stream gives it. */
  lemma NothingConfirmedIsLost(env: Env, steps: seq<Step>, t: nat, i: nat)
    requires env.Valid() && env.AllDeliverable() && Run(env, steps).Some?
    requires t < |env.source| && env.source[t].endLsn <= Run(env, steps).value.slot
    requires PlaceIn(env, Place(t, i))
    ensures var change := env.source[t].changes[i];
      Message(IdAt(env, Place(t, i)), Payload(change, change.DeliveredForm())) in Run(env, steps).value.stream
  {
    hide Run, Need;
    EnvIsSound(env);
    var n, log := RunOk(env, steps);
    StoredWithin(env, Run(env, steps).value, n, log, Run(env, steps).value.slot, t, i);
  }

  /** Exactly once, in commit order: with an unbounded duplicate window the
      stream is, at every moment of every run, the first n accepted changes of
      the source, one message each, for some n the slot has not passed. */
  lemma StreamIsACommitOrderPrefix(env: Env, steps: seq<Step>)
    requires env.Valid() && env.AllDeliverable() && env.unboundedWindow && Run(env, steps).Some?
    ensures Sound(env)
    ensures var s := Run(env, steps).value;
      Need(env, s.slot) <= |s.stream| && s.stream <= Wanted(env)
  {
    EnvIsSound(env);
    var n, log := RunOk(env, steps);
  }

  /** No two messages for one change, and nothing the source did not contain,
      in every run; the duplicate window matters only for the first half. */
  lemma StreamHoldsOnlySourceChanges(env: Env, steps: seq<Step>)
    requires env.Valid() && env.AllDeliverable() && Run(env, steps).Some?
    ensures Sound(env)
    ensures forall m <- Run(env, steps).value.stream :: m in Wanted(env)
    ensures env.unboundedWindow ==> DistinctIds(Run(env, steps).value.stream)
  {
    EnvIsSound(env);
    var n, log := RunOk(env, steps);
    WantedIdsDiffer(env);
  }

  /** The name a change would go by, accepted or not. */
  function NameAt(env: Env, t: nat, i: nat): string
    requires t < |env.source|
  {
    MessageId(env.prefix, Print(PgChange(env.source[t].commitLsn, i)))
  }

  /** A wanted message bears the name of an accepted change, and of no other. */
  lemma NamesTheAccepted(env: Env, m: Message<Payload>, t: nat, i: nat)
    requires Sound(env) && m in Wanted(env) && t < |env.source| && m.id == NameAt(env, t, i)
    ensures PlaceIn(env, Place(t, i))
  {
    hide Places, MessageId, Print;
    var k :| 0 <= k < |Wanted(env)| && Wanted(env)[k] == m;
    var place := AllPlaces(env)[k];
    assert PlaceIn(env, place) && m.id == NameAt(env, place.txn, place.index);
    SameName(env, place.txn, place.index, t, i);
  }

  lemma SameName(env: Env, t: nat, i: nat, t': nat, i': nat)
    requires env.Valid() && t < |env.source| && t' < |env.source| && NameAt(env, t, i) == NameAt(env, t', i')
    ensures t == t' && i == i'
  {
    hide MessageId, Print;
    PgMessageIdInjective(env.prefix, env.source[t].commitLsn, i, env.prefix, env.source[t'].commitLsn, i');
    assert env.source[t].commitLsn == env.source[t'].commitLsn;
  }

  /** Exactly the accepted changes: of a transaction at or before the slot, a
      change is in the stream if and only if the bus took it. One the bus refused
      is passed over by the slot and never stored. */
  lemma StoredIffAccepted(env: Env, steps: seq<Step>, t: nat, i: nat)
    requires env.Valid() && env.AllDeliverable() && Run(env, steps).Some?
    requires t < |env.source| && env.source[t].endLsn <= Run(env, steps).value.slot && i < |env.source[t].changes|
    ensures env.source[t].changes[i].accepted <==> exists m <- Run(env, steps).value.stream :: m.id == NameAt(env, t, i)
  {
    hide Run, Wanted;
    var stream := Run(env, steps).value.stream;
    if env.source[t].changes[i].accepted {
      NothingConfirmedIsLost(env, steps, t, i);
      var change := env.source[t].changes[i];
      assert Message(IdAt(env, Place(t, i)), Payload(change, change.DeliveredForm())).id == NameAt(env, t, i);
    } else {
      StreamHoldsOnlySourceChanges(env, steps);
      forall m <- stream ensures m.id != NameAt(env, t, i) {
        if m.id == NameAt(env, t, i) {
          NamesTheAccepted(env, m, t, i);
        }
      }
    }
  }

  /** A keepalive moves the gate, in any run, only when every handed event is
      acked and every accepted change before it is stored. */
  lemma KeepaliveAdoptionIsSafe(env: Env, steps: seq<Step>, t: nat, i: nat)
    requires env.Valid() && env.AllDeliverable() && Run(env, steps).Some?
    requires var p := Run(env, steps).value.process;
      p.idling.Some? && p.gate.IdleCheck(p.idling.value) != p.gate &&
      t < |env.source| && env.source[t].endLsn <= p.idling.value && PlaceIn(env, Place(t, i))
    ensures var p := Run(env, steps).value.process;
      p.gate.acked == p.gate.handed && !p.gate.inTxn
    ensures var change := env.source[t].changes[i];
      Message(IdAt(env, Place(t, i)), Payload(change, change.DeliveredForm())) in Run(env, steps).value.stream
  {
    hide Run, Need;
    EnvIsSound(env);
    var n, log := RunOk(env, steps);
    var s := Run(env, steps).value;
    KeepaliveOk(env, s.process, s.slot, n, log);
    hide ProcessOk;
    StoredWithin(env, s, n, log, s.process.idling.value, t, i);
  }
}
