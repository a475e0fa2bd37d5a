/** The event bus: producers, subscribers, unsubscribing and shutdown, over
    every interleaving.

    A producer delivers under the read lock; subscribing, removing a subscriber
    and closing the channels happen under the write lock, so they are single
    steps that wait for every reader to be gone. Stopping a subscriber and
    starting a shutdown take no lock: they are what frees a producer that is
    blocked on a full channel. */
module Bus {
  import opened Streams

  const CAPACITY: nat := 100000

  /** `number` and `producer` tell events apart; the rest decides who gets it. */
  datatype Event = Event(producer: nat, number: nat, table: string, tableEvent: bool, invalidJson: bool)

  datatype Kind = Global | Table(name: string) {
    ghost predicate Applies(e: Event) {
      Global? || (e.table != "" && e.tableEvent && e.table == name)
    }
  }

  /** `from` holds how many events each producer had been admitted with when
      this subscriber joined. */
  datatype Subscriber = Subscriber(kind: Kind, queue: seq<Event>, taken: seq<Event>, stopped: bool, closed: bool, from: seq<nat>)

  datatype Producer =
    | Idle
    | Waiting(event: Event)
    | Delivering(event: Event, targets: seq<nat>, blocked: bool)

  datatype State = State(
    shutdown: bool, closing: bool, panicked: bool,
    subs: seq<Subscriber>, globals: seq<nat>, tables: map<string, seq<nat>>,
    producers: seq<Producer>, admitted: seq<seq<Event>>)
  {
    predicate NoReaders() {
      forall p :: 0 <= p < |producers| ==> !producers[p].Delivering?
    }

    /** Whom HandleEvent delivers to, in its order. */
    function Targets(e: Event): seq<nat> {
      globals + if e.table != "" && e.tableEvent && e.table in tables then tables[e.table] else []
    }
  }

  function Init(producerCount: nat): State {
    State(false, false, false, [], [], map[], seq(producerCount, _ => Idle), seq(producerCount, _ => []))
  }

  datatype Step =
    | Call(p: nat, event: Event)
    | Acquire(p: nat)
    | Send(p: nat)
    | Block(p: nat)
    | SkipStopped(p: nat)
    | SkipShutdown(p: nat)
    | Release(p: nat)
    | Take(s: nat)
    | Subscribe(kind: Kind)
    | Stop(s: nat)
    | Remove(s: nat)
    | BeginShutdown
    | FinishShutdown

  function Without(ids: seq<nat>, s: nat): seq<nat> {
    if ids == [] then [] else if ids[0] == s then ids[1..] else [ids[0]] + Without(ids[1..], s)
  }

  /** The producer's own steps inside HandleEvent. */
  function ProducerStep(st: State, step: Step): Option<State> {
    match step
    case Call(p, e) =>
      if p < |st.producers| && st.producers[p].Idle? && e.producer == p then
        if st.shutdown || (e.tableEvent && e.invalidJson) then Some(st)
        else Some(st.(producers := st.producers[p := Waiting(e)]))
      else None
    case Acquire(p) =>
      if p < |st.producers| && p < |st.admitted| && st.producers[p].Waiting? then
        var e := st.producers[p].event;
        Some(st.(producers := st.producers[p := Delivering(e, st.Targets(e), false)],
                 admitted := st.admitted[p := st.admitted[p] + [e]]))
      else None
    case Send(p) =>
      if AtTarget(st, p) && |st.subs[Head(st, p)].queue| < CAPACITY then
        var t := Head(st, p);
        var sub := st.subs[t];
        Some(Advance(st, p).(subs := st.subs[t := sub.(queue := sub.queue + [st.producers[p].event])],
                             panicked := st.panicked || sub.closed))
      else None
    case Block(p) =>
      if AtTarget(st, p) && !st.producers[p].blocked && |st.subs[Head(st, p)].queue| >= CAPACITY then
        Some(st.(producers := st.producers[p := st.producers[p].(blocked := true)]))
      else None
    case SkipStopped(p) =>
      if AtTarget(st, p) && st.producers[p].blocked && st.subs[Head(st, p)].stopped then Some(Advance(st, p)) else None
    case SkipShutdown(p) =>
      if AtTarget(st, p) && st.producers[p].blocked && st.shutdown then Some(Advance(st, p)) else None
    case Release(p) =>
      if p < |st.producers| && st.producers[p].Delivering? && st.producers[p].targets == [] then
        Some(st.(producers := st.producers[p := Idle]))
      else None
    case _ => None
  }

  predicate AtTarget(st: State, p: nat) {
    && p < |st.producers| && st.producers[p].Delivering? && st.producers[p].targets != []
    && st.producers[p].targets[0] < |st.subs|
  }

  function Head(st: State, p: nat): nat
    requires AtTarget(st, p)
  {
    st.producers[p].targets[0]
  }

  function Advance(st: State, p: nat): State
    requires AtTarget(st, p)
  {
    var d := st.producers[p];
    st.(producers := st.producers[p := Delivering(d.event, d.targets[1..], false)])
  }

  function NewSubscriber(st: State, kind: Kind): Subscriber {
    Subscriber(kind, [], [], false, false, seq(|st.admitted|, p requires 0 <= p < |st.admitted| => |st.admitted[p]|))
  }

  function List(st: State, name: string): seq<nat> {
    if name in st.tables then st.tables[name] else []
  }

  function RemoveFrom(st: State, s: nat): State
    requires s < |st.subs|
  {
    match st.subs[s].kind
    case Global => st.(globals := Without(st.globals, s))
    case Table(name) =>
      var rest := Without(List(st, name), s);
      if rest == [] then st.(tables := st.tables - {name}) else st.(tables := st.tables[name := rest])
  }

  predicate Listed(st: State, s: nat)
    requires s < |st.subs|
  {
    match st.subs[s].kind
    case Global => s in st.globals
    case Table(name) => name in st.tables && s in st.tables[name]
  }

  function CloseListed(st: State): (subs: seq<Subscriber>)
    ensures |subs| == |st.subs|
    ensures forall s :: 0 <= s < |subs| ==> subs[s] == st.subs[s].(closed := st.subs[s].closed || Listed(st, s))
  {
    seq(|st.subs|, s requires 0 <= s < |st.subs| => st.subs[s].(closed := st.subs[s].closed || Listed(st, s)))
  }

  function OtherStep(st: State, step: Step): Option<State> {
    match step
    case Take(s) =>
      if s < |st.subs| && st.subs[s].queue != [] then
        var sub := st.subs[s];
        Some(st.(subs := st.subs[s := sub.(queue := sub.queue[1..], taken := sub.taken + [sub.queue[0]])]))
      else None
    case Subscribe(kind) =>
      if st.NoReaders() then
        var joined := st.(subs := st.subs + [NewSubscriber(st, kind)]);
        Some(match kind
             case Global => joined.(globals := st.globals + [|st.subs|])
             case Table(name) => joined.(tables := st.tables[name := List(st, name) + [|st.subs|]]))
      else None
    case Stop(s) => if s < |st.subs| then Some(st.(subs := st.subs[s := st.subs[s].(stopped := true)])) else None
    case Remove(s) => if s < |st.subs| && st.subs[s].stopped && st.NoReaders() then Some(RemoveFrom(st, s)) else None
    case BeginShutdown => if st.shutdown then Some(st) else Some(st.(shutdown := true, closing := true))
    case FinishShutdown =>
      if st.closing && st.NoReaders() then
        Some(st.(closing := false, subs := CloseListed(st), globals := [], tables := map[]))
      else None
    case _ => None
  }

  function Next(st: State, step: Step): Option<State> {
    if ProducerStep(st, step).Some? then ProducerStep(st, step) else OtherStep(st, step)
  }

  function Run(producerCount: nat, steps: seq<Step>): Option<State> {
    if steps == [] then Some(Init(producerCount))
    else
      var before := Run(producerCount, steps[..|steps| - 1]);
      if before.None? then None else Next(before.value, steps[|steps| - 1])
  }

  // ---------------------------------------------------------------------------
  // What a subscriber is owed

  function FromProducer(p: nat, es: seq<Event>): seq<Event> {
    if es == [] then []
    else FromProducer(p, es[..|es| - 1]) + if es[|es| - 1].producer == p then [es[|es| - 1]] else []
  }

  ghost function Applicable(kind: Kind, es: seq<Event>): seq<Event> {
    if es == [] then []
    else Applicable(kind, es[..|es| - 1]) + if kind.Applies(es[|es| - 1]) then [es[|es| - 1]] else []
  }

  /** Everything that reached a subscriber's channel, read or not. */
  function Received(sub: Subscriber): seq<Event> {
    sub.taken + sub.queue
  }

  /** The event producer p is still about to send to subscriber s. */
  function Coming(pc: Producer, s: nat): seq<Event> {
    if pc.Delivering? && s in pc.targets then [pc.event] else []
  }

  // ---------------------------------------------------------------------------
  // The invariant

  ghost predicate NoRepeats(ids: seq<nat>) {
    forall i, j :: 0 <= i < j < |ids| ==> ids[i] != ids[j]
  }

  ghost predicate ListOk(subs: seq<Subscriber>, ids: seq<nat>, kind: Kind) {
    NoRepeats(ids) && forall i :: 0 <= i < |ids| ==> ids[i] < |subs| && subs[ids[i]].kind == kind && !subs[ids[i]].closed
  }

  ghost predicate ListsOk(st: State) {
    && ListOk(st.subs, st.globals, Global)
    && forall name :: name in st.tables ==> ListOk(st.subs, st.tables[name], Table(name))
  }

  /** A reader works off the tail of the lists it started with: they cannot
      change under it. */
  ghost predicate ReaderOk(st: State, p: nat)
    requires p < |st.producers|
  {
    var pc := st.producers[p];
    && (pc.Waiting? ==> pc.event.producer == p)
    && (pc.Delivering? ==>
         && pc.event.producer == p
         && |pc.targets| <= |st.Targets(pc.event)|
         && pc.targets == st.Targets(pc.event)[|st.Targets(pc.event)| - |pc.targets|..])
  }

  ghost predicate Owed(sub: Subscriber, s: nat, pc: Producer, p: nat, admitted: seq<Event>) {
    && p < |sub.from| && sub.from[p] <= |admitted|
    && (!sub.stopped ==> FromProducer(p, Received(sub)) + Coming(pc, s) == Applicable(sub.kind, admitted[sub.from[p]..]))
  }

  ghost predicate ReadersOk(st: State) {
    forall p :: 0 <= p < |st.producers| ==> ReaderOk(st, p)
  }

  ghost predicate LiveAreListed(st: State) {
    !st.shutdown ==> forall s :: 0 <= s < |st.subs| && !st.subs[s].stopped ==> Listed(st, s)
  }

  ghost predicate AllOwed(st: State)
    requires |st.producers| == |st.admitted|
  {
    !st.shutdown ==> forall s, p :: 0 <= s < |st.subs| && 0 <= p < |st.producers| ==>
      Owed(st.subs[s], s, st.producers[p], p, st.admitted[p])
  }

  ghost predicate Invariant(st: State) {
    && |st.producers| == |st.admitted| && (st.closing ==> st.shutdown)
    && !st.panicked && ListsOk(st) && ReadersOk(st) && LiveAreListed(st) && AllOwed(st)
  }

  lemma TargetsOk(st: State, e: Event)
    requires ListsOk(st)
    ensures NoRepeats(st.Targets(e))
    ensures forall i :: 0 <= i < |st.Targets(e)| ==>
      st.Targets(e)[i] < |st.subs| && !st.subs[st.Targets(e)[i]].closed && st.subs[st.Targets(e)[i]].kind.Applies(e)
    ensures forall s :: 0 <= s < |st.subs| && Listed(st, s) && st.subs[s].kind.Applies(e) ==> s in st.Targets(e)
  {
    var ts := st.Targets(e);
    forall i | 0 <= i < |ts|
      ensures ts[i] < |st.subs| && !st.subs[ts[i]].closed && st.subs[ts[i]].kind.Applies(e)
    {
      if i < |st.globals| {
        assert ts[i] == st.globals[i];
      } else {
        assert ts[i] == st.tables[e.table][i - |st.globals|];
      }
    }
    forall i, j | 0 <= i < j < |ts| ensures ts[i] != ts[j] {
      if i < |st.globals| <= j {
        assert ts[i] == st.globals[i] && ts[j] == st.tables[e.table][j - |st.globals|];
      }
    }
  }

  /** An event reaches every listed subscriber to all events, and of the others
      exactly those listed under its table, if it is an event of that table. */
  lemma Reaches(st: State, e: Event, s: nat)
    requires ListsOk(st) && s < |st.subs| && Listed(st, s)
    ensures s in st.Targets(e) <==> st.subs[s].kind == Global || (e.table != "" && e.tableEvent && st.subs[s].kind == Table(e.table))
  {
    TargetsOk(st, e);
  }

  lemma FromProducerAppend(p: nat, es: seq<Event>, e: Event)
    ensures FromProducer(p, es + [e]) == FromProducer(p, es) + if e.producer == p then [e] else []
  {
    assert (es + [e])[..|es|] == es;
  }

  lemma ApplicableAppend(kind: Kind, es: seq<Event>, e: Event)
    ensures Applicable(kind, es + [e]) == Applicable(kind, es) + if kind.Applies(e) then [e] else []
  {
    assert (es + [e])[..|es|] == es;
  }

  // ---------------------------------------------------------------------------
  // Every step keeps it

  lemma AcquireOwed(st: State, p: nat, s: nat)
    requires Invariant(st) && !st.shutdown && p < |st.producers| && st.producers[p].Waiting? && s < |st.subs|
    ensures var e := st.producers[p].event;
      Owed(st.subs[s], s, Delivering(e, st.Targets(e), false), p, st.admitted[p] + [e])
  {
    var e := st.producers[p].event;
    var sub := st.subs[s];
    TargetsOk(st, e);
    assert Owed(sub, s, st.producers[p], p, st.admitted[p]);
    assert (st.admitted[p] + [e])[sub.from[p]..] == st.admitted[p][sub.from[p]..] + [e];
    assert !sub.stopped ==> Listed(st, s);
    hide FromProducer, Applicable, ListsOk, ReadersOk, AllOwed, State.Targets, Listed;
    ApplicableAppend(sub.kind, st.admitted[p][sub.from[p]..], e);
  }

  lemma AcquireAllOwed(st: State, p: nat)
    requires Invariant(st) && ProducerStep(st, Acquire(p)).Some?
    ensures AllOwed(ProducerStep(st, Acquire(p)).value)
  {
    hide Owed;
    hide ListsOk;
    hide ReaderOk;
    var st' := ProducerStep(st, Acquire(p)).value;
    if !st.shutdown {
      forall s, q | 0 <= s < |st.subs| && 0 <= q < |st.producers|
        ensures Owed(st'.subs[s], s, st'.producers[q], q, st'.admitted[q])
      {
        if q == p {
          AcquireOwed(st, p, s);
        } else {
          assert Owed(st.subs[s], s, st.producers[q], q, st.admitted[q]);
        }
      }
    }
  }

  lemma AcquireOk(st: State, p: nat)
    requires Invariant(st) && ProducerStep(st, Acquire(p)).Some?
    ensures Invariant(ProducerStep(st, Acquire(p)).value)
  {
    hide AllOwed;
    var st' := ProducerStep(st, Acquire(p)).value;
    AcquireAllOwed(st, p);
    assert ReaderOk(st, p);
    forall q | 0 <= q < |st'.producers| ensures ReaderOk(st', q) {
      if q != p {
        assert ReaderOk(st, q);
      }
    }
  }

  lemma SuffixHead(all: seq<nat>, k: nat, ts: seq<nat>)
    requires NoRepeats(all) && k < |all| && ts == all[k..]
    ensures ts[0] == all[k] && ts[0] !in ts[1..]
    ensures forall s :: s in ts <==> s == ts[0] || s in ts[1..]
  {
    forall i | 0 <= i < |ts[1..]| ensures ts[1..][i] != ts[0] {
      assert ts[1..][i] == all[k + 1 + i];
    }
    assert ts == [ts[0]] + ts[1..];
  }

  /** The current target is a live, listed subscriber, and comes up only once. */
  lemma HeadOk(st: State, p: nat)
    requires Invariant(st) && p < |st.producers| && st.producers[p].Delivering? && st.producers[p].targets != []
    ensures AtTarget(st, p) && !st.subs[Head(st, p)].closed && st.producers[p].event.producer == p
    ensures Head(st, p) !in st.producers[p].targets[1..]
    ensures forall s :: s in st.producers[p].targets <==> s == Head(st, p) || s in st.producers[p].targets[1..]
  {
    hide NoRepeats;
    hide AllOwed;
    hide LiveAreListed;
    hide ListsOk;
    var pc := st.producers[p];
    var all := st.Targets(pc.event);
    assert ReaderOk(st, p);
    TargetsOk(st, pc.event);
    SuffixHead(all, |all| - |pc.targets|, pc.targets);
  }

  lemma TailOfTail(all: seq<nat>, tail: seq<nat>)
    requires 0 < |tail| <= |all| && tail == all[|all| - |tail|..]
    ensures tail[1..] == all[|all| - |tail| + 1..]
  {
  }

  lemma AdvancedReader(st: State, p: nat)
    requires p < |st.producers| && AtTarget(st, p) && ReaderOk(st, p)
    ensures ReaderOk(Advance(st, p), p)
  {
    var pc := st.producers[p];
    TailOfTail(st.Targets(pc.event), pc.targets);
    assert Advance(st, p).Targets(pc.event) == st.Targets(pc.event);
    hide State.Targets;
  }

  lemma SendOwed(st: State, p: nat, s: nat, q: nat)
    requires Invariant(st) && !st.shutdown && ProducerStep(st, Send(p)).Some? && s < |st.subs| && q < |st.producers|
    ensures var st' := ProducerStep(st, Send(p)).value;
      Owed(st'.subs[s], s, st'.producers[q], q, st'.admitted[q])
  {
    HeadOk(st, p);
    assert Owed(st.subs[s], s, st.producers[q], q, st.admitted[q]);
    if s == Head(st, p) {
      var sub, e := st.subs[s], st.producers[p].event;
      assert sub.taken + (sub.queue + [e]) == Received(sub) + [e];
      FromProducerAppend(q, Received(sub), e);
    }
  }

  lemma SendAllOwed(st: State, p: nat)
    requires Invariant(st) && ProducerStep(st, Send(p)).Some?
    ensures AllOwed(ProducerStep(st, Send(p)).value)
  {
    hide Owed;
    hide ListsOk;
    hide ReaderOk;
    var st' := ProducerStep(st, Send(p)).value;
    if !st.shutdown {
      forall s, q | 0 <= s < |st.subs| && 0 <= q < |st.producers|
        ensures Owed(st'.subs[s], s, st'.producers[q], q, st'.admitted[q])
      {
        SendOwed(st, p, s, q);
      }
    }
  }

  /** A message more in one channel changes no list. */
  lemma SameListing(st: State, t: nat, sub: Subscriber)
    requires t < |st.subs| && sub.kind == st.subs[t].kind && sub.closed == st.subs[t].closed
    requires ListsOk(st)
    ensures ListsOk(st.(subs := st.subs[t := sub]))
    ensures LiveAreListed(st) && (!sub.stopped ==> !st.subs[t].stopped) ==> LiveAreListed(st.(subs := st.subs[t := sub]))
  {
    var st' := st.(subs := st.subs[t := sub]);
    if LiveAreListed(st) && (!sub.stopped ==> !st.subs[t].stopped) && !st.shutdown {
      forall s | 0 <= s < |st'.subs| && !st'.subs[s].stopped ensures Listed(st', s) {
        assert Listed(st, s);
      }
    }
  }

  lemma SameReader(st: State, st': State, q: nat)
    requires q < |st.producers| && q < |st'.producers| && st'.producers[q] == st.producers[q]
    requires st'.globals == st.globals && st'.tables == st.tables && ReaderOk(st, q)
    ensures ReaderOk(st', q)
  {
  }

  lemma SendReaders(st: State, p: nat)
    requires Invariant(st) && ProducerStep(st, Send(p)).Some?
    ensures ReadersOk(ProducerStep(st, Send(p)).value)
  {
    hide AllOwed;
    hide ListsOk;
    hide LiveAreListed;
    hide ReaderOk;
    var st' := ProducerStep(st, Send(p)).value;
    assert ReaderOk(st, p);
    AdvancedReader(st, p);
    forall q | 0 <= q < |st'.producers| ensures ReaderOk(st', q) {
      SameReader(if q == p then Advance(st, p) else st, st', q);
    }
  }

  lemma SendOk(st: State, p: nat)
    requires Invariant(st) && ProducerStep(st, Send(p)).Some?
    ensures Invariant(ProducerStep(st, Send(p)).value)
  {
    hide AllOwed;
    hide ListsOk;
    hide LiveAreListed;
    hide ReadersOk;
    var st' := ProducerStep(st, Send(p)).value;
    var t := Head(st, p);
    HeadOk(st, p);
    SendAllOwed(st, p);
    SendReaders(st, p);
    SameListing(st, t, st'.subs[t]);
    Relisted(st.(subs := st'.subs), st');
  }

  lemma Relisted(st: State, st': State)
    requires st'.subs == st.subs && st'.globals == st.globals && st'.tables == st.tables && st'.shutdown == st.shutdown
    ensures ListsOk(st) ==> ListsOk(st')
    ensures LiveAreListed(st) ==> LiveAreListed(st')
  {
    if LiveAreListed(st) && !st.shutdown {
      forall s | 0 <= s < |st'.subs| && !st'.subs[s].stopped ensures Listed(st', s) {
        assert Listed(st, s);
      }
    }
  }

  /** Passing over a target drops nothing that is still owed. */
  lemma SkipOk(st: State, p: nat)
    requires Invariant(st) && AtTarget(st, p) && (st.shutdown || st.subs[Head(st, p)].stopped)
    ensures Invariant(Advance(st, p))
  {
    var st' := Advance(st, p);
    HeadOk(st, p);
    AdvancedReader(st, p);
    forall q | 0 <= q < |st'.producers| ensures ReaderOk(st', q) {
      assert ReaderOk(st, q);
    }
    if !st.shutdown {
      forall s, q | 0 <= s < |st.subs| && 0 <= q < |st.producers|
        ensures Owed(st'.subs[s], s, st'.producers[q], q, st'.admitted[q])
      {
        assert Owed(st.subs[s], s, st.producers[q], q, st.admitted[q]);
      }
    }
  }

  /** A change of one producer's state that keeps what it owes. */
  lemma RelabelOk(st: State, p: nat, pc: Producer)
    requires Invariant(st) && p < |st.producers|
    requires ReaderOk(st.(producers := st.producers[p := pc]), p)
    requires forall s: nat :: Coming(pc, s) == Coming(st.producers[p], s)
    ensures Invariant(st.(producers := st.producers[p := pc]))
  {
    var st' := st.(producers := st.producers[p := pc]);
    forall q | 0 <= q < |st'.producers| ensures ReaderOk(st', q) {
      if q != p {
        assert ReaderOk(st, q);
      }
    }
    if !st.shutdown {
      forall s, q | 0 <= s < |st.subs| && 0 <= q < |st.producers|
        ensures Owed(st'.subs[s], s, st'.producers[q], q, st'.admitted[q])
      {
        assert Owed(st.subs[s], s, st.producers[q], q, st.admitted[q]);
      }
    }
  }

  lemma ProducerStepOk(st: State, step: Step)
    requires Invariant(st) && ProducerStep(st, step).Some?
    ensures Invariant(ProducerStep(st, step).value)
  {
    hide Invariant;
    match step
    case Call(p, e) =>
      if !(st.shutdown || (e.tableEvent && e.invalidJson)) {
        RelabelOk(st, p, Waiting(e));
      }
    case Acquire(p) => AcquireOk(st, p);
    case Send(p) => SendOk(st, p);
    case Block(p) =>
      assert ReaderOk(st, p) by {
        InvariantReader(st, p);
      }
      RelabelOk(st, p, st.producers[p].(blocked := true));
    case SkipStopped(p) => SkipOk(st, p);
    case SkipShutdown(p) => SkipOk(st, p);
    case Release(p) => RelabelOk(st, p, Idle);
  }

  lemma InvariantReader(st: State, p: nat)
    requires Invariant(st) && p < |st.producers|
    ensures ReaderOk(st, p)
  {
  }

  // Subscribers and shutdown

  lemma SubscriberOwed(st: State, t: nat, sub: Subscriber)
    requires Invariant(st) && t < |st.subs|
    requires sub.kind == st.subs[t].kind && sub.from == st.subs[t].from
    requires sub.stopped || (!st.subs[t].stopped && Received(sub) == Received(st.subs[t]))
    ensures AllOwed(st.(subs := st.subs[t := sub]))
  {
    hide ListsOk;
    hide ReadersOk;
    hide LiveAreListed;
    hide FromProducer;
    hide Applicable;
    var st' := st.(subs := st.subs[t := sub]);
    if !st.shutdown {
      forall s, q | 0 <= s < |st.subs| && 0 <= q < |st.producers|
        ensures Owed(st'.subs[s], s, st'.producers[q], q, st'.admitted[q])
      {
        assert Owed(st.subs[s], s, st.producers[q], q, st.admitted[q]);
      }
    }
  }

  /** A change of one subscriber that keeps its kind, its channel and what it
      is owed. */
  lemma SubscriberOk(st: State, t: nat, sub: Subscriber)
    requires Invariant(st) && t < |st.subs|
    requires sub.kind == st.subs[t].kind && sub.closed == st.subs[t].closed && sub.from == st.subs[t].from
    requires sub.stopped || (!st.subs[t].stopped && Received(sub) == Received(st.subs[t]))
    ensures Invariant(st.(subs := st.subs[t := sub]))
  {
    hide ListsOk;
    hide LiveAreListed;
    hide AllOwed;
    hide ReaderOk;
    SubscriberOwed(st, t, sub);
    SameListing(st, t, sub);
    var st' := st.(subs := st.subs[t := sub]);
    forall q | 0 <= q < |st'.producers| ensures ReaderOk(st', q) {
      SameReader(st, st', q);
    }
  }

  lemma IdleReaders(st: State, lists: State)
    requires Invariant(st) && st.NoReaders() && lists.producers == st.producers
    ensures forall q :: 0 <= q < |lists.producers| ==> ReaderOk(lists, q)
  {
    forall q | 0 <= q < |lists.producers| ensures ReaderOk(lists, q) {
      assert ReaderOk(st, q);
    }
  }

  lemma NewSubscriberOwed(st: State, kind: Kind, p: nat)
    requires |st.producers| == |st.admitted| && st.NoReaders() && p < |st.producers|
    ensures Owed(NewSubscriber(st, kind), |st.subs|, st.producers[p], p, st.admitted[p])
  {
    var sub := NewSubscriber(st, kind);
    assert st.admitted[p][sub.from[p]..] == [];
    assert Received(sub) == [];
    assert !st.producers[p].Delivering?;
  }

  lemma JoinedLists(st: State, kind: Kind)
    requires ListsOk(st)
    ensures var st' := st.(subs := st.subs + [NewSubscriber(st, kind)]);
      && (kind.Global? ==> ListsOk(st'.(globals := st.globals + [|st.subs|])))
      && (kind.Table? ==> ListsOk(st'.(tables := st.tables[kind.name := List(st, kind.name) + [|st.subs|]])))
  {
  }

  lemma SubscribeOk(st: State, kind: Kind)
    requires Invariant(st) && OtherStep(st, Subscribe(kind)).Some?
    ensures Invariant(OtherStep(st, Subscribe(kind)).value)
  {
    hide Owed;
    var st' := OtherStep(st, Subscribe(kind)).value;
    IdleReaders(st, st');
    JoinedLists(st, kind);
    if !st.shutdown {
      forall s, q | 0 <= s < |st'.subs| && 0 <= q < |st'.producers|
        ensures Owed(st'.subs[s], s, st'.producers[q], q, st'.admitted[q])
      {
        if s == |st.subs| {
          NewSubscriberOwed(st, kind, q);
        } else {
          assert Owed(st.subs[s], s, st.producers[q], q, st.admitted[q]);
        }
      }
      forall s | 0 <= s < |st'.subs| && !st'.subs[s].stopped ensures Listed(st', s) {
        if s < |st.subs| {
          assert Listed(st, s);
        }
      }
    }
  }

  lemma {:induction false} WithoutKeeps(ids: seq<nat>, s: nat)
    requires NoRepeats(ids)
    ensures forall x :: x in Without(ids, s) <==> x in ids && x != s
    ensures NoRepeats(Without(ids, s))
  {
    if ids == [] {
    } else {
      assert ids == [ids[0]] + ids[1..];
      WithoutKeeps(ids[1..], s);
      if ids[0] != s {
        var rest := Without(ids[1..], s);
        assert forall i :: 0 <= i < |rest| ==> rest[i] in rest;
        assert ids[0] !in rest by {
          assert forall i :: 0 <= i < |ids[1..]| ==> ids[1..][i] == ids[i + 1];
        }
      } else {
        assert forall i :: 0 <= i < |ids[1..]| ==> ids[1..][i] == ids[i + 1];
      }
    }
  }

  lemma WithoutListOk(subs: seq<Subscriber>, ids: seq<nat>, kind: Kind, s: nat)
    requires ListOk(subs, ids, kind)
    ensures ListOk(subs, Without(ids, s), kind)
  {
    WithoutKeeps(ids, s);
    var rest := Without(ids, s);
    forall i | 0 <= i < |rest| ensures rest[i] < |subs| && subs[rest[i]].kind == kind && !subs[rest[i]].closed {
      assert rest[i] in rest;
      var j :| 0 <= j < |ids| && ids[j] == rest[i];
    }
  }

  lemma RemoveGlobal(st: State, s: nat)
    requires ListsOk(st) && s < |st.subs| && st.subs[s].kind.Global?
    ensures ListsOk(RemoveFrom(st, s))
    ensures forall x :: 0 <= x < |st.subs| && x != s && Listed(st, x) ==> Listed(RemoveFrom(st, s), x)
  {
    hide Without;
    WithoutListOk(st.subs, st.globals, Global, s);
    WithoutKeeps(st.globals, s);
  }

  lemma RemoveTable(st: State, s: nat)
    requires ListsOk(st) && s < |st.subs| && st.subs[s].kind.Table?
    ensures ListsOk(RemoveFrom(st, s))
    ensures forall x :: 0 <= x < |st.subs| && x != s && Listed(st, x) ==> Listed(RemoveFrom(st, s), x)
  {
    hide Without;
    var kind := st.subs[s].kind;
    WithoutListOk(st.subs, List(st, kind.name), kind, s);
    WithoutKeeps(List(st, kind.name), s);
  }

  lemma RemoveLists(st: State, s: nat)
    requires ListsOk(st) && s < |st.subs|
    ensures ListsOk(RemoveFrom(st, s))
    ensures forall x :: 0 <= x < |st.subs| && x != s && Listed(st, x) ==> Listed(RemoveFrom(st, s), x)
  {
    if st.subs[s].kind.Global? {
      RemoveGlobal(st, s);
    } else {
      RemoveTable(st, s);
    }
  }

  lemma RemoveOk(st: State, s: nat)
    requires Invariant(st) && s < |st.subs| && st.subs[s].stopped && st.NoReaders()
    ensures Invariant(RemoveFrom(st, s))
  {
    hide Owed;
    var st' := RemoveFrom(st, s);
    IdleReaders(st, st');
    RemoveLists(st, s);
  }

  lemma OtherStepOk(st: State, step: Step)
    requires Invariant(st) && OtherStep(st, step).Some?
    ensures Invariant(OtherStep(st, step).value)
  {
    match step
    case Take(s) =>
      hide Invariant;
      var sub := st.subs[s];
      assert sub.taken + [sub.queue[0]] + sub.queue[1..] == Received(sub);
      SubscriberOk(st, s, sub.(queue := sub.queue[1..], taken := sub.taken + [sub.queue[0]]));
    case Subscribe(kind) => SubscribeOk(st, kind);
    case Stop(s) =>
      hide Invariant;
      SubscriberOk(st, s, st.subs[s].(stopped := true));
    case Remove(s) => RemoveOk(st, s);
    case BeginShutdown =>
      forall q | 0 <= q < |st.producers| ensures ReaderOk(OtherStep(st, step).value, q) {
        assert ReaderOk(st, q);
      }
    case FinishShutdown => IdleReaders(st, OtherStep(st, step).value);
  }

  lemma SameProducers(st: State, step: Step)
    requires Next(st, step).Some?
    ensures |Next(st, step).value.producers| == |st.producers|
  {
  }

  lemma {:induction false} RunOk(producerCount: nat, steps: seq<Step>)
    requires Run(producerCount, steps).Some?
    ensures Invariant(Run(producerCount, steps).value) && |Run(producerCount, steps).value.producers| == producerCount
  {
    hide Invariant;
    if steps == [] {
      InitOk(producerCount);
    } else {
      var front := steps[..|steps| - 1];
      RunOk(producerCount, front);
      var st, step := Run(producerCount, front).value, steps[|steps| - 1];
      SameProducers(st, step);
      hide ProducerStep, OtherStep;
      if ProducerStep(st, step).Some? {
        ProducerStepOk(st, step);
      } else {
        OtherStepOk(st, step);
      }
    }
  }

  lemma Append(producerCount: nat, steps: seq<Step>, step: Step)
    requires Run(producerCount, steps).Some?
    ensures Run(producerCount, steps + [step]) == Next(Run(producerCount, steps).value, step)
  {
    assert (steps + [step])[..|steps|] == steps;
  }

  lemma InitOk(producerCount: nat)
    ensures Invariant(Init(producerCount))
  {
  }

  // ---------------------------------------------------------------------------
  // Main results

  // What producers called with, told from the steps of a run alone

  /** The bus takes an event while no shutdown has begun, unless it is a row event
      whose data is not JSON. */
  ghost predicate IsTaken(before: seq<Step>, step: Step, p: nat) {
    step.Call? && step.p == p && BeginShutdown !in before && !(step.event.tableEvent && step.event.invalidJson)
  }

  /** The events of a producer's calls that the bus takes, in order. */
  ghost function Called(steps: seq<Step>, p: nat): seq<Event> {
    if steps == [] then []
    else
      var front, last := steps[..|steps| - 1], steps[|steps| - 1];
      Called(front, p) + if IsTaken(front, last, p) then [last.event] else []
  }

  /** The event a producer waits with, not yet let in by the lock. */
  ghost function InHand(pc: Producer): seq<Event> {
    if pc.Waiting? then [pc.event] else []
  }

  lemma StepShutsDown(st: State, step: Step)
    requires Next(st, step).Some?
    ensures Next(st, step).value.shutdown <==> st.shutdown || step == BeginShutdown
  {
  }

  lemma StepStops(st: State, step: Step, s: nat)
    requires Next(st, step).Some? && s < |Next(st, step).value.subs|
    ensures Next(st, step).value.subs[s].stopped <==> (s < |st.subs| && st.subs[s].stopped) || step == Stop(s)
  {
    hide Without, List, Listed, State.Targets, State.NoReaders;
  }

  /** A subscriber is stopped exactly by unsubscribing. */
  lemma {:induction false} StoppedIff(producerCount: nat, steps: seq<Step>, s: nat)
    requires Run(producerCount, steps).Some? && s < |Run(producerCount, steps).value.subs|
    ensures Run(producerCount, steps).value.subs[s].stopped <==> Stop(s) in steps
  {
    hide Next;
    if steps == [] {
    } else {
      var front, last := steps[..|steps| - 1], steps[|steps| - 1];
      StepStops(Run(producerCount, front).value, last, s);
      assert steps == front + [last];
      if s < |Run(producerCount, front).value.subs| {
        StoppedIff(producerCount, front, s);
      } else {
        NoStopBefore(producerCount, front, s);
      }
    }
  }

  lemma {:induction false} NoStopBefore(producerCount: nat, steps: seq<Step>, s: nat)
    requires Run(producerCount, steps).Some? && s >= |Run(producerCount, steps).value.subs|
    ensures Stop(s) !in steps
  {
    hide Next;
    if steps == [] {
    } else {
      var front, last := steps[..|steps| - 1], steps[|steps| - 1];
      StopNeedsASubscriber(Run(producerCount, front).value, last);
      NoStopBefore(producerCount, front, s);
      assert steps == front + [last];
    }
  }

  lemma StopNeedsASubscriber(st: State, step: Step)
    requires Next(st, step).Some?
    ensures |st.subs| <= |Next(st, step).value.subs| && (step.Stop? ==> step.s < |st.subs|)
  {
  }

  lemma StepCloses(st: State, step: Step)
    requires Next(st, step).Some? && (st.closing ==> st.shutdown)
    ensures Next(st, step).value.closing <==> (st.closing && step != FinishShutdown) || (step == BeginShutdown && !st.shutdown)
    ensures Next(st, step).value.closing ==> Next(st, step).value.shutdown
  {
  }

  /** The channels wait to be closed from the moment a shutdown begins until it is
      finished, and that happens at most once. */
  lemma {:induction false} ClosingIff(producerCount: nat, steps: seq<Step>)
    requires Run(producerCount, steps).Some?
    ensures var st := Run(producerCount, steps).value;
      && (st.closing <==> BeginShutdown in steps && FinishShutdown !in steps)
      && (FinishShutdown in steps ==> BeginShutdown in steps)
  {
    hide Next;
    if steps == [] {
    } else {
      var front, last := steps[..|steps| - 1], steps[|steps| - 1];
      ClosingIff(producerCount, front);
      ShutdownIsAStep(producerCount, front);
      StepCloses(Run(producerCount, front).value, last);
      FinishNeedsClosing(Run(producerCount, front).value);
      assert steps == front + [last];
    }
  }

  lemma FinishNeedsClosing(st: State)
    ensures Next(st, FinishShutdown).Some? ==> st.closing
  {
  }

  lemma {:induction false} ShutdownIsAStep(producerCount: nat, steps: seq<Step>)
    requires Run(producerCount, steps).Some?
    ensures Run(producerCount, steps).value.shutdown <==> BeginShutdown in steps
  {
    hide Next;
    if steps == [] {
    } else {
      var front, last := steps[..|steps| - 1], steps[|steps| - 1];
      ShutdownIsAStep(producerCount, front);
      StepShutsDown(Run(producerCount, front).value, last);
      assert steps == front + [last];
    }
  }

  lemma RemoveKeeps(st: State, step: Step)
    requires step.Remove? && step.s < |st.subs|
    ensures RemoveFrom(st, step.s).producers == st.producers && RemoveFrom(st, step.s).admitted == st.admitted
  {
  }

  /** One step adds to what a producer was let in or waits with exactly the event
      it calls with, if that is taken. */
  lemma StepTakes(st: State, step: Step, p: nat)
    requires p < |st.producers| == |st.admitted| && Next(st, step).Some?
    ensures var st' := Next(st, step).value;
      && |st'.producers| == |st'.admitted| == |st.producers|
      && st'.admitted[p] + InHand(st'.producers[p]) == st.admitted[p] + InHand(st.producers[p]) +
           if step.Call? && step.p == p && !st.shutdown && !(step.event.tableEvent && step.event.invalidJson) then [step.event] else []
  {
    hide NewSubscriber, RemoveFrom, CloseListed, State.Targets, State.NoReaders;
    var st' := Next(st, step).value;
    if step.Remove? {
      RemoveKeeps(st, step);
    }
    if step.Acquire? && step.p == p {
      assert st.admitted[p] + [st.producers[p].event] == st'.admitted[p];
    } else {
      assert st'.admitted[p] == st.admitted[p];
    }
  }

  /** Over every interleaving: what a producer was let in with, and the event it
      waits with, are exactly the events of its calls that the bus takes, in the
      order of the calls. */
  lemma {:induction false} EveryCallIsTaken(producerCount: nat, steps: seq<Step>, p: nat)
    requires Run(producerCount, steps).Some? && p < producerCount
    ensures var st := Run(producerCount, steps).value;
      && |st.producers| == |st.admitted| == producerCount
      && st.admitted[p] + InHand(st.producers[p]) == Called(steps, p)
  {
    hide Next;
    if steps == [] {
    } else {
      var front, last := steps[..|steps| - 1], steps[|steps| - 1];
      EveryCallIsTaken(producerCount, front, p);
      ShutdownIsAStep(producerCount, front);
      StepTakes(Run(producerCount, front).value, last, p);
    }
  }

  /** A producer that is idle can call with any event of its own, and one that
      waits gets the lock; joining and removing wait for the readers only. */
  lemma NothingElseIsAskedFor(st: State, p: nat, e: Event, s: nat, kind: Kind)
    requires p < |st.producers| == |st.admitted| && e.producer == p
    ensures st.producers[p].Idle? ==> Next(st, Call(p, e)).Some?
    ensures st.producers[p].Waiting? ==> Next(st, Acquire(p)).Some?
    ensures st.NoReaders() ==> Next(st, Subscribe(kind)).Some?
    ensures s < |st.subs| ==> Next(st, Stop(s)).Some?
    ensures s < |st.subs| && st.subs[s].queue != [] ==> Next(st, Take(s)).Some?
    ensures s < |st.subs| && st.subs[s].stopped && st.NoReaders() ==> Next(st, Remove(s)).Some?
    ensures Next(st, BeginShutdown).Some? && (st.closing && st.NoReaders() ==> Next(st, FinishShutdown).Some?)
  {
  }

  // When a subscriber joined

  lemma SubscribersStay(st: State, step: Step, s: nat)
    requires Next(st, step).Some? && s < |Next(st, step).value.subs|
    ensures var sub := Next(st, step).value.subs[s];
      if s < |st.subs| then sub.kind == st.subs[s].kind && sub.from == st.subs[s].from
      else step.Subscribe? && s == |st.subs| && sub == NewSubscriber(st, step.kind)
  {
    hide NewSubscriber, Without, List, Listed, State.Targets, State.NoReaders;
  }

  /** A subscriber joined at some step of the run, by subscribing as the kind it
      is, after exactly the events each producer had been let in with by then. */
  lemma {:induction false} JoinedAt(producerCount: nat, steps: seq<Step>, s: nat) returns (k: nat)
    requires Run(producerCount, steps).Some? && s < |Run(producerCount, steps).value.subs|
    ensures k < |steps| && Run(producerCount, steps[..k]).Some?
    ensures var st, sub := Run(producerCount, steps[..k]).value, Run(producerCount, steps).value.subs[s];
      && steps[k] == Subscribe(sub.kind) && |st.subs| == s && |sub.from| == |st.admitted|
      && forall p :: 0 <= p < |st.admitted| ==> sub.from[p] == |st.admitted[p]|
    decreases |steps|
  {
    hide Next;
    assert steps != [];
    var n := |steps| - 1;
    var front, last := steps[..n], steps[n];
    var st := Run(producerCount, front).value;
    SubscribersStay(st, last, s);
    if s < |st.subs| {
      k := JoinedAt(producerCount, front, s);
      assert front[..k] == steps[..k];
    } else {
      k := n;
    }
  }

  /** How many of a producer's calls came too early for who joins now. */
  ghost function LetIn(producerCount: nat, steps: seq<Step>, p: nat): nat
    requires Run(producerCount, steps).Some? && p < |Run(producerCount, steps).value.admitted|
  {
    |Run(producerCount, steps).value.admitted[p]|
  }

  /** Over every interleaving, while it is neither stopped nor shut down, a
      subscriber has received of each producer exactly the events it called with
      that the bus takes, that concern the subscriber and that were let in after
      it joined: in the order of the calls, none missing, none twice; save the
      one event the producer is still about to send it, in the middle of a
      delivery, and one it still waits with. */
  lemma NothingIsDropped(producerCount: nat, steps: seq<Step>, s: nat, p: nat) returns (k: nat)
    requires Run(producerCount, steps).Some? && p < producerCount
    requires var st := Run(producerCount, steps).value; s < |st.subs| && !st.shutdown && !st.subs[s].stopped
    ensures k < |steps| && Run(producerCount, steps[..k]).Some? && p < |Run(producerCount, steps[..k]).value.admitted|
    ensures p < |Run(producerCount, steps).value.producers|
    ensures var st := Run(producerCount, steps).value;
      var calls, early, waits := Called(steps, p), LetIn(producerCount, steps[..k], p), InHand(st.producers[p]);
      && steps[k] == Subscribe(st.subs[s].kind) && early + |waits| <= |calls| && calls[|calls| - |waits|..] == waits
      && FromProducer(p, st.subs[s].taken + st.subs[s].queue) + Coming(st.producers[p], s)
         == Applicable(st.subs[s].kind, calls[early..|calls| - |waits|])
      && (!st.producers[p].Delivering? ==> Coming(st.producers[p], s) == [])
  {
    RunOk(producerCount, steps);
    var st := Run(producerCount, steps).value;
    k := JoinedAt(producerCount, steps, s);
    EveryCallIsTaken(producerCount, steps, p);
    EveryCallIsTaken(producerCount, steps[..k], p);
    assert Owed(st.subs[s], s, st.producers[p], p, st.admitted[p]);
    hide Run, Called, FromProducer, Applicable, Invariant;
    var calls, waits := Called(steps, p), InHand(st.producers[p]);
    assert calls[..|calls| - |waits|] == st.admitted[p];
    assert calls[st.subs[s].from[p]..|calls| - |waits|] == st.admitted[p][st.subs[s].from[p]..];
  }

  lemma RemovedIsUnlisted(st: State, s: nat)
    requires ListsOk(st) && s < |st.subs|
    ensures forall x :: 0 <= x < |st.subs| ==> (Listed(RemoveFrom(st, s), x) <==> Listed(st, x) && x != s)
  {
    hide Without;
    if st.subs[s].kind.Global? {
      WithoutKeeps(st.globals, s);
    } else {
      WithoutKeeps(List(st, st.subs[s].kind.name), s);
    }
    forall x | 0 <= x < |st.subs| ensures Listed(RemoveFrom(st, s), x) <==> Listed(st, x) && x != s {
    }
  }

  lemma NoEmptyEntry(st: State, s: nat)
    requires s < |st.subs|
    ensures var tables := RemoveFrom(st, s).tables;
      forall name :: name in tables ==> name in st.tables && (st.tables[name] != [] ==> tables[name] != [])
  {
  }

  /** A removed subscriber, and only it, is no longer listed; so nothing is sent to
      it any more. A table nobody is subscribed to has no entry. */
  lemma RemovedIsGone(st: State, s: nat)
    requires Invariant(st) && s < |st.subs| && Next(st, Remove(s)).Some?
    ensures var st' := Next(st, Remove(s)).value;
      && st'.subs == st.subs
      && (forall x :: 0 <= x < |st.subs| ==> (Listed(st', x) <==> Listed(st, x) && x != s))
      && (forall e :: s !in st'.Targets(e))
      && (forall name :: name in st'.tables ==> name in st.tables && (st.tables[name] != [] ==> st'.tables[name] != []))
  {
    assert Next(st, Remove(s)) == Some(RemoveFrom(st, s));
    RemoveLists(st, s);
    RemovedIsUnlisted(st, s);
    NoEmptyEntry(st, s);
    var st' := RemoveFrom(st, s);
    assert st'.subs == st.subs;
    hide Invariant, RemoveFrom, Listed, Next, ListsOk, State.Targets;
    forall e ensures s !in st'.Targets(e) {
      var ts := st'.Targets(e);
      if i :| 0 <= i < |ts| && ts[i] == s {
        TargetIsListed(st', e, i);
      }
    }
  }

  lemma TargetIsListed(st: State, e: Event, i: nat)
    requires ListsOk(st) && i < |st.Targets(e)| && st.Targets(e)[i] < |st.subs|
    ensures Listed(st, st.Targets(e)[i])
  {
    if i < |st.globals| {
      assert st.Targets(e)[i] == st.globals[i];
    } else {
      assert st.Targets(e)[i] == st.tables[e.table][i - |st.globals|];
    }
  }

  /** No send ever hits a closed channel. */
  lemma NoSendOnAClosedChannel(producerCount: nat, steps: seq<Step>, p: nat)
    requires Run(producerCount, steps).Some?
    ensures var st := Run(producerCount, steps).value;
      !st.panicked && (Next(st, Send(p)).Some? ==> AtTarget(st, p) && !st.subs[Head(st, p)].closed)
  {
    RunOk(producerCount, steps);
    var st := Run(producerCount, steps).value;
    if Next(st, Send(p)).Some? {
      HeadOk(st, p);
    }
  }

  /** Shutting down closes every listed channel and leaves the others, empties the
      lists, and happens once. */
  lemma ShutdownClosesAll(st: State)
    requires Invariant(st) && Next(st, FinishShutdown).Some?
    ensures var st' := Next(st, FinishShutdown).value;
      && |st'.subs| == |st.subs|
      && (forall s :: 0 <= s < |st.subs| ==> st'.subs[s] == if Listed(st, s) then st.subs[s].(closed := true) else st.subs[s])
      && (forall s :: 0 <= s < |st.subs| ==> !Listed(st', s)) && (forall e :: st'.Targets(e) == [])
      && Next(st', FinishShutdown).None? && Next(Next(st', BeginShutdown).value, FinishShutdown).None?
  {
    hide ListsOk, ReadersOk, LiveAreListed, AllOwed;
  }

  lemma TakeMoves(st: State, s: nat)
    requires s < |st.subs| && st.subs[s].queue != []
    ensures Next(st, Take(s)).Some? && s < |Next(st, Take(s)).value.subs|
    ensures var sub := Next(st, Take(s)).value.subs[s];
      sub.queue == st.subs[s].queue[1..] && sub.taken == st.subs[s].taken + [st.subs[s].queue[0]]
  {
  }

  lemma OneTake(producerCount: nat, steps: seq<Step>, s: nat)
    requires Run(producerCount, steps).Some?
    requires s < |Run(producerCount, steps).value.subs| && Run(producerCount, steps).value.subs[s].queue != []
    ensures Run(producerCount, steps + [Take(s)]).Some?
    ensures var sub, st' := Run(producerCount, steps).value.subs[s], Run(producerCount, steps + [Take(s)]).value;
      s < |st'.subs| && st'.subs[s].queue == sub.queue[1..] && Received(st'.subs[s]) == Received(sub)
  {
    hide Run, Next;
    Append(producerCount, steps, Take(s));
    var sub := Run(producerCount, steps).value.subs[s];
    TakeMoves(Run(producerCount, steps).value, s);
    assert sub.taken + [sub.queue[0]] + sub.queue[1..] == Received(sub);
  }

  /** From any point of any run a subscriber gets everything its channel holds, in
      order, by reading on. */
  lemma {:induction false} ReadingOnGetsAll(producerCount: nat, steps: seq<Step>, s: nat) returns (rest: seq<Step>)
    requires Run(producerCount, steps).Some? && s < |Run(producerCount, steps).value.subs|
    ensures |rest| == |Run(producerCount, steps).value.subs[s].queue| && forall k :: 0 <= k < |rest| ==> rest[k] == Take(s)
    ensures Run(producerCount, steps + rest).Some? && s < |Run(producerCount, steps + rest).value.subs|
    ensures Run(producerCount, steps + rest).value.subs[s].taken == Received(Run(producerCount, steps).value.subs[s])
    decreases |Run(producerCount, steps).value.subs[s].queue|
  {
    hide Run;
    var sub := Run(producerCount, steps).value.subs[s];
    if sub.queue == [] {
      rest := [];
      assert steps + rest == steps;
      assert Received(sub) == sub.taken;
    } else {
      OneTake(producerCount, steps, s);
      hide Received;
      var more := ReadingOnGetsAll(producerCount, steps + [Take(s)], s);
      rest := [Take(s)] + more;
      assert steps + rest == steps + [Take(s)] + more;
    }
  }

  ghost predicate WithinBounds(st: State) {
    forall s :: 0 <= s < |st.subs| ==> |st.subs[s].queue| <= 100000
  }

  lemma StepWithinBounds(st: State, step: Step)
    requires WithinBounds(st) && Next(st, step).Some?
    ensures WithinBounds(Next(st, step).value)
  {
  }

  /** A channel never holds more than its 100000 events. */
  lemma {:induction false} ChannelsAreBounded(producerCount: nat, steps: seq<Step>)
    requires Run(producerCount, steps).Some?
    ensures WithinBounds(Run(producerCount, steps).value)
  {
    hide Next;
    if steps == [] {
    } else {
      var front := steps[..|steps| - 1];
      ChannelsAreBounded(producerCount, front);
      StepWithinBounds(Run(producerCount, front).value, steps[|steps| - 1]);
    }
  }

  /** A producer counts as blocked at a subscriber only from the moment it found
      that one's channel full: at every subscriber it first tries to send. */
  lemma BlockedByAFullChannel(st: State, step: Step, p: nat)
    requires p < |st.producers| && Next(st, step).Some? && p < |Next(st, step).value.producers|
    requires var pc := Next(st, step).value.producers[p]; pc.Delivering? && pc.blocked && pc != st.producers[p]
    ensures step == Block(p) && AtTarget(st, p) && |st.subs[Head(st, p)].queue| >= 100000
  {
  }

  /** Steps a producer still has to take before it lets go of the lock. */
  function StepsLeft(pc: Producer): nat {
    if pc.Delivering? then 2 * |pc.targets| + (if pc.blocked then 0 else 1) + 1 else 0
  }

  predicate TakenBy(step: Step, p: nat) {
    match step
    case Call(q, _) => q == p
    case Acquire(q) => q == p
    case Send(q) => q == p
    case Block(q) => q == p
    case SkipStopped(q) => q == p
    case SkipShutdown(q) => q == p
    case Release(q) => q == p
    case _ => false
  }

  lemma OwnStepsCountDown(st: State, step: Step, p: nat)
    requires p < |st.producers| && st.producers[p].Delivering? && TakenBy(step, p) && ProducerStep(st, step).Some?
    ensures var st' := ProducerStep(st, step).value;
      && |st'.producers| == |st.producers| && StepsLeft(st'.producers[p]) < StepsLeft(st.producers[p])
  {
  }

  lemma OthersLeaveItAlone(st: State, step: Step, p: nat)
    requires p < |st.producers| && !TakenBy(step, p) && Next(st, step).Some?
    ensures var st' := Next(st, step).value;
      |st'.producers| == |st.producers| && st'.producers[p] == st.producers[p]
  {
  }

  lemma ReleaseCausesStay(st: State, step: Step)
    requires Next(st, step).Some?
    ensures var st' := Next(st, step).value;
      && |st.subs| <= |st'.subs| && (st.shutdown ==> st'.shutdown)
      && (forall s :: 0 <= s < |st.subs| && st.subs[s].stopped ==> st'.subs[s].stopped)
  {
  }

  /** Every step of a delivering producer brings it closer to releasing the
      lock; no one else's step sets it back, revives a stopped subscriber or
      undoes a shutdown. */
  lemma ProgressIsKept(st: State, step: Step, p: nat)
    requires p < |st.producers| && st.producers[p].Delivering? && Next(st, step).Some?
    ensures var st' := Next(st, step).value;
      && |st'.producers| == |st.producers| && |st.subs| <= |st'.subs|
      && (TakenBy(step, p) ==> StepsLeft(st'.producers[p]) < StepsLeft(st.producers[p]))
      && (!TakenBy(step, p) ==> st'.producers[p] == st.producers[p])
      && (st.shutdown ==> st'.shutdown)
      && (forall s :: 0 <= s < |st.subs| && st.subs[s].stopped ==> st'.subs[s].stopped)
  {
    ReleaseCausesStay(st, step);
    if TakenBy(step, p) {
      OwnStepsCountDown(st, step, p);
    } else {
      OthersLeaveItAlone(st, step, p);
    }
  }

  /** A producer is never stuck at a subscriber that was stopped, nor at any
      once a shutdown began: some step of its own is possible. */
  lemma NeverStuck(st: State, p: nat) returns (step: Step)
    requires Invariant(st) && p < |st.producers| && st.producers[p].Delivering?
    requires var ts := st.producers[p].targets;
      ts != [] ==> st.shutdown || (ts[0] < |st.subs| && (st.subs[ts[0]].stopped || |st.subs[ts[0]].queue| < CAPACITY))
    ensures TakenBy(step, p) && Next(st, step).Some?
  {
    if st.producers[p].targets == [] {
      return Release(p);
    }
    HeadOk(st, p);
    if |st.subs[Head(st, p)].queue| < CAPACITY {
      step := Send(p);
    } else if !st.producers[p].blocked {
      step := Block(p);
    } else if st.shutdown {
      step := SkipShutdown(p);
    } else {
      step := SkipStopped(p);
    }
  }

  /** Nothing is left that could keep the producer waiting: a shutdown began, or
      everyone it still has to reach was stopped. */
  predicate Freed(st: State, p: nat) {
    && p < |st.producers| && st.producers[p].Delivering?
    && (st.shutdown || forall t <- st.producers[p].targets :: t < |st.subs| && st.subs[t].stopped)
  }

  lemma FreedStays(st: State, step: Step, p: nat)
    requires Freed(st, p) && TakenBy(step, p) && Next(st, step).Some?
    requires Next(st, step).value.producers[p].Delivering?
    ensures Freed(Next(st, step).value, p)
  {
    ReleaseCausesStay(st, step);
    OwnStepsCountDown(st, step, p);
    var st' := Next(st, step).value;
    var ts, ts' := st.producers[p].targets, st'.producers[p].targets;
    assert ts' == ts || (ts != [] && ts' == ts[1..]);
    forall t <- ts' ensures st'.shutdown || (t < |st'.subs| && st'.subs[t].stopped) {
      assert t in ts;
    }
  }

  lemma FreedMoves(st: State, p: nat) returns (step: Step)
    requires Invariant(st) && Freed(st, p)
    ensures TakenBy(step, p) && Next(st, step).Some?
    ensures var st' := Next(st, step).value;
      && |st'.producers| == |st.producers| && StepsLeft(st'.producers[p]) < StepsLeft(st.producers[p])
      && (st'.producers[p].Delivering? ==> Freed(st', p))
  {
    hide Invariant, Next;
    assert st.producers[p].targets != [] ==> st.producers[p].targets[0] in st.producers[p].targets;
    step := NeverStuck(st, p);
    ProgressIsKept(st, step, p);
    if Next(st, step).value.producers[p].Delivering? { FreedStays(st, step, p); }
  }

  /** From any point of any run after shutdown began, or once all it still has
      to reach were stopped, a delivering producer gets out and releases the
      lock by its own steps alone, in a bounded number of them. */
  lemma {:induction false} LockIsReleased(producerCount: nat, steps: seq<Step>, p: nat) returns (rest: seq<Step>)
    requires Run(producerCount, steps).Some?
    requires p < |Run(producerCount, steps).value.producers| && Freed(Run(producerCount, steps).value, p)
    ensures |rest| <= StepsLeft(Run(producerCount, steps).value.producers[p])
    ensures forall k :: 0 <= k < |rest| ==> TakenBy(rest[k], p)
    ensures Run(producerCount, steps + rest).Some?
    ensures var st' := Run(producerCount, steps + rest).value; p < |st'.producers| && !st'.producers[p].Delivering?
    decreases StepsLeft(Run(producerCount, steps).value.producers[p])
  {
    hide Invariant, Next, Init, Freed, StepsLeft;
    var st := Run(producerCount, steps).value;
    RunOk(producerCount, steps);
    var step := FreedMoves(st, p);
    Append(producerCount, steps, step);
    var st' := Run(producerCount, steps + [step]).value;
    if st'.producers[p].Delivering? {
      var more := LockIsReleased(producerCount, steps + [step], p);
      rest := [step] + more;
      assert steps + rest == steps + [step] + more;
    } else {
      rest := [step];
    }
  }
}
