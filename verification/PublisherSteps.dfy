/** What the publisher does with one event is a sequence of the protocols' own
    steps: each attempt is one, and the protocol ends where the publisher does. */
module PublisherSteps {
  import opened Ladder
  import opened Streams
  import P = PgDelivery
  import PR = PgOversize
  import M = MySqlDelivery
  import MR = MySqlOversize
  import Cdc
  import Pub = Publisher
  import SourceIds

  // ---------------------------------------------------------------------------
  // Postgres

  function PgSteps(act: Act): seq<P.Step> {
    match act
    case Refused => [P.TooLarge]
    case Stored(acked) => [P.Publish(true, acked)]
    case Ended => [P.EndContext, P.GiveUp]
    case Closed => [P.StopPublisher]
  }

  function PgStepsOf(acts: seq<Act>): seq<P.Step> {
    if acts == [] then [] else PgStepsOf(acts[..|acts| - 1]) + PgSteps(acts[|acts| - 1])
  }

  /** The process and the stream once the head of the bus got this far. */
  function PgProcess(p: P.Process, rung: Rung): P.Process
    requires p.bus != [] && p.bus[0].Own?
  {
    match rung
    case At(form) => p.(form := form)
    case Acked => P.Dequeue(p).(gate := p.gate.Observe(p.bus[0].sequence))
    case GivenUp => P.Dequeue(p)
    case ContextEnded => P.Dequeue(p).(ended := true)
    case Stopped => p.(running := false, bus := [], form := Full)
  }

  function PgState(s: P.State, c: Climb): P.State
    requires s.process.bus != [] && s.process.bus[0].Own?
  {
    var e := s.process.bus[0];
    s.(process := PgProcess(s.process, c.rung),
       stream := if c.stored.None? then s.stream else Store(s.stream, Message(e.id, P.Payload(e.change, c.stored.value)), true))
  }

  /** The publisher is about to start on one of the watcher's events. */
  predicate PgStarting(p: P.Process) {
    p.running && !p.ended && p.form == Full && p.bus != [] && p.bus[0].Own?
  }

  lemma StoreTwice<T>(stream: seq<Message<T>>, m: Message<T>)
    ensures Store(Store(stream, m, true), m, true) == Store(stream, m, true)
  {
    if m.id !in Ids(stream) {
      assert m in stream + [m];
    }
  }

  lemma PgActIsStep(env: P.Env, s: P.State, c: Climb, act: Act)
    requires PgStarting(s.process) && Act1(s.process.bus[0].change.fits, c, act).Some? && !act.Ended?
    requires c.stored == None || (c.rung.At? && c.stored == Some(c.rung.form))
    ensures P.Next(env, PgState(s, c), PgSteps(act)[0]) == Some(PgState(s, Act1(s.process.bus[0].change.fits, c, act).value))
  {
    var e := s.process.bus[0];
    StoreTwice(s.stream, Message(e.id, P.Payload(e.change, c.rung.form)));
    hide Store;
  }

  /** Only the form at hand was stored while the event is still at it. */
  lemma {:induction false} StoredHere(fits: set<Form>, acts: seq<Act>)
    requires Follow(fits, acts).Some? && Follow(fits, acts).value.rung.At?
    ensures var c := Follow(fits, acts).value; c.stored == None || c.stored == Some(c.rung.form)
  {
    if acts == [] {
    } else {
      StoredHere(fits, acts[..|acts| - 1]);
    }
  }

  lemma PgEnds(env: P.Env, steps: seq<P.Step>, s: P.State, c: Climb)
    requires PgStarting(s.process) && c.rung.At? && P.Run(env, steps) == Some(PgState(s, c))
    ensures P.Run(env, steps + PgSteps(Ended)) == Some(PgState(s, c.(rung := ContextEnded)))
  {
    hide P.Run, Store;
    PR.Append(env, steps, P.EndContext);
    PR.Append(env, steps + [P.EndContext], P.GiveUp);
    assert steps + PgSteps(Ended) == steps + [P.EndContext] + [P.GiveUp];
  }

  /** One Deliver in the Postgres protocol: from the event at the head of the bus,
      the attempts are steps of the protocol, and they leave process and stream
      where the publisher leaves them. */
  lemma {:induction false} PgDeliverIsSteps(env: P.Env, steps: seq<P.Step>, s: P.State, acts: seq<Act>)
    requires P.Run(env, steps) == Some(s) && PgStarting(s.process)
    requires Follow(s.process.bus[0].change.fits, acts).Some?
    ensures P.Run(env, steps + PgStepsOf(acts)) == Some(PgState(s, Follow(s.process.bus[0].change.fits, acts).value))
    decreases |acts|
  {
    hide P.Run, P.Next, PgState;
    var fits := s.process.bus[0].change.fits;
    if acts == [] {
      assert steps + [] == steps;
      PgAtStart(s);
    } else {
      var front, act := acts[..|acts| - 1], acts[|acts| - 1];
      PgDeliverIsSteps(env, steps, s, front);
      var here := steps + PgStepsOf(front);
      var c := Follow(fits, front).value;
      assert steps + PgStepsOf(acts) == here + PgSteps(act);
      if act.Ended? {
        PgEnds(env, here, s, c);
      } else {
        StoredHere(fits, front);
        PgActIsStep(env, s, c, act);
        PR.Append(env, here, PgSteps(act)[0]);
        assert PgSteps(act) == [PgSteps(act)[0]];
      }
    }
  }

  lemma PgAtStart(s: P.State)
    requires PgStarting(s.process)
    ensures PgState(s, START) == s
  {
  }

  // ---------------------------------------------------------------------------
  // The same messages

  /** Two streams hold messages under the same ids, one by one. */
  ghost predicate SameIds<A, B>(a: seq<Message<A>>, b: seq<Message<B>>) {
    |a| == |b| && forall k :: 0 <= k < |a| ==> a[k].id == b[k].id
  }

  lemma SameIdSets<A, B>(a: seq<Message<A>>, b: seq<Message<B>>)
    requires SameIds(a, b)
    ensures Ids(a) == Ids(b)
  {
    forall id ensures id in Ids(a) <==> id in Ids(b) {
      if id in Ids(a) {
        var k :| 0 <= k < |a| && a[k].id == id;
        assert b[k] in b;
      }
      if id in Ids(b) {
        var k :| 0 <= k < |b| && b[k].id == id;
        assert a[k] in a;
      }
    }
  }

  lemma StoreSameIds<A, B>(a: seq<Message<A>>, b: seq<Message<B>>, m: Message<A>, n: Message<B>)
    requires SameIds(a, b) && m.id == n.id
    ensures SameIds(Store(a, m, true), Store(b, n, true))
  {
    SameIdSets(a, b);
    hide Ids;
  }

  /** The id the Postgres listener puts on the bus with a change is the one the
      publisher stores its event under, whatever fresh id it draws. */
  lemma PgIdIsTheMessageId(env: P.Env, p: P.Process, change: P.Change, e: Cdc.Event, unique: string)
    requires p.running && change.accepted && e.sourceId == SourceIds.Print(SourceIds.PgChange(p.txnLsn, p.txnIndex))
    ensures var bus := P.Emit(env, p, change).bus;
      |bus| == |p.bus| + 1 && bus[|p.bus|].Own? && bus[|p.bus|].id == Pub.MessageIdOf(env.prefix, e, unique)
  {
    Pub.StoredUnderItsPlace(env.prefix, e, unique);
    hide SourceIds.Print;
  }

  lemma MySqlIdIsTheMessageId(env: M.Env, id: SourceIds.SourceId, e: Cdc.Event, unique: string)
    requires e.sourceId == SourceIds.Print(id)
    ensures M.MessageOf(env, id).id == Pub.MessageIdOf(env.prefix, e, unique)
  {
    Pub.StoredUnderItsPlace(env.prefix, e, unique);
    hide SourceIds.Print;
  }

  /** The publisher's stream and the Postgres protocol's hold the same ids, and do
      so after every delivery of the event at the head of the bus. */
  lemma PgStreamsAgree(env: P.Env, steps: seq<P.Step>, s: P.State, acts: seq<Act>, fits: Cdc.Event -> bool,
                       e: Cdc.Event, x: SourceIds.SourceId, unique: string,
                       before: seq<Message<Cdc.Event>>, after: seq<Message<Cdc.Event>>)
    requires P.Run(env, steps) == Some(s) && PgStarting(s.process)
    requires s.process.bus[0].id == env.prefix + "/" + SourceIds.Print(x) && e.sourceId == SourceIds.Print(x)
    requires s.process.bus[0].change.fits == Pub.FormsThatFit(fits, e) && Follow(Pub.FormsThatFit(fits, e), acts).Some?
    requires SameIds(before, s.stream)
    requires Pub.StreamAfter(before, after, Pub.MessageIdOf(env.prefix, e, unique), e, Follow(Pub.FormsThatFit(fits, e), acts).value.stored)
    ensures P.Run(env, steps + PgStepsOf(acts)).Some? && SameIds(after, P.Run(env, steps + PgStepsOf(acts)).value.stream)
  {
    Pub.StoredUnderItsPlace(env.prefix, e, unique);
    PgDeliverIsSteps(env, steps, s, acts);
    hide P.Run, SourceIds.Print, Pub.FormsThatFit, Follow, Store, SameIds, Pub.MessageIdOf;
    var c := Follow(Pub.FormsThatFit(fits, e), acts).value;
    if c.stored.Some? {
      var head := s.process.bus[0];
      StoreSameIds(before, s.stream, Message(head.id, Pub.FormOf(e, c.stored.value)), Message(head.id, P.Payload(head.change, c.stored.value)));
    }
  }

  // ---------------------------------------------------------------------------
  // MySQL

  /** Its protocol knows one form only: the longer ones being refused shows in
      nothing but the last. */
  function MySqlSteps(rung: Rung, act: Act): seq<M.Step> {
    match act
    case Refused => if rung == At(Stripped) then [M.SkipOversized] else []
    case Stored(acked) => [M.Publish(true, acked)]
    case Ended => [M.EndContext, M.GiveUp]
    case Closed => [M.StopPublisher]
  }

  function MySqlStepsOf(fits: set<Form>, acts: seq<Act>): seq<M.Step> {
    if acts == [] then []
    else
      var front := acts[..|acts| - 1];
      MySqlStepsOf(fits, front) + if Follow(fits, front).None? then [] else MySqlSteps(Follow(fits, front).value.rung, acts[|acts| - 1])
  }

  function MySqlProcess(p: M.Process, rung: Rung): M.Process
    requires p.bus != []
  {
    match rung
    case At(_) => p
    case Acked => p.(bus := p.bus[1..], gate := p.gate.Observe())
    case GivenUp => p.(bus := p.bus[1..])
    case ContextEnded => p.(bus := p.bus[1..], ended := true)
    case Stopped => p.(running := false, bus := [])
  }

  function MySqlState(env: M.Env, s: M.State, p: M.Process, c: Climb): M.State
    requires p.bus != [] && p.bus[0].Own?
  {
    s.(process := Some(MySqlProcess(p, c.rung)),
       stream := if c.stored.None? then s.stream else Store(s.stream, M.MessageOf(env, p.bus[0].id), true))
  }

  predicate MySqlStarting(p: M.Process) {
    p.running && !p.ended && p.bus != [] && p.bus[0].Own?
  }

  lemma MySqlActIsStep(env: M.Env, s: M.State, p: M.Process, fits: set<Form>, c: Climb, act: Act)
    requires env.Valid() && MySqlStarting(p) && s.process == Some(p) && Act1(fits, c, act).Some? && !act.Ended?
    requires env.Fits(p.bus[0].id) <==> fits != {}
    requires act.Refused? && c.rung == At(Stripped) ==> fits == {}
    ensures var next, steps := MySqlState(env, s, p, Act1(fits, c, act).value), MySqlSteps(c.rung, act);
      if steps == [] then MySqlState(env, s, p, c) == next
      else |steps| == 1 && M.Next(env, MySqlState(env, s, p, c), steps[0]) == Some(next)
  {
    StoreTwice(s.stream, M.MessageOf(env, p.bus[0].id));
    hide Store;
  }

  lemma MySqlEnds(env: M.Env, steps: seq<M.Step>, s: M.State, p: M.Process, c: Climb)
    requires env.Valid() && MySqlStarting(p) && c.rung.At? && M.Run(env, steps) == Some(MySqlState(env, s, p, c))
    ensures M.Run(env, steps + [M.EndContext, M.GiveUp]) == Some(MySqlState(env, s, p, c.(rung := ContextEnded)))
  {
    hide M.Run, Store;
    MR.Append(env, steps, M.EndContext);
    MR.Append(env, steps + [M.EndContext], M.GiveUp);
    assert steps + [M.EndContext, M.GiveUp] == steps + [M.EndContext] + [M.GiveUp];
  }

  /** One Deliver in the MySQL protocol, for an event that fits in some form or in
      none, as the protocol's environment says. */
  lemma {:induction false} MySqlDeliverIsSteps(env: M.Env, steps: seq<M.Step>, s: M.State, p: M.Process, fits: set<Form>, acts: seq<Act>)
    requires env.Valid() && M.Run(env, steps) == Some(s) && s.process == Some(p) && MySqlStarting(p)
    requires env.Fits(p.bus[0].id) <==> fits != {}
    requires Follow(fits, acts).Some?
    ensures M.Run(env, steps + MySqlStepsOf(fits, acts)) == Some(MySqlState(env, s, p, Follow(fits, acts).value))
    decreases |acts|
  {
    hide M.Run, M.Next, MySqlState, MySqlSteps;
    if acts == [] {
      assert steps + [] == steps;
      MySqlAtStart(env, s, p);
    } else {
      var front, act := acts[..|acts| - 1], acts[|acts| - 1];
      MySqlDeliverIsSteps(env, steps, s, p, fits, front);
      var here := steps + MySqlStepsOf(fits, front);
      var c := Follow(fits, front).value;
      var made := MySqlSteps(c.rung, act);
      assert steps + MySqlStepsOf(fits, acts) == here + made;
      if act.Ended? {
        MySqlEnds(env, here, s, p, c);
        assert made == [M.EndContext, M.GiveUp] by { MySqlEndSteps(c.rung); }
      } else {
        OneFormAtMost(fits, acts);
        MySqlActIsStep(env, s, p, fits, c, act);
        if made == [] {
          assert here + made == here;
        } else {
          MR.Append(env, here, made[0]);
          assert made == [made[0]];
        }
      }
    }
  }

  /** And so do the publisher's and the MySQL protocol's. */
  lemma MySqlStreamsAgree(env: M.Env, steps: seq<M.Step>, s: M.State, p: M.Process, acts: seq<Act>, fits: Cdc.Event -> bool,
                          e: Cdc.Event, unique: string, before: seq<Message<Cdc.Event>>, after: seq<Message<Cdc.Event>>)
    requires env.Valid() && M.Run(env, steps) == Some(s) && s.process == Some(p) && MySqlStarting(p)
    requires e.sourceId == SourceIds.Print(p.bus[0].id)
    requires (env.Fits(p.bus[0].id) <==> Pub.FormsThatFit(fits, e) != {}) && Follow(Pub.FormsThatFit(fits, e), acts).Some?
    requires SameIds(before, s.stream)
    requires Pub.StreamAfter(before, after, Pub.MessageIdOf(env.prefix, e, unique), e, Follow(Pub.FormsThatFit(fits, e), acts).value.stored)
    ensures var steps' := steps + MySqlStepsOf(Pub.FormsThatFit(fits, e), acts);
      M.Run(env, steps').Some? && SameIds(after, M.Run(env, steps').value.stream)
  {
    MySqlIdIsTheMessageId(env, p.bus[0].id, e, unique);
    var forms := Pub.FormsThatFit(fits, e);
    MySqlDeliverIsSteps(env, steps, s, p, forms, acts);
    hide M.Run, SourceIds.Print, Pub.FormsThatFit, Follow, Store, SameIds, Pub.MessageIdOf, M.MessageOf, M.Env.Valid;
    var c := Follow(forms, acts).value;
    if c.stored.Some? {
      var m := M.MessageOf(env, p.bus[0].id);
      StoreSameIds(before, s.stream, Message(m.id, Pub.FormOf(e, c.stored.value)), m);
    }
  }

  lemma MySqlEndSteps(rung: Rung)
    ensures MySqlSteps(rung, Ended) == [M.EndContext, M.GiveUp]
  {
  }

  lemma MySqlAtStart(env: M.Env, s: M.State, p: M.Process)
    requires MySqlStarting(p) && s.process == Some(p)
    ensures MySqlState(env, s, p, START) == s
  {
  }
}
