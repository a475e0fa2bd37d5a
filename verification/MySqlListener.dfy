/** The MySQL listener's own code around the gate: passing an event to the bus
    and then counting it, recording a boundary, and writing the offset at a start
    and while running, as the steps the delivery protocol takes. */
module MySqlListener {
  import opened Streams
  import opened MySqlGate
  import opened MySqlHandler
  import opened MySqlDelivery

  /** The call is the next thing the callbacks do; then it is done. */
  predicate Ahead(p: Process, call: Call) {
    p.todo != [] && p.todo[0] == call
  }

  function Popped(p: Process): Process
    requires p.todo != []
  {
    p.(todo := p.todo[1..])
  }

  class Listener {
    const gate: CommitGate
    var running: bool
    var bus: seq<BusEvent>
    /** What the offset file holds, and what this process last wrote. */
    var offset: Position
    var saved: Position

    ghost predicate Valid()
      reads this, gate
    {
      gate.Valid()
    }

    /** The process of the protocol, with this listener's part of it. */
    ghost function View(p: Process): Process
      reads this, gate
    {
      p.(gate := gate.Model(), bus := bus, running := running, saved := saved)
    }

    constructor (offset: Position)
      ensures Valid() && fresh(gate) && this.offset == offset
      ensures forall p :: View(p) == p.(gate := NewGate(true), bus := [], running := true, saved := NOWHERE)
    {
      var g := new CommitGate();
      g.Enable();
      gate, running, bus, this.offset, saved := g, true, [], offset, NOWHERE;
    }

    /** Before anything streams: with a backup file configured, the position its
        dump was taken at overwrites the offset, whatever that was. */
    method RunSnapshot(dump: Option<Position>, writable: bool) returns (failed: bool)
      modifies this`offset
      ensures failed == (dump.Some? && dump.value.file != "" && !writable)
      ensures offset == if failed then old(offset) else StartOffset(old(offset), dump)
      ensures offset == if dump.Some? && dump.value.file != "" && writable then dump.value else old(offset)
    {
      if dump.Some? && dump.value.file != "" {
        if !writable {
          return true;
        }
        offset := dump.value;
      }
      return false;
    }

    method HandleEvent(e: Emitted) returns (accepted: bool)
      modifies this`bus
      ensures accepted == e.accepted
      ensures bus == old(bus) + if e.accepted && running then [if e.id.Some? then Own(e.id.value) else Other] else []
    {
      accepted := e.accepted;
      if accepted && running {
        bus := bus + [if e.id.Some? then Own(e.id.value) else Other];
      }
    }

    /** What the protocol takes as two steps, the bus accepting and the count. */
    method EmitEvent(e: Emitted)
      requires Valid()
      modifies this`bus, gate
      ensures Valid()
      ensures forall p: Process :: Ahead(p, Emit(e)) && !p.handing ==> View(Popped(p)) == Counted(CallStep(old(View(p))))
      ensures bus == old(bus) + if e.accepted && running then [if e.id.Some? then Own(e.id.value) else Other] else []
      ensures gate.Model() == old(gate.Model()).(handed := old(gate.handed) + if e.accepted && e.id.Some? then 1 else 0)
    {
      hide CommitGate.Valid;
      var accepted := HandleEvent(e);
      if accepted && e.id.Some? {
        gate.HandOver();
      }
    }

    method RecordBoundary(pos: Position)
      requires Valid()
      modifies gate
      ensures Valid()
      ensures forall p: Process :: Ahead(p, Commit(pos)) ==> View(Popped(p)) == CallStep(old(View(p)))
      ensures gate.history == old(gate.history).Apply(Record(pos))
    {
      hide CommitGate.Valid;
      gate.Committed(pos);
    }

    /** `writable` says whether the file can be written. */
    method SaveConfirmedOffset(writable: bool) returns (failed: bool)
      requires Valid()
      modifies this`offset, this`saved, gate
      ensures Valid() && (failed ==> !writable && offset == old(offset))
      ensures gate.history == old(gate.history)
      ensures var pos := gate.history.Answer();
        var moved := pos.file != "" && pos != old(saved);
        && failed == (moved && !writable)
        && offset == (if moved && writable then pos else old(offset))
        && saved == (if moved && writable then pos else old(saved))
      ensures forall p, stream {:trigger State(Some(View(p)), stream, offset)} ::
        State(Some(View(p)), stream, offset) == SaveStep(old(State(Some(View(p)), stream, offset)), old(View(p)), writable)
    {
      hide CommitGate.Valid, History.Answer, Gate.Settle;
      var pos, ok := gate.Confirmable();
      if !ok || pos == saved {
        return false;
      }
      if !writable {
        return true;
      }
      offset := pos;
      saved := pos;
      failed := false;
    }
  }

  /** A start of the protocol goes on from the offset RunSnapshot leaves. */
  lemma StartIsSnapshot(env: Env, s: State, dump: Option<Position>)
    requires env.Valid() && Next(env, s, Start(dump)).Some?
    ensures Next(env, s, Start(dump)).value.offset == StartOffset(s.offset, dump)
    ensures Next(env, s, Start(dump)).value.process == Some(NewProcess(env, StartOffset(s.offset, dump)))
  {
  }

  /** The count that follows an accepted own event. */
  function Counted(p: Process): Process {
    if p.handing then p.(gate := p.gate.Hand(), handing := false) else p
  }
}
