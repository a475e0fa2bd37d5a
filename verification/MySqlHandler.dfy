/** The binlog callbacks: what each hands to the bus, under which name, and
    which positions it offers to the gate as transaction boundaries. */
module MySqlHandler {
  import opened SourceIds
  import opened Streams
  import opened MySqlGate

  datatype Action = InsertRows | UpdateRows | DeleteRows

  /** A rows event; `rows` says of each row image whether its rendering is JSON
      the bus accepts. An update carries its images in pairs. */
  datatype RowsEvent = RowsEvent(hasHeader: bool, logPos: nat, action: Action, rows: seq<bool>) {
    function RowCount(): nat {
      if action == UpdateRows then |rows| / 2 else |rows|
    }

    /** The change of index i is built from one image, or from a pair. */
    predicate Accepted(i: nat)
      requires i < RowCount()
    {
      if action == UpdateRows then rows[2 * i] && rows[2 * i + 1] else rows[i]
    }
  }

  datatype Callback =
    | Gtid(hasHeader: bool, logPos: nat, eventSize: nat)
    | Rows(event: RowsEvent)
    | Xid(next: Position)
    | Ddl(next: Position)
    | Rotate(file: string, offset: nat)

  /** An event on its way to the bus; no id means it is not counted. */
  datatype Emitted = Emitted(id: Option<SourceId>, accepted: bool)

  /** What a callback does to the outside, in order. */
  datatype Call = Emit(event: Emitted) | Commit(pos: Position)

  /** The COMMIT event: the bus takes it, nobody publishes or counts it. */
  const TXN_END := Emit(Emitted(None, true))

  datatype Handler = Handler(currentFile: string, txn: Position, txnRows: nat)

  /** How the rows of one event are named. */
  datatype Naming = Unnamed | ByPosition(file: string, offset: nat) | ByTxn(txn: Position, first: nat) {
    function Name(row: nat): Option<SourceId> {
      match this
      case Unnamed => None
      case ByPosition(file, offset) => Some(MySqlRow(file, offset, row))
      case ByTxn(txn, first) => Some(MySqlTxnRow(txn.file, txn.offset, first + row))
    }
  }

  /** No naming at all means the row cannot be placed and streaming stops. */
  function RowIds(h: Handler, e: RowsEvent): Option<(Handler, Naming)> {
    if h.currentFile == "" || !e.hasHeader then Some((h, Unnamed))
    else if e.logPos != 0 then Some((h, ByPosition(h.currentFile, e.logPos)))
    else if h.txn.file == "" then None
    else Some((h.(txnRows := h.txnRows + e.RowCount()), ByTxn(h.txn, h.txnRows)))
  }

  function RowCalls(e: RowsEvent, naming: Naming): seq<Call> {
    seq(e.RowCount(), i requires 0 <= i < e.RowCount() => Emit(Emitted(naming.Name(i), e.Accepted(i))))
  }

  function Handle(h: Handler, cb: Callback): Option<(Handler, seq<Call>)> {
    match cb
    case Gtid(hasHeader, logPos, eventSize) =>
      var h' := h.(txn := NOWHERE, txnRows := 0);
      if !hasHeader || h.currentFile == "" || logPos == 0 then Some((h', []))
      else Some((h'.(txn := Position(h.currentFile, logPos)),
                 if logPos >= eventSize then [Commit(Position(h.currentFile, logPos - eventSize))] else []))
    case Rows(e) =>
      var ids := RowIds(h, e);
      if ids.None? then None else Some((ids.value.0, RowCalls(e, ids.value.1)))
    case Xid(next) => Some((h, [TXN_END, Commit(next)]))
    case Ddl(next) =>
      var id := if next.file != "" then Some(MySqlDdl(next.file, next.offset)) else None;
      Some((h, [Emit(Emitted(id, true)), Commit(next)]))
    case Rotate(file, offset) => Some((h.(currentFile := file), [Commit(Position(file, offset % 0x1_0000_0000))]))
  }

  function RunCallbacks(h: Handler, cbs: seq<Callback>): Option<(Handler, seq<Call>)>
    decreases |cbs|
  {
    if cbs == [] then Some((h, []))
    else
      var first := Handle(h, cbs[0]);
      if first.None? then None
      else
        var rest := RunCallbacks(first.value.0, cbs[1..]);
        if rest.None? then None else Some((rest.value.0, first.value.1 + rest.value.1))
  }

  // ---------------------------------------------------------------------------
  // Which rows go out, and under which names

  /** The name of row i of an event: by the event's end, or, within a compressed
      transaction, by its number there. */
  ghost function PlaceOf(h: Handler, e: RowsEvent, i: nat): Option<SourceId> {
    if h.currentFile == "" || !e.hasHeader then None
    else if e.logPos != 0 then Some(MySqlRow(h.currentFile, e.logPos, i))
    else Some(MySqlTxnRow(h.txn.file, h.txn.offset, h.txnRows + i))
  }

  /** One event for each row, or for each pair of an update, in order; a pair
      goes out as accepted when both its images are. */
  ghost predicate OneForEach(h: Handler, e: RowsEvent, made: seq<Call>) {
    if e.action == UpdateRows then
      && |made| == |e.rows| / 2
      && forall i :: 0 <= i < |made| ==> made[i] == Emit(Emitted(PlaceOf(h, e, i), e.rows[2 * i] && e.rows[2 * i + 1]))
    else
      && |made| == |e.rows|
      && forall i :: 0 <= i < |made| ==> made[i] == Emit(Emitted(PlaceOf(h, e, i), e.rows[i]))
  }

  /** Inside a compressed transaction rows carry no position of their own. */
  predicate IsInner(h: Handler, e: RowsEvent) {
    h.currentFile != "" && e.hasHeader && e.logPos == 0
  }

  /** Every row of an event goes out, once, in order, under its own name; only a
      row inside a transaction that was not announced stops the stream. Inner
      rows are numbered on from those before them. */
  lemma EveryRowGoesOut(h: Handler, e: RowsEvent)
    ensures Handle(h, Rows(e)).Some? <==> !(IsInner(h, e) && h.txn.file == "")
    ensures Handle(h, Rows(e)).Some? ==>
      var (after, made) := Handle(h, Rows(e)).value;
      OneForEach(h, e, made) && after == h.(txnRows := h.txnRows + if IsInner(h, e) then |made| else 0)
  {
  }

  // ---------------------------------------------------------------------------
  // The handler as canal drives it

  class EventHandler {
    var currentFile: string
    var txn: Position
    var txnRows: nat
    /** Everything passed to the bus and to the gate so far. */
    var calls: seq<Call>

    ghost function Model(): Handler
      reads this
    {
      Handler(currentFile, txn, txnRows)
    }

    constructor (file: string)
      ensures Model() == Handler(file, NOWHERE, 0) && calls == []
    {
      currentFile, txn, txnRows, calls := file, NOWHERE, 0, [];
    }

    method RowNaming(e: RowsEvent) returns (naming: Option<Naming>)
      modifies this`txnRows
      ensures RowIds(old(Model()), e) == if naming.None? then None else Some((Model(), naming.value))
      ensures naming.None? ==> txnRows == old(txnRows)
    {
      if currentFile == "" || !e.hasHeader {
        return Some(Unnamed);
      }
      if e.logPos != 0 {
        return Some(ByPosition(currentFile, e.logPos));
      }
      if txn.file == "" {
        return None;
      }
      naming := Some(ByTxn(txn, txnRows));
      txnRows := txnRows + e.RowCount();
    }

    /** Rows go out one by one, updates pair by pair; a row that cannot be
        placed publishes nothing of its event. */
    method OnRow(e: RowsEvent) returns (ok: bool)
      modifies this
      ensures ok <==> Handle(old(Model()), Rows(e)).Some?
      ensures ok ==> Model() == Handle(old(Model()), Rows(e)).value.0
      ensures ok ==> calls == old(calls) + Handle(old(Model()), Rows(e)).value.1
      ensures ok <==> !(IsInner(old(Model()), e) && old(txn).file == "")
      ensures !ok ==> calls == old(calls) && Model() == old(Model())
      ensures ok ==> old(calls) <= calls && OneForEach(old(Model()), e, calls[|old(calls)|..])
      ensures currentFile == old(currentFile) && txn == old(txn)
      ensures txnRows == old(txnRows) + if IsInner(old(Model()), e) then |calls| - |old(calls)| else 0
    {
      hide OneForEach, PlaceOf, RowCalls;
      EveryRowGoesOut(Model(), e);
      var naming := RowNaming(e);
      if naming.None? {
        return false;
      }
      ok := true;
      if e.action == UpdateRows {
        EmitPairs(e, naming.value);
      } else {
        EmitRows(e, naming.value);
      }
    }

    method EmitPairs(e: RowsEvent, naming: Naming)
      requires e.action == UpdateRows
      modifies this`calls
      ensures calls == old(calls) + RowCalls(e, naming)
    {
      hide Naming.Name;
      ghost var wanted := RowCalls(e, naming);
      var i := 0;
      while i + 1 < |e.rows|
        invariant 0 <= i <= |e.rows| && i % 2 == 0
        invariant calls == old(calls) + wanted[..i / 2]
      {
        calls := calls + [Emit(Emitted(naming.Name(i / 2), e.rows[i] && e.rows[i + 1]))];
        assert wanted[..i / 2 + 1] == wanted[..i / 2] + [wanted[i / 2]];
        i := i + 2;
      }
      assert wanted[..i / 2] == wanted;
    }

    method EmitRows(e: RowsEvent, naming: Naming)
      requires e.action != UpdateRows
      modifies this`calls
      ensures calls == old(calls) + RowCalls(e, naming)
    {
      hide Naming.Name;
      ghost var wanted := RowCalls(e, naming);
      for i := 0 to |e.rows|
        invariant calls == old(calls) + wanted[..i]
      {
        calls := calls + [Emit(Emitted(naming.Name(i), e.rows[i]))];
        assert wanted[..i + 1] == wanted[..i] + [wanted[i]];
      }
      assert wanted[..|e.rows|] == wanted;
    }

    method OnGtid(hasHeader: bool, logPos: nat, eventSize: nat)
      modifies this
      ensures var (h, made) := Handle(old(Model()), Gtid(hasHeader, logPos, eventSize)).value;
        Model() == h && calls == old(calls) + made
      ensures currentFile == old(currentFile) && txnRows == 0
      ensures txn == if hasHeader && currentFile != "" && logPos != 0 then Position(currentFile, logPos) else NOWHERE
      ensures calls == old(calls) +
        if txn != NOWHERE && logPos >= eventSize then [Commit(Position(currentFile, logPos - eventSize))] else []
    {
      txn, txnRows := NOWHERE, 0;
      if !hasHeader || currentFile == "" || logPos == 0 {
        return;
      }
      txn := Position(currentFile, logPos);
      if logPos >= eventSize {
        calls := calls + [Commit(Position(currentFile, logPos - eventSize))];
      }
    }

    method OnRotate(file: string, offset: nat)
      modifies this
      ensures var (h, made) := Handle(old(Model()), Rotate(file, offset)).value;
        Model() == h && calls == old(calls) + made
      ensures currentFile == file && txn == old(txn) && txnRows == old(txnRows)
      ensures |calls| == |old(calls)| + 1 && old(calls) <= calls
      ensures var last := calls[|calls| - 1];
        last.Commit? && last.pos.file == file && last.pos.offset < 0x1_0000_0000 && (offset - last.pos.offset) % 0x1_0000_0000 == 0
    {
      currentFile := file;
      calls := calls + [Commit(Position(file, offset % 0x1_0000_0000))];
    }

    method OnDdl(next: Position)
      modifies this
      ensures var (h, made) := Handle(old(Model()), Ddl(next)).value;
        Model() == h && calls == old(calls) + made
      ensures Model() == old(Model())
      ensures calls == old(calls) +
        [Emit(Emitted(if next.file != "" then Some(MySqlDdl(next.file, next.offset)) else None, true)), Commit(next)]
    {
      var id := None;
      if next.file != "" {
        id := Some(MySqlDdl(next.file, next.offset));
      }
      calls := calls + [Emit(Emitted(id, true))];
      calls := calls + [Commit(next)];
    }

    method OnXid(next: Position)
      modifies this
      ensures var (h, made) := Handle(old(Model()), Xid(next)).value;
        Model() == h && calls == old(calls) + made
      ensures Model() == old(Model()) && calls == old(calls) + [Emit(Emitted(None, true)), Commit(next)]
    {
      calls := calls + [TXN_END];
      calls := calls + [Commit(next)];
    }
  }
}
