/** Replaying a binlog: from any boundary the listener confirms, the same whole
    transactions come again, and every change gets the name it had before. */
module MySqlBinlog {
  import opened SourceIds
  import opened Streams
  import opened MySqlGate
  import opened MySqlHandler

  const OFFSET_LIMIT: nat := 0x1_0000_0000

  /** One unit between two boundaries. A compressed transaction's inner events
      carry position 0. */
  datatype Body =
    | Transaction(compressed: bool, rows: seq<RowsEvent>)
    | Statement
    | RotateToNext

  /** Bytes [start, end) of a file; the GTID event ends at gtidEnd. */
  datatype Group = Group(file: nat, start: nat, gtidEnd: nat, end: nat, body: Body)

  datatype Binlog = Binlog(files: seq<string>, groups: seq<Group>) {
    function NextFile(g: Group): nat {
      if g.body.RotateToNext? then g.file + 1 else g.file
    }

    ghost predicate ValidGroup(g: Group) {
      && NextFile(g) < |files|
      && MIN_OFFSET <= g.start < g.gtidEnd < g.end < OFFSET_LIMIT
      && (g.body.Transaction? ==> ValidRows(g.body.rows, g.body.compressed, g.gtidEnd, g.end))
    }

    /** Whole transactions, file after file; each file ends with a rotate, and
        rotates fall between transactions. */
    ghost predicate Valid() {
      && (forall i :: 0 <= i < |files| ==> files[i] != "")
      && (forall i, j :: 0 <= i < j < |files| ==> files[i] != files[j])
      && (forall i :: 0 <= i < |groups| ==> ValidGroup(groups[i]))
      && (forall i :: 0 <= i < |groups| - 1 ==> groups[i + 1].file == NextFile(groups[i]))
      && (forall i :: 0 <= i < |groups| - 1 && groups[i + 1].file == groups[i].file ==> groups[i].end <= groups[i + 1].start)
    }

    function Name(file: nat): string
      requires file < |files|
    {
      files[file]
    }
  }

  ghost predicate ValidRows(rows: seq<RowsEvent>, compressed: bool, low: nat, high: nat) {
    && (forall i :: 0 <= i < |rows| ==> rows[i].hasHeader && if compressed then rows[i].logPos == 0 else low < rows[i].logPos < high)
    && (!compressed ==> forall i, j :: 0 <= i < j < |rows| ==> rows[i].logPos < rows[j].logPos)
  }

  /** The callbacks canal makes for one group. */
  function Callbacks(b: Binlog, g: Group): seq<Callback>
    requires b.ValidGroup(g)
  {
    var file := b.Name(g.file);
    var open := [Gtid(true, g.gtidEnd, g.gtidEnd - g.start)];
    match g.body
    case Transaction(compressed, rows) =>
      open + seq(|rows|, i requires 0 <= i < |rows| => Rows(rows[i])) + [Xid(Position(file, if compressed then 0 else g.end))]
    case Statement => open + [Ddl(Position(file, g.end))]
    case RotateToNext => [Rotate(b.Name(g.file + 1), MIN_OFFSET)]
  }

  // ---------------------------------------------------------------------------
  // What a group always produces, whatever state the handler is in

  function RowNaming(file: string, g: Group, e: RowsEvent, first: nat): Naming {
    if e.logPos != 0 then ByPosition(file, e.logPos) else ByTxn(Position(file, g.gtidEnd), first)
  }

  /** The calls for the first `count` rows events; `RowsBefore` counts the rows
      a compressed transaction has numbered by then. */
  function RowsBefore(rows: seq<RowsEvent>, count: nat): nat
    requires count <= |rows|
  {
    if count == 0 then 0
    else RowsBefore(rows, count - 1) + if rows[count - 1].logPos == 0 then rows[count - 1].RowCount() else 0
  }

  function RowsProduced(file: string, g: Group, rows: seq<RowsEvent>, count: nat): seq<Call>
    requires count <= |rows|
  {
    if count == 0 then []
    else RowsProduced(file, g, rows, count - 1) +
         RowCalls(rows[count - 1], RowNaming(file, g, rows[count - 1], RowsBefore(rows, count - 1)))
  }

  function Produced(b: Binlog, g: Group): seq<Call>
    requires b.ValidGroup(g)
  {
    var file := b.Name(g.file);
    match g.body
    case Transaction(compressed, rows) =>
      [Commit(Position(file, g.start))] + (RowsProduced(file, g, rows, |rows|) + [TXN_END]) +
      [Commit(Position(file, if compressed then 0 else g.end))]
    case Statement =>
      [Commit(Position(file, g.start)), Emit(Emitted(Some(MySqlDdl(file, g.end)), true)), Commit(Position(file, g.end))]
    case RotateToNext => [Commit(Position(b.Name(g.file + 1), MIN_OFFSET))]
  }

  lemma {:induction false} RunConcat(h: Handler, a: seq<Callback>, b: seq<Callback>)
    requires RunCallbacks(h, a).Some?
    requires RunCallbacks(RunCallbacks(h, a).value.0, b).Some?
    ensures RunCallbacks(h, a + b) == Some((RunCallbacks(RunCallbacks(h, a).value.0, b).value.0,
      RunCallbacks(h, a).value.1 + RunCallbacks(RunCallbacks(h, a).value.0, b).value.1))
    decreases |a|
  {
    if a == [] {
      assert a + b == b;
      var tail := RunCallbacks(h, b).value.1;
      assert [] + tail == tail;
    } else {
      assert (a + b)[1..] == a[1..] + b;
      var (next, made) := Handle(h, a[0]).value;
      RunConcat(next, a[1..], b);
      var (after, middle) := RunCallbacks(next, a[1..]).value;
      var tail := RunCallbacks(after, b).value.1;
      assert made + (middle + tail) == (made + middle) + tail;
    }
  }

  lemma RunOne(h: Handler, cb: Callback)
    requires Handle(h, cb).Some?
    ensures RunCallbacks(h, [cb]) == Handle(h, cb)
  {
    var (next, made) := Handle(h, cb).value;
    assert [cb][1..] == [];
    assert RunCallbacks(next, []) == Some((next, []));
    assert made + [] == made;
  }

  lemma {:induction false} RowsRun(file: string, g: Group, h: Handler, rows: seq<RowsEvent>, count: nat)
    requires file != "" && count <= |rows| && h == Handler(file, Position(file, g.gtidEnd), 0)
    requires forall i :: 0 <= i < |rows| ==> rows[i].hasHeader
    ensures RunCallbacks(h, seq(count, i requires 0 <= i < count => Rows(rows[i])))
         == Some((h.(txnRows := RowsBefore(rows, count)), RowsProduced(file, g, rows, count)))
  {
    var cbs := seq(count, i requires 0 <= i < count => Rows(rows[i]));
    if count == 0 {
    } else {
      var front := seq(count - 1, i requires 0 <= i < count - 1 => Rows(rows[i]));
      RowsRun(file, g, h, rows, count - 1);
      var h' := h.(txnRows := RowsBefore(rows, count - 1));
      RunOne(h', Rows(rows[count - 1]));
      RunConcat(h, front, [Rows(rows[count - 1])]);
      assert cbs == front + [Rows(rows[count - 1])];
    }
  }

  /** What the GTID event does, and the handler state it leaves. */
  lemma GtidRuns(b: Binlog, g: Group, h: Handler)
    requires b.Valid() && b.ValidGroup(g) && h.currentFile == b.Name(g.file)
    ensures var file := b.Name(g.file);
      RunCallbacks(h, [Gtid(true, g.gtidEnd, g.gtidEnd - g.start)])
      == Some((Handler(file, Position(file, g.gtidEnd), 0), [Commit(Position(file, g.start))]))
  {
    RunOne(h, Gtid(true, g.gtidEnd, g.gtidEnd - g.start));
  }

  lemma TransactionRuns(b: Binlog, g: Group, h: Handler)
    requires b.Valid() && b.ValidGroup(g) && h.currentFile == b.Name(g.file) && g.body.Transaction?
    ensures RunCallbacks(h, Callbacks(b, g)).Some?
    ensures RunCallbacks(h, Callbacks(b, g)).value.1 == Produced(b, g)
    ensures RunCallbacks(h, Callbacks(b, g)).value.0.currentFile == b.Name(g.file)
  {
    var file, rows := b.Name(g.file), g.body.rows;
    var gtid := Gtid(true, g.gtidEnd, g.gtidEnd - g.start);
    var inside := Handler(file, Position(file, g.gtidEnd), 0);
    var cbs := seq(|rows|, i requires 0 <= i < |rows| => Rows(rows[i]));
    var xid := Xid(Position(file, if g.body.compressed then 0 else g.end));
    GtidRuns(b, g, h);
    RowsRun(file, g, inside, rows, |rows|);
    RunOne(inside.(txnRows := RowsBefore(rows, |rows|)), xid);
    hide RunCallbacks, RowsProduced, RowsBefore;
    RunConcat(h, [gtid], cbs);
    RunConcat(h, [gtid] + cbs, [xid]);
    var produced := RowsProduced(file, g, rows, |rows|);
    assert [Commit(Position(file, g.start))] + produced + [TXN_END, Commit(xid.next)] == Produced(b, g);
  }

  /** A group produces the same calls from every handler state that knows its
      file, and leaves the handler knowing the next group's. */
  lemma GroupRuns(b: Binlog, g: Group, h: Handler)
    requires b.Valid() && b.ValidGroup(g) && h.currentFile == b.Name(g.file)
    ensures RunCallbacks(h, Callbacks(b, g)).Some?
    ensures RunCallbacks(h, Callbacks(b, g)).value.1 == Produced(b, g)
    ensures RunCallbacks(h, Callbacks(b, g)).value.0.currentFile == b.Name(b.NextFile(g))
  {
    hide RunCallbacks;
    var file := b.Name(g.file);
    match g.body
    case Transaction(_, _) => TransactionRuns(b, g, h);
    case Statement =>
      var ddl := Ddl(Position(file, g.end));
      GtidRuns(b, g, h);
      RunOne(Handler(file, Position(file, g.gtidEnd), 0), ddl);
      RunConcat(h, [Gtid(true, g.gtidEnd, g.gtidEnd - g.start)], [ddl]);
    case RotateToNext =>
      RunOne(h, Rotate(b.Name(g.file + 1), MIN_OFFSET));
  }

  // ---------------------------------------------------------------------------
  // The whole binlog

  function CallbacksFrom(b: Binlog, i: nat): seq<Callback>
    requires b.Valid() && i <= |b.groups|
    decreases |b.groups| - i
  {
    if i == |b.groups| then [] else Callbacks(b, b.groups[i]) + CallbacksFrom(b, i + 1)
  }

  function ProducedFrom(b: Binlog, i: nat): seq<Call>
    requires b.Valid() && i <= |b.groups|
    decreases |b.groups| - i
  {
    if i == |b.groups| then [] else Produced(b, b.groups[i]) + ProducedFrom(b, i + 1)
  }

  ghost predicate KnowsFile(b: Binlog, file: string, i: nat)
    requires b.Valid() && i <= |b.groups|
  {
    i < |b.groups| ==> file == b.Name(b.groups[i].file)
  }

  /** Replication can resume here: between two groups, in the right file. */
  ghost predicate Resumable(b: Binlog, pos: Position)
    requires b.Valid()
  {
    Usable(pos) && pos.offset < OFFSET_LIMIT && KnowsFile(b, pos.file, ResumeIndex(b, pos))
  }

  lemma {:induction false} GroupsRun(b: Binlog, i: nat, h: Handler)
    requires b.Valid() && i <= |b.groups| && KnowsFile(b, h.currentFile, i)
    ensures RunCallbacks(h, CallbacksFrom(b, i)).Some?
    ensures RunCallbacks(h, CallbacksFrom(b, i)).value.1 == ProducedFrom(b, i)
    decreases |b.groups| - i
  {
    if i == |b.groups| {
    } else {
      GroupRuns(b, b.groups[i], h);
      var h' := RunCallbacks(h, Callbacks(b, b.groups[i])).value.0;
      GroupsRun(b, i + 1, h');
      RunConcat(h, Callbacks(b, b.groups[i]), CallbacksFrom(b, i + 1));
    }
  }

  // Binlog order

  function FileNo(files: seq<string>, name: string): nat {
    if files == [] || files[0] == name then 0 else 1 + FileNo(files[1..], name)
  }

  function Rank(b: Binlog, pos: Position): nat {
    FileNo(b.files, pos.file) * OFFSET_LIMIT + pos.offset
  }

  function StartRank(g: Group): nat {
    g.file * OFFSET_LIMIT + g.start
  }

  /** Replication resumes with the first group that starts at or after a rank. */
  function FirstAtOrAfter(groups: seq<Group>, rank: nat): (k: nat)
    ensures k <= |groups|
    ensures forall i :: 0 <= i < k ==> StartRank(groups[i]) < rank
    ensures k < |groups| ==> StartRank(groups[k]) >= rank
  {
    if groups == [] || StartRank(groups[0]) >= rank then 0 else 1 + FirstAtOrAfter(groups[1..], rank)
  }

  function ResumeIndex(b: Binlog, pos: Position): nat {
    FirstAtOrAfter(b.groups, Rank(b, pos))
  }

  lemma {:induction false} FirstAtOrAfterIs(groups: seq<Group>, rank: nat, k: nat)
    requires k <= |groups|
    requires forall i :: 0 <= i < k ==> StartRank(groups[i]) < rank
    requires k < |groups| ==> StartRank(groups[k]) >= rank
    ensures FirstAtOrAfter(groups, rank) == k
  {
    if k == 0 {
    } else {
      FirstAtOrAfterIs(groups[1..], rank, k - 1);
    }
  }

  lemma {:induction false} FirstAtOrAfterMonotone(groups: seq<Group>, r: nat, r': nat)
    requires r <= r'
    ensures FirstAtOrAfter(groups, r) <= FirstAtOrAfter(groups, r')
  {
    if groups == [] {
    } else {
      FirstAtOrAfterMonotone(groups[1..], r, r');
    }
  }

  lemma {:induction false} FileNoOf(files: seq<string>, i: nat)
    requires i < |files| && forall j, k :: 0 <= j < k < |files| ==> files[j] != files[k]
    ensures FileNo(files, files[i]) == i
  {
    if i == 0 {
    } else {
      assert files[0] != files[i];
      FileNoOf(files[1..], i - 1);
    }
  }

  /** Where a group ends never lies after where a later one starts. */
  lemma {:induction false} GroupsInOrder(b: Binlog, i: nat, j: nat)
    requires b.Valid() && i < j < |b.groups|
    ensures b.NextFile(b.groups[i]) <= b.groups[j].file
    ensures b.groups[i].file * OFFSET_LIMIT + b.groups[i].end <= StartRank(b.groups[j])
    ensures StartRank(b.groups[i]) < StartRank(b.groups[j])
    decreases j
  {
    if i == j - 1 {
    } else {
      GroupsInOrder(b, i, j - 1);
    }
    assert b.groups[j - 1 + 1].file == b.NextFile(b.groups[j - 1]);
  }

  /** The index a boundary of group j stands for: the group itself, at its
      start, or the next one, after its end. */
  lemma StartIndex(b: Binlog, j: nat)
    requires b.Valid() && j < |b.groups|
    ensures var pos := Position(b.Name(b.groups[j].file), b.groups[j].start);
      Rank(b, pos) == StartRank(b.groups[j]) && ResumeIndex(b, pos) == j
  {
    FileNoOf(b.files, b.groups[j].file);
    forall i | 0 <= i < j ensures StartRank(b.groups[i]) < StartRank(b.groups[j]) {
      GroupsInOrder(b, i, j);
    }
    FirstAtOrAfterIs(b.groups, StartRank(b.groups[j]), j);
  }

  function EndPosition(b: Binlog, j: nat): Position
    requires b.Valid() && j < |b.groups|
  {
    var g := b.groups[j];
    if g.body.RotateToNext? then Position(b.Name(g.file + 1), MIN_OFFSET) else Position(b.Name(g.file), g.end)
  }

  lemma EndIndex(b: Binlog, j: nat)
    requires b.Valid() && j < |b.groups|
    ensures Rank(b, EndPosition(b, j)) > StartRank(b.groups[j])
    ensures ResumeIndex(b, EndPosition(b, j)) == j + 1
    ensures KnowsFile(b, EndPosition(b, j).file, j + 1)
  {
    var g := b.groups[j];
    FileNoOf(b.files, b.NextFile(g));
    var rank := Rank(b, EndPosition(b, j));
    forall i | 0 <= i < j + 1 ensures StartRank(b.groups[i]) < rank {
      if i < j {
        GroupsInOrder(b, i, j);
      }
    }
    if j + 1 < |b.groups| {
      GroupsInOrder(b, j, j + 1);
    }
    FirstAtOrAfterIs(b.groups, rank, j + 1);
  }

  lemma {:induction false} RowsOnlyEmit(file: string, g: Group, rows: seq<RowsEvent>, count: nat)
    requires count <= |rows|
    ensures forall k :: 0 <= k < |RowsProduced(file, g, rows, count)| ==> RowsProduced(file, g, rows, count)[k].Emit?
  {
    if count == 0 {
    } else {
      RowsOnlyEmit(file, g, rows, count - 1);
    }
  }

  /** Every usable boundary is the start of its group, before any of its
      changes, or its end, after all of them. */
  lemma BoundaryMeaning(b: Binlog, j: nat, k: nat)
    requires b.Valid() && j < |b.groups| && k < |Produced(b, b.groups[j])|
    requires Produced(b, b.groups[j])[k].Commit? && Usable(Produced(b, b.groups[j])[k].pos)
    ensures var pos := Produced(b, b.groups[j])[k].pos;
      || (k == 0 && pos == Position(b.Name(b.groups[j].file), b.groups[j].start))
      || (k == |Produced(b, b.groups[j])| - 1 && pos == EndPosition(b, j))
  {
    var g := b.groups[j];
    if g.body.Transaction? {
      RowsOnlyEmit(b.Name(g.file), g, g.body.rows, |g.body.rows|);
    }
  }

  /** Resuming from any confirmed boundary: a fresh handler, told the file and
      position, makes exactly the calls of the first time from there on. */
  lemma ReplayIsTheSame(b: Binlog, j: nat, k: nat)
    requires b.Valid() && j < |b.groups| && k < |Produced(b, b.groups[j])|
    requires Produced(b, b.groups[j])[k].Commit? && Usable(Produced(b, b.groups[j])[k].pos)
    ensures var pos := Produced(b, b.groups[j])[k].pos;
      var r := ResumeIndex(b, pos);
      && r <= |b.groups| && KnowsFile(b, pos.file, r) && r == (if k == 0 && !b.groups[j].body.RotateToNext? then j else j + 1)
      && var rerun := RunCallbacks(Handler(pos.file, NOWHERE, 0), [Rotate(pos.file, pos.offset)] + CallbacksFrom(b, r));
         rerun.Some? && rerun.value.1 == [Commit(pos)] + ProducedFrom(b, r)
  {
    var pos := Produced(b, b.groups[j])[k].pos;
    BoundaryMeaning(b, j, k);
    StartIndex(b, j);
    EndIndex(b, j);
    ResumeRuns(b, pos);
  }

  lemma ResumeRuns(b: Binlog, pos: Position)
    requires b.Valid() && KnowsFile(b, pos.file, ResumeIndex(b, pos)) && pos.offset < OFFSET_LIMIT
    ensures var r := ResumeIndex(b, pos);
      var rerun := RunCallbacks(Handler(pos.file, NOWHERE, 0), [Rotate(pos.file, pos.offset)] + CallbacksFrom(b, r));
      rerun.Some? && rerun.value.1 == [Commit(pos)] + ProducedFrom(b, r)
  {
    var h := Handler(pos.file, NOWHERE, 0);
    var r := ResumeIndex(b, pos);
    RunOne(h, Rotate(pos.file, pos.offset));
    GroupsRun(b, r, h);
    RunConcat(h, [Rotate(pos.file, pos.offset)], CallbacksFrom(b, r));
  }

  // ---------------------------------------------------------------------------
  // Names

  /** The names of the changes the bus takes, in order. */
  function Names(calls: seq<Call>): seq<SourceId> {
    if calls == [] then []
    else Names(calls[..|calls| - 1]) + NameOf(calls[|calls| - 1])
  }

  function NameOf(call: Call): seq<SourceId> {
    if call.Emit? && call.event.accepted && call.event.id.Some? then [call.event.id.value] else []
  }

  lemma {:induction false} NamesConcat(a: seq<Call>, b: seq<Call>)
    ensures Names(a + b) == Names(a) + Names(b)
    decreases |b|
  {
    if b == [] {
      assert a + b == a;
    } else {
      assert (a + b)[..|a + b| - 1] == a + b[..|b| - 1];
      NamesConcat(a, b[..|b| - 1]);
    }
  }

  ghost predicate Distinct(ids: seq<SourceId>) {
    forall i, j :: 0 <= i < j < |ids| ==> ids[i] != ids[j]
  }

  lemma DistinctConcat(a: seq<SourceId>, b: seq<SourceId>)
    requires Distinct(a) && Distinct(b)
    requires forall x <- a, y <- b :: x != y
    ensures Distinct(a + b)
  {
    var ids := a + b;
    forall i, j | 0 <= i < j < |ids| ensures ids[i] != ids[j] {
      if i < |a| <= j {
        assert ids[i] in a && ids[j] in b;
      }
    }
  }

  /** The rows of one event share a place and differ by index. */
  lemma {:induction false} EventNames(e: RowsEvent, naming: Naming, count: nat)
    requires count <= e.RowCount() && !naming.Unnamed?
    ensures var ids := Names(RowCalls(e, naming)[..count]);
      && Distinct(ids)
      && (forall x <- ids :: naming.ByPosition? ==> x.MySqlRow? && x.file == naming.file && x.position == naming.offset && x.row < count)
      && (forall x <- ids :: naming.ByTxn? ==> x.MySqlTxnRow? && x.file == naming.txn.file && x.position == naming.txn.offset)
      && (forall x <- ids :: naming.ByTxn? ==> naming.first <= x.row < naming.first + count)
  {
    if count == 0 {
    } else {
      EventNames(e, naming, count - 1);
      var calls := RowCalls(e, naming)[..count];
      assert calls[..count - 1] == RowCalls(e, naming)[..count - 1];
      DistinctConcat(Names(calls[..count - 1]), NameOf(calls[count - 1]));
    }
  }

  /** A transaction's rows: told apart by position and index, or, compressed,
      by their number within the transaction. */
  ghost predicate RowNamesOk(ids: seq<SourceId>, file: string, g: Group, rows: seq<RowsEvent>, count: nat)
    requires count <= |rows| && g.body.Transaction?
  {
    && Distinct(ids)
    && (forall x <- ids :: !x.PgChange? && x.file == file && g.start < x.position <= g.end)
    && (g.body.compressed ==> forall x <- ids :: x.MySqlTxnRow? && x.row < RowsBefore(rows, count))
    && (!g.body.compressed ==> forall x <- ids :: count > 0 && x.MySqlRow? && x.position <= rows[count - 1].logPos)
  }

  lemma CompressedStep(before: seq<SourceId>, here: seq<SourceId>, file: string, g: Group, rows: seq<RowsEvent>, count: nat)
    requires 0 < count <= |rows| && g.body.Transaction? && g.body.compressed && rows[count - 1].logPos == 0
    requires g.start < g.gtidEnd <= g.end
    requires RowNamesOk(before, file, g, rows, count - 1) && Distinct(here)
    requires forall x <- here :: x.MySqlTxnRow? && x.file == file && x.position == g.gtidEnd
    requires forall x <- here :: RowsBefore(rows, count - 1) <= x.row < RowsBefore(rows, count)
    ensures RowNamesOk(before + here, file, g, rows, count)
  {
    DistinctConcat(before, here);
  }

  lemma PlainStep(before: seq<SourceId>, here: seq<SourceId>, file: string, g: Group, rows: seq<RowsEvent>, count: nat)
    requires 0 < count <= |rows| && g.body.Transaction? && !g.body.compressed
    requires g.start < rows[count - 1].logPos <= g.end && (count > 1 ==> rows[count - 2].logPos < rows[count - 1].logPos)
    requires RowNamesOk(before, file, g, rows, count - 1) && Distinct(here)
    requires forall x <- here :: x.MySqlRow? && x.file == file && x.position == rows[count - 1].logPos
    ensures RowNamesOk(before + here, file, g, rows, count)
  {
    DistinctConcat(before, here);
  }

  lemma {:induction false} RowNames(b: Binlog, g: Group, count: nat)
    requires b.ValidGroup(g) && g.body.Transaction? && count <= |g.body.rows|
    ensures RowNamesOk(Names(RowsProduced(b.Name(g.file), g, g.body.rows, count)), b.Name(g.file), g, g.body.rows, count)
  {
    hide RowNamesOk;
    var file, rows := b.Name(g.file), g.body.rows;
    if count == 0 {
      NoRowNames(file, g, rows);
    } else {
      var e := rows[count - 1];
      var naming := RowNaming(file, g, e, RowsBefore(rows, count - 1));
      RowNames(b, g, count - 1);
      EventNames(e, naming, e.RowCount());
      assert RowCalls(e, naming)[..e.RowCount()] == RowCalls(e, naming);
      var before, here := Names(RowsProduced(file, g, rows, count - 1)), Names(RowCalls(e, naming));
      NamesConcat(RowsProduced(file, g, rows, count - 1), RowCalls(e, naming));
      if g.body.compressed {
        CompressedStep(before, here, file, g, rows, count);
      } else {
        PlainStep(before, here, file, g, rows, count);
      }
    }
  }

  lemma NoRowNames(file: string, g: Group, rows: seq<RowsEvent>)
    requires g.body.Transaction?
    ensures RowNamesOk([], file, g, rows, 0)
  {
  }

  lemma NamesOne(call: Call)
    ensures Names([call]) == NameOf(call)
  {
    assert [call][..0] == [];
  }

  lemma NamesBetweenCommits(open: Position, middle: seq<Call>, close: Position)
    ensures Names([Commit(open)] + middle + [Commit(close)]) == Names(middle)
  {
    NamesConcat([Commit(open)], middle);
    NamesConcat([Commit(open)] + middle, [Commit(close)]);
    NamesOne(Commit(open));
    NamesOne(Commit(close));
  }

  lemma GroupNames(b: Binlog, g: Group)
    requires b.ValidGroup(g)
    ensures var ids := Names(Produced(b, g));
      Distinct(ids) && forall x <- ids :: !x.PgChange? && x.file == b.Name(g.file) && g.start < x.position <= g.end
  {
    hide Names;
    var file := b.Name(g.file);
    match g.body
    case Transaction(compressed, rows) =>
      RowNames(b, g, |rows|);
      NamesConcat(RowsProduced(file, g, rows, |rows|), [TXN_END]);
      NamesOne(TXN_END);
      NamesBetweenCommits(Position(file, g.start), RowsProduced(file, g, rows, |rows|) + [TXN_END],
                          Position(file, if compressed then 0 else g.end));
    case Statement =>
      var ddl := Emit(Emitted(Some(MySqlDdl(file, g.end)), true));
      NamesOne(ddl);
      NamesBetweenCommits(Position(file, g.start), [ddl], Position(file, g.end));
      assert Produced(b, g) == [Commit(Position(file, g.start))] + [ddl] + [Commit(Position(file, g.end))];
    case RotateToNext =>
      NamesOne(Produced(b, g)[0]);
  }

  // ---------------------------------------------------------------------------
  // Every change of a group has a name

  /** The change of index i in a rows event, told from the images alone: a row, or
      a pair of them in an update, is one the bus takes. */
  ghost predicate Takes(e: RowsEvent, i: nat) {
    if e.action == UpdateRows then 2 * i + 1 < |e.rows| && e.rows[2 * i] && e.rows[2 * i + 1]
    else i < |e.rows| && e.rows[i]
  }

  /** How many changes the first k rows events hold. */
  ghost function ChangesBefore(rows: seq<RowsEvent>, k: nat): nat
    requires k <= |rows|
  {
    if k == 0 then 0
    else ChangesBefore(rows, k - 1) + if rows[k - 1].action == UpdateRows then |rows[k - 1].rows| / 2 else |rows[k - 1].rows|
  }

  /** The name of change i in the k-th rows event of a transaction: by the event's
      end, or, when compressed, by its number in the transaction. */
  ghost function ChangeName(b: Binlog, g: Group, k: nat, i: nat): SourceId
    requires b.ValidGroup(g) && g.body.Transaction? && k < |g.body.rows|
  {
    if g.body.compressed then MySqlTxnRow(b.files[g.file], g.gtidEnd, ChangesBefore(g.body.rows, k) + i)
    else MySqlRow(b.files[g.file], g.body.rows[k].logPos, i)
  }

  lemma {:induction false} RowsBeforeAreChanges(rows: seq<RowsEvent>, k: nat)
    requires k <= |rows| && forall i :: 0 <= i < |rows| ==> rows[i].logPos == 0
    ensures RowsBefore(rows, k) == ChangesBefore(rows, k)
  {
    if k == 0 {
    } else {
      RowsBeforeAreChanges(rows, k - 1);
    }
  }

  lemma {:induction false} RowsAreProduced(file: string, g: Group, rows: seq<RowsEvent>, count: nat, k: nat, call: Call)
    requires k < count <= |rows| && call in RowCalls(rows[k], RowNaming(file, g, rows[k], RowsBefore(rows, k)))
    ensures call in RowsProduced(file, g, rows, count)
    decreases count
  {
    if k == count - 1 {
    } else {
      RowsAreProduced(file, g, rows, count - 1, k, call);
    }
  }

  lemma {:induction false} EmittedIsNamed(calls: seq<Call>, id: SourceId)
    requires Emit(Emitted(Some(id), true)) in calls
    ensures id in Names(calls)
    decreases |calls|
  {
    if calls == [] {
    } else {
      var front, last := calls[..|calls| - 1], calls[|calls| - 1];
      if last != Emit(Emitted(Some(id), true)) {
        assert calls == front + [last];
        EmittedIsNamed(front, id);
      }
    }
  }

  lemma ChangeIsCalled(b: Binlog, g: Group, k: nat, i: nat)
    requires b.ValidGroup(g) && g.body.Transaction? && k < |g.body.rows| && Takes(g.body.rows[k], i)
    ensures var rows := g.body.rows;
      Emit(Emitted(Some(ChangeName(b, g, k, i)), true)) in RowCalls(rows[k], RowNaming(b.Name(g.file), g, rows[k], RowsBefore(rows, k)))
  {
    var rows := g.body.rows;
    var e := rows[k];
    var calls := RowCalls(e, RowNaming(b.Name(g.file), g, e, RowsBefore(rows, k)));
    if g.body.compressed {
      RowsBeforeAreChanges(rows, k);
    }
    hide RowsBefore, ChangesBefore;
    assert calls[i] == Emit(Emitted(Some(ChangeName(b, g, k, i)), true));
  }

  /** Every change of a transaction that the bus takes is among its named changes,
      under its own name. */
  lemma EveryChangeIsNamed(b: Binlog, g: Group, k: nat, i: nat)
    requires b.ValidGroup(g) && g.body.Transaction? && k < |g.body.rows| && Takes(g.body.rows[k], i)
    ensures ChangeName(b, g, k, i) in Names(Produced(b, g))
  {
    var rows, file := g.body.rows, b.Name(g.file);
    var call := Emit(Emitted(Some(ChangeName(b, g, k, i)), true));
    ChangeIsCalled(b, g, k, i);
    hide RowCalls, RowNaming, RowsBefore, ChangeName, Names;
    RowsAreProduced(file, g, rows, |rows|, k, call);
    assert call in RowsProduced(file, g, rows, |rows|) + [TXN_END];
    assert call in Produced(b, g);
    EmittedIsNamed(Produced(b, g), ChangeName(b, g, k, i));
  }

  /** A statement is named by where it ends. */
  lemma EveryStatementIsNamed(b: Binlog, g: Group)
    requires b.ValidGroup(g) && g.body.Statement?
    ensures MySqlDdl(b.files[g.file], g.end) in Names(Produced(b, g))
  {
    var call := Emit(Emitted(Some(MySqlDdl(b.files[g.file], g.end)), true));
    assert call == Produced(b, g)[1];
    EmittedIsNamed(Produced(b, g), MySqlDdl(b.files[g.file], g.end));
  }

  function NameRank(b: Binlog, x: SourceId): nat
    requires !x.PgChange?
  {
    Rank(b, Position(x.file, x.position))
  }

  lemma {:induction false} NamesFromDistinct(b: Binlog, i: nat)
    requires b.Valid() && i <= |b.groups|
    ensures var ids := Names(ProducedFrom(b, i));
      Distinct(ids) && forall x <- ids :: !x.PgChange? && i < |b.groups| && NameRank(b, x) > StartRank(b.groups[i])
    decreases |b.groups| - i
  {
    if i == |b.groups| {
    } else {
      var g := b.groups[i];
      NamesFromDistinct(b, i + 1);
      GroupNames(b, g);
      FileNoOf(b.files, g.file);
      NamesConcat(Produced(b, g), ProducedFrom(b, i + 1));
      var here, later := Names(Produced(b, g)), Names(ProducedFrom(b, i + 1));
      if i + 1 < |b.groups| {
        GroupsInOrder(b, i, i + 1);
      }
      forall x <- here, y <- later ensures x != y {
        assert NameRank(b, x) <= g.file * OFFSET_LIMIT + g.end;
        assert NameRank(b, y) > StartRank(b.groups[i + 1]);
      }
      DistinctConcat(here, later);
    }
  }

  /** No two changes of a binlog share a printed id: not the rows of one event,
      not update pairs, not the events of one compressed transaction, not the
      three shapes of id, not different files. */
  lemma AllSourceIdsDiffer(b: Binlog, i: nat, j: nat)
    requires b.Valid() && i < j < |Names(ProducedFrom(b, 0))|
    ensures Print(Names(ProducedFrom(b, 0))[i]) != Print(Names(ProducedFrom(b, 0))[j])
  {
    NamesFromDistinct(b, 0);
    var ids := Names(ProducedFrom(b, 0));
    assert ids[i] in ids && ids[j] in ids;
    if Print(ids[i]) == Print(ids[j]) {
      SourceIdInjective(ids[i], ids[j]);
    }
  }
}
