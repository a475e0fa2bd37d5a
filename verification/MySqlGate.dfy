/** The MySQL commit gate: which binlog position may be saved as the offset.

    Three threads meet here: the binlog callbacks hand events and record
    transaction boundaries, the publisher counts acks, the saver asks for the
    newest boundary that may be persisted. An event is counted as handed only
    after the bus took it, so the ack count may run ahead of the hand count.

    The gate keeps a merged, drained queue. The reference keeps every boundary
    ever recorded and answers by looking through all of them. */
module MySqlGate {
  import Cdc
  import SourceIds

  datatype Position = Position(file: string, offset: nat)

  const NOWHERE := Position("", 0)

  /** Where the first event of a binlog file starts. */
  const MIN_OFFSET: nat := 4

  predicate Usable(pos: Position) {
    pos.file != "" && pos.offset >= MIN_OFFSET
  }

  datatype Boundary = Boundary(lastHanded: nat, pos: Position)

  datatype Gate = Gate(gated: bool, acked: nat, handed: nat, commits: seq<Boundary>, confirmable: Position) {
    function Acked(): nat {
      if gated then acked else handed
    }

    function Hand(): Gate {
      this.(handed := handed + 1)
    }

    /** Boundaries waiting on the same events share one entry. */
    function Committed(pos: Position): Gate {
      var last := |commits| - 1;
      if !Usable(pos) then this
      else if last >= 0 && commits[last].lastHanded == handed then
        this.(commits := commits[last := Boundary(handed, pos)])
      else this.(commits := commits + [Boundary(handed, pos)])
    }

    function Observe(): Gate {
      this.(acked := acked + 1)
    }

    function Settle(): Gate {
      var k := SettledCount(commits, Acked());
      this.(commits := commits[k..], confirmable := if k == 0 then confirmable else commits[k - 1].pos)
    }
  }

  function NewGate(gated: bool): Gate {
    Gate(gated, 0, 0, [], NOWHERE)
  }

  function SettledCount(commits: seq<Boundary>, acked: nat): (k: nat)
    ensures k <= |commits|
    ensures forall i :: 0 <= i < k ==> commits[i].lastHanded <= acked
    ensures k < |commits| ==> commits[k].lastHanded > acked
  {
    if commits == [] || commits[0].lastHanded > acked then 0
    else 1 + SettledCount(commits[1..], acked)
  }

  /** The most recently recorded boundary all of whose events are acked. */
  function Newest(fallback: Position, log: seq<Boundary>, acked: nat): Position {
    if log == [] then fallback
    else
      var last := log[|log| - 1];
      if last.lastHanded <= acked then last.pos else Newest(fallback, log[..|log| - 1], acked)
  }

  // ---------------------------------------------------------------------------
  // The reference

  datatype Op = Hand | Record(pos: Position) | Ack | Save

  datatype History = History(gated: bool, acked: nat, handed: nat, log: seq<Boundary>) {
    function Acked(): nat {
      if gated then acked else handed
    }

    function Answer(): Position {
      Newest(NOWHERE, log, Acked())
    }

    function Apply(op: Op): History {
      match op
      case Hand => this.(handed := handed + 1)
      case Record(pos) => if Usable(pos) then this.(log := log + [Boundary(handed, pos)]) else this
      case Ack => this.(acked := acked + 1)
      case Save => this
    }
  }

  function NewHistory(gated: bool): History {
    History(gated, 0, 0, [])
  }

  function ApplyGate(g: Gate, op: Op): Gate {
    match op
    case Hand => g.Hand()
    case Record(pos) => g.Committed(pos)
    case Ack => g.Observe()
    case Save => g.Settle()
  }

  function RunGate(gated: bool, ops: seq<Op>): Gate {
    if ops == [] then NewGate(gated)
    else ApplyGate(RunGate(gated, ops[..|ops| - 1]), ops[|ops| - 1])
  }

  function RunHistory(gated: bool, ops: seq<Op>): History {
    if ops == [] then NewHistory(gated)
    else RunHistory(gated, ops[..|ops| - 1]).Apply(ops[|ops| - 1])
  }

  // ---------------------------------------------------------------------------
  // Agreement

  ghost predicate Increasing(commits: seq<Boundary>) {
    forall i, j :: 0 <= i < j < |commits| ==> commits[i].lastHanded < commits[j].lastHanded
  }

  ghost predicate NonDecreasing(log: seq<Boundary>) {
    forall i, j :: 0 <= i < j < |log| ==> log[i].lastHanded <= log[j].lastHanded
  }

  ghost predicate Bounded(commits: seq<Boundary>, limit: nat) {
    forall i :: 0 <= i < |commits| ==> commits[i].lastHanded <= limit
  }

  /** Queue and history give the same answer now and after any further acks. */
  ghost predicate SameAnswers(g: Gate, h: History) {
    forall a: nat :: a >= g.Acked() ==> Newest(g.confirmable, g.commits, a) == Newest(NOWHERE, h.log, a)
  }

  ghost predicate Agree(g: Gate, h: History) {
    && g.gated == h.gated && g.acked == h.acked && g.handed == h.handed
    && Increasing(g.commits) && Bounded(g.commits, g.handed)
    && NonDecreasing(h.log) && Bounded(h.log, h.handed)
    && SameAnswers(g, h)
  }

  lemma {:induction false} NewestConcat(fallback: Position, a: seq<Boundary>, b: seq<Boundary>, acked: nat)
    ensures Newest(fallback, a + b, acked) == Newest(Newest(fallback, a, acked), b, acked)
    decreases |b|
  {
    if b == [] {
      assert a + b == a;
    } else {
      assert (a + b)[..|a + b| - 1] == a + b[..|b| - 1];
      NewestConcat(fallback, a, b[..|b| - 1], acked);
    }
  }

  lemma {:induction false} NewestNone(fallback: Position, log: seq<Boundary>, acked: nat)
    requires forall i :: 0 <= i < |log| ==> log[i].lastHanded > acked
    ensures Newest(fallback, log, acked) == fallback
  {
    if log == [] {
    } else {
      NewestNone(fallback, log[..|log| - 1], acked);
    }
  }

  /** Overwriting the entry that waits on the same events changes no answer. */
  lemma MergeIsAppend(g: Gate, pos: Position, a: nat)
    requires Usable(pos)
    ensures Newest(g.confirmable, g.Committed(pos).commits, a)
         == Newest(g.confirmable, g.commits + [Boundary(g.handed, pos)], a)
  {
    var last := |g.commits| - 1;
    var appended := g.commits + [Boundary(g.handed, pos)];
    assert appended[..last + 1] == g.commits;
    if last >= 0 && g.commits[last].lastHanded == g.handed {
      assert g.Committed(pos).commits[..last] == g.commits[..last];
    }
  }

  lemma RecordAgrees(g: Gate, h: History, pos: Position)
    requires Agree(g, h)
    ensures Agree(g.Committed(pos), h.Apply(Record(pos)))
  {
    if Usable(pos) {
      var h' := h.Apply(Record(pos));
      forall a: nat | a >= g.Acked()
        ensures Newest(g.confirmable, g.Committed(pos).commits, a) == Newest(NOWHERE, h'.log, a)
      {
        MergeIsAppend(g, pos, a);
        NewestConcat(g.confirmable, g.commits, [Boundary(g.handed, pos)], a);
        NewestConcat(NOWHERE, h.log, [Boundary(g.handed, pos)], a);
      }
    }
  }

  lemma SettledAnswer(g: Gate, a: nat)
    requires a >= g.Acked()
    ensures Newest(g.Settle().confirmable, g.Settle().commits, a) == Newest(g.confirmable, g.commits, a)
  {
    var k := SettledCount(g.commits, g.Acked());
    assert g.commits == g.commits[..k] + g.commits[k..];
    NewestConcat(g.confirmable, g.commits[..k], g.commits[k..], a);
  }

  lemma RestIsUnsettled(g: Gate)
    requires Increasing(g.commits)
    ensures forall i :: 0 <= i < |g.Settle().commits| ==> g.Settle().commits[i].lastHanded > g.Acked()
  {
    var k := SettledCount(g.commits, g.Acked());
    forall i | k <= i < |g.commits| ensures g.commits[i].lastHanded > g.Acked() {
      assert g.commits[k].lastHanded <= g.commits[i].lastHanded;
    }
  }

  lemma SettleKeepsAnswers(g: Gate, h: History)
    requires SameAnswers(g, h)
    ensures SameAnswers(g.Settle(), h)
  {
    hide Newest, SettledCount;
    forall a: nat | a >= g.Acked()
      ensures Newest(g.Settle().confirmable, g.Settle().commits, a) == Newest(NOWHERE, h.log, a)
    {
      SettledAnswer(g, a);
    }
  }

  lemma SettleKeepsShape(g: Gate)
    requires Increasing(g.commits) && Bounded(g.commits, g.handed)
    ensures var s := g.Settle();
      && s == g.(commits := s.commits, confirmable := s.confirmable)
      && Increasing(s.commits) && Bounded(s.commits, s.handed)
      && |s.commits| <= if g.handed > g.Acked() then g.handed - g.Acked() else 0
  {
    RestIsUnsettled(g);
    IncreasingWithin(g.Settle().commits, g.Acked(), g.handed);
  }

  lemma SettleAgrees(g: Gate, h: History)
    requires Agree(g, h)
    ensures Agree(g.Settle(), h)
    ensures g.Settle().confirmable == h.Answer()
    ensures |g.Settle().commits| <= if g.handed > g.Acked() then g.handed - g.Acked() else 0
  {
    RestIsUnsettled(g);
    SettleKeepsShape(g);
    SettleKeepsAnswers(g, h);
    NewestNone(g.Settle().confirmable, g.Settle().commits, g.Acked());
    hide SettledCount, Newest, Gate.Settle, Increasing, Bounded;
  }

  lemma {:induction false} IncreasingWithin(commits: seq<Boundary>, low: nat, high: nat)
    requires Increasing(commits) && Bounded(commits, high)
    requires forall i :: 0 <= i < |commits| ==> commits[i].lastHanded > low
    ensures |commits| <= if high > low then high - low else 0
  {
    if commits == [] {
    } else {
      IncreasingWithin(commits[..|commits| - 1], low, commits[|commits| - 1].lastHanded - 1);
    }
  }

  lemma StepAgrees(g: Gate, h: History, op: Op)
    requires Agree(g, h)
    ensures Agree(ApplyGate(g, op), h.Apply(op))
  {
    match op
    case Record(pos) => RecordAgrees(g, h, pos);
    case Save => SettleAgrees(g, h);
    case _ =>
  }

  lemma {:induction false} RunsAgree(gated: bool, ops: seq<Op>)
    ensures Agree(RunGate(gated, ops), RunHistory(gated, ops))
  {
    if ops == [] {
    } else {
      var front := ops[..|ops| - 1];
      RunsAgree(gated, front);
      StepAgrees(RunGate(gated, front), RunHistory(gated, front), ops[|ops| - 1]);
    }
  }

  // ---------------------------------------------------------------------------
  // Main results

  /** Under every interleaving of callbacks, acks and saves, also while more is
      acked than handed, the gate answers with the newest usable boundary ever
      recorded whose events are all acked, and keeps at most one pending entry
      per event still waiting. */
  lemma ConfirmableIsTheNewestSettledBoundary(gated: bool, ops: seq<Op>)
    ensures var g, h := RunGate(gated, ops), RunHistory(gated, ops);
      && Increasing(g.commits)
      && g.Settle().confirmable == h.Answer()
      && |g.Settle().commits| <= if h.handed > h.Acked() then h.handed - h.Acked() else 0
  {
    RunsAgree(gated, ops);
    SettleAgrees(RunGate(gated, ops), RunHistory(gated, ops));
  }

  /** Binlog order, as any ranking of positions. */
  ghost predicate InOrder(rank: Position -> nat, log: seq<Boundary>) {
    && (forall i :: 0 <= i < |log| ==> rank(NOWHERE) <= rank(log[i].pos))
    && forall i, j :: 0 <= i < j < |log| ==> rank(log[i].pos) <= rank(log[j].pos)
  }

  /** The answer is one of the recorded boundaries, or none. */
  lemma {:induction false} NewestIsRecorded(fallback: Position, log: seq<Boundary>, acked: nat) returns (i: int)
    ensures -1 <= i < |log|
    ensures Newest(fallback, log, acked) == if i < 0 then fallback else log[i].pos
    ensures i >= 0 ==> log[i].lastHanded <= acked
    ensures forall j :: i < j < |log| ==> log[j].lastHanded > acked
  {
    if log == [] {
      i := -1;
    } else if log[|log| - 1].lastHanded <= acked {
      i := |log| - 1;
    } else {
      i := NewestIsRecorded(fallback, log[..|log| - 1], acked);
    }
  }

  lemma LaterAnswersRankHigher(rank: Position -> nat, log: seq<Boundary>, log': seq<Boundary>, a: nat, a': nat)
    requires log <= log' && a <= a' && InOrder(rank, log')
    ensures rank(Newest(NOWHERE, log, a)) <= rank(Newest(NOWHERE, log', a'))
  {
    var i := NewestIsRecorded(NOWHERE, log, a);
    var j := NewestIsRecorded(NOWHERE, log', a');
    if i >= 0 {
      assert log'[i] == log[i];
      assert i <= j;
    }
  }

  lemma {:induction false} HistoryGrows(gated: bool, ops: seq<Op>, k: nat)
    requires k <= |ops|
    ensures RunHistory(gated, ops[..k]).log <= RunHistory(gated, ops).log
    ensures RunHistory(gated, ops[..k]).Acked() <= RunHistory(gated, ops).Acked()
    ensures RunHistory(gated, ops).gated == gated
    decreases |ops|
  {
    if k == |ops| {
      assert ops[..k] == ops;
      if ops != [] {
        HistoryGrows(gated, ops[..|ops| - 1], |ops| - 1);
      }
    } else {
      var front := ops[..|ops| - 1];
      assert ops[..k] == front[..k];
      HistoryGrows(gated, front, k);
    }
  }

  /** Saved offsets never move back in binlog order, although merging
      overwrites a position instead of taking the larger one. */
  lemma ConfirmableNeverMovesBack(gated: bool, ops: seq<Op>, k: nat, rank: Position -> nat)
    requires k <= |ops| && InOrder(rank, RunHistory(gated, ops).log)
    ensures rank(RunGate(gated, ops[..k]).Settle().confirmable) <= rank(RunGate(gated, ops).Settle().confirmable)
  {
    HistoryGrows(gated, ops, k);
    ConfirmableIsTheNewestSettledBoundary(gated, ops[..k]);
    ConfirmableIsTheNewestSettledBoundary(gated, ops);
    LaterAnswersRankHigher(rank, RunHistory(gated, ops[..k]).log, RunHistory(gated, ops).log,
                           RunHistory(gated, ops[..k]).Acked(), RunHistory(gated, ops).Acked());
  }

  // ---------------------------------------------------------------------------
  // The gate as its three threads use it

  /** Each method runs under the gate's mutex; Observe is a single atomic add. */
  // ---------------------------------------------------------------------------
  // Whose acks are counted

  const SOURCE_PREFIX := "mysql:"

  predicate OwnEvent(e: Cdc.Event) {
    SOURCE_PREFIX <= e.sourceId && Cdc.IsPublishable(e.typ)
  }

  /** An event is the gate's own exactly when it is a change named by a place in a
      binlog: not one named by a place in a write-ahead log, and not one without
      a name. */
  lemma OwnIff(e: Cdc.Event)
    ensures forall x: SourceIds.SourceId :: e.sourceId == SourceIds.Print(x) ==> (OwnEvent(e) <==> !Cdc.IsMark(e.typ) && !x.PgChange?)
    ensures e.sourceId == "" || Cdc.IsMark(e.typ) ==> !OwnEvent(e)
  {
    forall x: SourceIds.SourceId | e.sourceId == SourceIds.Print(x) ensures SOURCE_PREFIX <= e.sourceId <==> !x.PgChange? {
      PrefixTells(x);
    }
  }

  lemma PrefixTells(x: SourceIds.SourceId)
    ensures "mysql:" <= SourceIds.Print(x) <==> !x.PgChange?
    ensures SourceIds.Print(x) != ""
  {
    assert SourceIds.Print(x)[0] == if x.PgChange? then 'p' else 'm';
    if !x.PgChange? {
      assert SourceIds.Print(x)[..6] == "mysql:";
    }
  }

  class CommitGate {
    var gated: bool
    var acked: nat
    var handed: nat
    var commits: seq<Boundary>
    var confirmable: Position
    ghost var history: History

    ghost function Model(): Gate
      reads this
    {
      Gate(gated, acked, handed, commits, confirmable)
    }

    ghost predicate Valid()
      reads this
    {
      Agree(Model(), history)
    }

    constructor ()
      ensures Valid() && history == NewHistory(false) && Model() == NewGate(false)
    {
      gated, acked, handed, commits, confirmable := false, 0, 0, [], NOWHERE;
      history := NewHistory(false);
    }

    /** Wired before the listener starts; the gate then agrees with a gated
        history. */
    method Enable()
      requires Valid()
      modifies this
      ensures Model() == old(Model()).(gated := true) && history == old(history).(gated := true)
      ensures old(history.log) == [] && old(handed) == 0 && old(acked) == 0 ==> Valid()
    {
      gated := true;
      history := history.(gated := true);
    }

    method HandOver()
      requires Valid()
      modifies this
      ensures Valid() && history == old(history).Apply(Hand)
      ensures Model() == old(Model()).Hand()
    {
      handed := handed + 1;
      history := history.Apply(Hand);
    }

    method Committed(pos: Position)
      requires Valid()
      modifies this
      ensures Valid() && history == old(history).Apply(Record(pos))
      ensures Model() == old(Model()).Committed(pos)
    {
      hide Agree;
      RecordAgrees(Model(), history, pos);
      history := history.Apply(Record(pos));
      if pos.file == "" || pos.offset < MIN_OFFSET {
        return;
      }
      var last := |commits| - 1;
      if last >= 0 && commits[last].lastHanded == handed {
        commits := commits[last := commits[last].(pos := pos)];
      } else {
        commits := commits + [Boundary(handed, pos)];
      }
    }

    /** Counts an ack of an event a MySQL listener handed over, and no other. */
    method ObservePublished(e: Cdc.Event)
      requires Valid()
      modifies this
      ensures Valid() && history == if OwnEvent(e) then old(history).Apply(Ack) else old(history)
      ensures Model() == if OwnEvent(e) then old(Model()).Observe() else old(Model())
      ensures forall x: SourceIds.SourceId :: e.sourceId == SourceIds.Print(x) && !Cdc.IsMark(e.typ) ==>
        acked == old(acked) + if x.PgChange? then 0 else 1
      ensures e.sourceId == "" || Cdc.IsMark(e.typ) ==> acked == old(acked)
    {
      OwnIff(e);
      if OwnEvent(e) {
        acked := acked + 1;
        history := history.Apply(Ack);
      }
    }

    method Drain()
      modifies this`commits, this`confirmable
      ensures Model() == old(Model()).Settle()
    {
      hide SettledCount;
      var limit := if gated then acked else handed;
      var settled := 0;
      while settled < |commits| && commits[settled].lastHanded <= limit
        invariant 0 <= settled <= |commits|
        invariant commits == old(commits)
        invariant forall i :: 0 <= i < settled ==> commits[i].lastHanded <= limit
        invariant confirmable == if settled == 0 then old(confirmable) else commits[settled - 1].pos
        decreases |commits| - settled
      {
        confirmable := commits[settled].pos;
        settled := settled + 1;
      }
      SettledCountIs(commits, limit, settled);
      commits := commits[settled..];
    }

    method Confirmable() returns (pos: Position, ok: bool)
      requires Valid()
      modifies this`commits, this`confirmable
      ensures Valid() && pos == confirmable == history.Answer()
      ensures Model() == old(Model()).Settle() && history == old(history)
      ensures ok <==> pos.file != ""
      ensures |commits| <= if handed > history.Acked() then handed - history.Acked() else 0
    {
      SettleAgrees(Model(), history);
      Drain();
      pos, ok := confirmable, confirmable.file != "";
    }
  }

  lemma {:induction false} SettledCountIs(commits: seq<Boundary>, acked: nat, k: nat)
    requires k <= |commits|
    requires forall i :: 0 <= i < k ==> commits[i].lastHanded <= acked
    requires k < |commits| ==> commits[k].lastHanded > acked
    ensures SettledCount(commits, acked) == k
  {
    if k == 0 {
    } else {
      SettledCountIs(commits[1..], acked, k - 1);
    }
  }
}
