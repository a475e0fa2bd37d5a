/** The Postgres ack gate: which log position may be confirmed to the primary.

    The gate keeps a short queue of commits that still wait for an ack, merges
    commits that wait on the same event and forgets settled ones. The reference
    next to it keeps the whole log of commits and adopted idle positions and
    recomputes the answer from scratch. The two always agree. */
module PgGate {
  import opened Streams

  type Lsn = nat

  datatype PendingCommit = PendingCommit(lastSequence: nat, end: Lsn)

  datatype Gate = Gate(gated: bool, acked: nat, handed: nat, inTxn: bool,
                       commits: seq<PendingCommit>, confirmable: Lsn)
  {
    /** Without a publisher every handed event counts as acked. */
    function AckedSequence(): nat {
      if gated then acked else handed
    }

    predicate Pending() {
      handed > AckedSequence()
    }

    function Begin(): Gate {
      this.(inTxn := true)
    }

    function Hand(): Gate {
      this.(handed := handed + 1)
    }

    function Unhand(): Gate
      requires handed > 0
    {
      this.(handed := handed - 1)
    }

    function Committed(end: Lsn): Gate {
      this.(inTxn := false, commits := AddCommit(commits, handed, end))
    }

    function NewSession(): Gate {
      this.(inTxn := false)
    }

    function Observe(sequence: nat): Gate {
      if sequence == 0 then this else this.(acked := Max(acked, sequence))
    }

    function Settle(): Gate {
      var k := SettledCount(commits, AckedSequence());
      this.(commits := commits[k..],
            confirmable := Max(confirmable, Confirmed(commits[..k], AckedSequence())))
    }

    /** The second half of Idle; acks may land between it and Settle. */
    function IdleCheck(position: Lsn): Gate {
      if inTxn || |commits| > 0 || Pending() then this
      else this.(confirmable := Max(confirmable, position))
    }

    /** The whole of Idle, with the acks up to `late` landing in the middle. */
    function Idle(position: Lsn, late: nat): Gate {
      Settle().Observe(late).IdleCheck(position)
    }

    function Flush(): Lsn {
      Settle().confirmable
    }
  }

  function NewGate(gated: bool): Gate {
    Gate(gated, 0, 0, false, [], 0)
  }

  /** A commit waiting on the same event as the last entry shares that entry. */
  function AddCommit(commits: seq<PendingCommit>, handed: nat, end: Lsn): seq<PendingCommit> {
    var last := |commits| - 1;
    if last >= 0 && commits[last].lastSequence == handed
    then commits[last := PendingCommit(handed, Max(commits[last].end, end))]
    else commits + [PendingCommit(handed, end)]
  }

  /** How many leading entries are settled. */
  function SettledCount(commits: seq<PendingCommit>, acked: nat): (k: nat)
    ensures k <= |commits|
    ensures forall i :: 0 <= i < k ==> commits[i].lastSequence <= acked
    ensures k < |commits| ==> commits[k].lastSequence > acked
  {
    if commits == [] || commits[0].lastSequence > acked then 0
    else 1 + SettledCount(commits[1..], acked)
  }

  /** The highest end among the commits all of whose events are acked. */
  function Confirmed(log: seq<PendingCommit>, acked: nat): Lsn {
    if log == [] then 0
    else
      var last := log[|log| - 1];
      var before := Confirmed(log[..|log| - 1], acked);
      if last.lastSequence <= acked then Max(before, last.end) else before
  }

  function Highest(positions: seq<Lsn>): Lsn {
    if positions == [] then 0
    else Max(Highest(positions[..|positions| - 1]), positions[|positions| - 1])
  }

  // ---------------------------------------------------------------------------
  // The reference: nothing merged, nothing dropped

  datatype Op =
    | Begin
    | Hand
    | Unhand
    | Commit(end: Lsn)
    | NewSession
    | Ack(sequence: nat)
    | Keepalive(position: Lsn, late: nat)
    | Status

  /** The full history. `open` holds from a hand-off until the listener's next
      own action: only then may that hand-off be taken back. */
  datatype History = History(gated: bool, acked: nat, handed: nat, inTxn: bool, open: bool,
                             log: seq<PendingCommit>, idles: seq<Lsn>)
  {
    function AckedSequence(): nat {
      if gated then acked else handed
    }

    /** Every event handed before any recorded commit is acked. */
    predicate AllSettled() {
      forall i :: 0 <= i < |log| ==> log[i].lastSequence <= AckedSequence()
    }

    function Answer(): Lsn {
      Max(Confirmed(log, AckedSequence()), Highest(idles))
    }

    predicate Allows(op: Op) {
      op.Unhand? ==> open
    }

    function Observe(sequence: nat): History {
      if sequence == 0 then this else this.(acked := Max(acked, sequence))
    }

    function Apply(op: Op): History {
      match op
      case Begin => this.(inTxn := true, open := false)
      case Hand => this.(handed := handed + 1, open := true)
      case Unhand => this.(handed := if handed > 0 then handed - 1 else 0, open := false)
      case Commit(end) => this.(inTxn := false, open := false, log := log + [PendingCommit(handed, end)])
      case NewSession => this.(inTxn := false, open := false)
      case Ack(sequence) => Observe(sequence)
      case Keepalive(position, late) =>
        var after := Observe(late).(open := false);
        if !inTxn && AllSettled() && handed <= after.AckedSequence()
        then after.(idles := idles + [position])
        else after
      case Status => this.(open := false)
    }
  }

  function NewHistory(gated: bool): History {
    History(gated, 0, 0, false, false, [], [])
  }

  function ApplyGate(g: Gate, op: Op): Gate {
    match op
    case Begin => g.Begin()
    case Hand => g.Hand()
    case Unhand => if g.handed > 0 then g.Unhand() else g
    case Commit(end) => g.Committed(end)
    case NewSession => g.NewSession()
    case Ack(sequence) => g.Observe(sequence)
    case Keepalive(position, late) => g.Idle(position, late)
    case Status => g.Settle()
  }

  function RunGate(gated: bool, ops: seq<Op>): Gate {
    if ops == [] then NewGate(gated)
    else ApplyGate(RunGate(gated, ops[..|ops| - 1]), ops[|ops| - 1])
  }

  function RunHistory(gated: bool, ops: seq<Op>): History {
    if ops == [] then NewHistory(gated)
    else RunHistory(gated, ops[..|ops| - 1]).Apply(ops[|ops| - 1])
  }

  ghost predicate Legal(gated: bool, ops: seq<Op>) {
    forall k :: 0 <= k < |ops| ==> RunHistory(gated, ops[..k]).Allows(ops[k])
  }

  // ---------------------------------------------------------------------------
  // The queue's shape

  ghost predicate Increasing(commits: seq<PendingCommit>) {
    forall i, j :: 0 <= i < j < |commits| ==> commits[i].lastSequence < commits[j].lastSequence
  }

  ghost predicate Bounded(commits: seq<PendingCommit>, limit: nat) {
    forall i :: 0 <= i < |commits| ==> commits[i].lastSequence <= limit
  }

  ghost predicate Waiting(commits: seq<PendingCommit>, sequence: nat) {
    exists i :: 0 <= i < |commits| && commits[i].lastSequence == sequence
  }

  // ---------------------------------------------------------------------------
  // The simulation

  /** Queue and history give the same answer now and after any further acks. */
  ghost predicate SameAnswers(g: Gate, h: History) {
    forall a: nat :: a >= g.AckedSequence() ==>
      Max(g.confirmable, Confirmed(g.commits, a)) == Max(Confirmed(h.log, a), Highest(h.idles))
  }

  ghost predicate SameShape(g: Gate, h: History) {
    && g.gated == h.gated && g.acked == h.acked && g.handed == h.handed && g.inTxn == h.inTxn
    && Increasing(g.commits) && Bounded(g.commits, g.handed) && Bounded(h.log, h.handed)
    && (h.open ==> h.handed > 0 && Bounded(g.commits, h.handed - 1) && Bounded(h.log, h.handed - 1))
  }

  /** The queue waits for exactly the unacked events the history waits for. */
  ghost predicate SameWaits(g: Gate, h: History) {
    && (forall i :: 0 <= i < |h.log| ==>
         h.log[i].lastSequence <= g.AckedSequence() || Waiting(g.commits, h.log[i].lastSequence))
    && (forall i :: 0 <= i < |g.commits| ==> Waiting(h.log, g.commits[i].lastSequence))
  }

  ghost predicate Agree(g: Gate, h: History) {
    SameShape(g, h) && SameWaits(g, h) && SameAnswers(g, h)
  }

  lemma {:induction false} ConfirmedConcat(a: seq<PendingCommit>, b: seq<PendingCommit>, acked: nat)
    ensures Confirmed(a + b, acked) == Max(Confirmed(a, acked), Confirmed(b, acked))
    decreases |b|
  {
    if b == [] {
      assert a + b == a;
    } else {
      assert (a + b)[..|a + b| - 1] == a + b[..|b| - 1];
      ConfirmedConcat(a, b[..|b| - 1], acked);
    }
  }

  lemma {:induction false} ConfirmedNone(log: seq<PendingCommit>, acked: nat)
    requires forall i :: 0 <= i < |log| ==> log[i].lastSequence > acked
    ensures Confirmed(log, acked) == 0
  {
    if log == [] {
    } else {
      ConfirmedNone(log[..|log| - 1], acked);
    }
  }

  lemma {:induction false} ConfirmedAll(log: seq<PendingCommit>, a: nat, b: nat)
    requires Bounded(log, a) && Bounded(log, b)
    ensures Confirmed(log, a) == Confirmed(log, b)
  {
    if log == [] {
    } else {
      ConfirmedAll(log[..|log| - 1], a, b);
    }
  }

  lemma ConfirmedAddCommit(commits: seq<PendingCommit>, handed: nat, end: Lsn, a: nat)
    ensures Confirmed(AddCommit(commits, handed, end), a) == Confirmed(commits + [PendingCommit(handed, end)], a)
  {
    var last := |commits| - 1;
    if last >= 0 && commits[last].lastSequence == handed {
      var merged := AddCommit(commits, handed, end);
      assert merged[..last] == commits[..last];
      assert (commits + [PendingCommit(handed, end)])[..last + 1] == commits;
    }
  }

  lemma RestIsUnsettled(commits: seq<PendingCommit>, acked: nat)
    requires Increasing(commits)
    ensures var rest := commits[SettledCount(commits, acked)..];
      forall i :: 0 <= i < |rest| ==> rest[i] in commits && rest[i].lastSequence > acked
  {
    var k := SettledCount(commits, acked);
    forall i | k <= i < |commits| ensures commits[i].lastSequence > acked {
      assert commits[k].lastSequence <= commits[i].lastSequence;
    }
  }

  lemma UnsettledIsRest(commits: seq<PendingCommit>, acked: nat, i: nat)
    requires i < |commits| && commits[i].lastSequence > acked
    ensures commits[i] in commits[SettledCount(commits, acked)..]
  {
    var k := SettledCount(commits, acked);
    assert commits[k..][i - k] == commits[i];
  }

  lemma SettledRest(g: Gate)
    requires Increasing(g.commits)
    ensures var s := g.Settle();
      && Increasing(s.commits)
      && (forall i :: 0 <= i < |s.commits| ==> s.commits[i] in g.commits && s.commits[i].lastSequence > g.AckedSequence())
      && (forall c <- g.commits :: c.lastSequence > g.AckedSequence() ==> c in s.commits)
  {
    RestIsUnsettled(g.commits, g.AckedSequence());
    forall i | 0 <= i < |g.commits| && g.commits[i].lastSequence > g.AckedSequence()
      ensures g.commits[i] in g.Settle().commits
    {
      UnsettledIsRest(g.commits, g.AckedSequence(), i);
    }
  }

  lemma SettledAnswer(g: Gate, a: nat)
    requires a >= g.AckedSequence()
    ensures Max(g.Settle().confirmable, Confirmed(g.Settle().commits, a)) == Max(g.confirmable, Confirmed(g.commits, a))
  {
    var k := SettledCount(g.commits, g.AckedSequence());
    assert g.commits == g.commits[..k] + g.commits[k..];
    ConfirmedConcat(g.commits[..k], g.commits[k..], a);
    ConfirmedAll(g.commits[..k], g.AckedSequence(), a);
  }

  lemma SettleKeepsWaits(g: Gate, h: History)
    requires SameShape(g, h) && SameWaits(g, h)
    ensures SameWaits(g.Settle(), h)
    ensures g.Settle().commits == [] <==> h.AllSettled()
  {
    SettledRest(g);
    var s := g.Settle();
    forall i | 0 <= i < |h.log| && h.log[i].lastSequence > g.AckedSequence()
      ensures Waiting(s.commits, h.log[i].lastSequence)
    {
      var c :| c in g.commits && c.lastSequence == h.log[i].lastSequence;
      assert c in s.commits;
    }
    forall i | 0 <= i < |s.commits| ensures Waiting(h.log, s.commits[i].lastSequence) {
      assert s.commits[i] in g.commits;
    }
    if s.commits != [] {
      assert Waiting(h.log, s.commits[0].lastSequence);
    }
  }

  lemma SettleKeepsShape(g: Gate, h: History)
    requires SameShape(g, h)
    ensures SameShape(g.Settle(), h)
    ensures forall i :: 0 <= i < |g.Settle().commits| ==> g.Settle().commits[i].lastSequence > g.AckedSequence()
  {
    SettledRest(g);
    hide SettledCount, Confirmed;
    var s := g.Settle();
    forall limit: nat | Bounded(g.commits, limit) ensures Bounded(s.commits, limit) {
    }
  }

  lemma SettleKeepsAnswers(g: Gate, h: History)
    requires SameAnswers(g, h)
    ensures SameAnswers(g.Settle(), h)
  {
    hide Confirmed, Highest, SettledCount;
    forall a: nat | a >= g.AckedSequence()
      ensures Max(g.Settle().confirmable, Confirmed(g.Settle().commits, a)) == Max(Confirmed(h.log, a), Highest(h.idles))
    {
      SettledAnswer(g, a);
    }
  }

  /** Nothing queued counts yet, so the settled part is the whole answer. */
  lemma SettledIsTheAnswer(g: Gate, h: History)
    requires SameAnswers(g, h) && h.AckedSequence() == g.AckedSequence()
    requires forall i :: 0 <= i < |g.commits| ==> g.commits[i].lastSequence > g.AckedSequence()
    ensures g.confirmable == h.Answer()
  {
    ConfirmedNone(g.commits, g.AckedSequence());
    hide Confirmed, Highest;
  }

  /** Settling empties exactly the settled part of an increasing queue, and what
      it confirms is what the full history confirms. */
  lemma SettleAgrees(g: Gate, h: History)
    requires Agree(g, h)
    ensures Agree(g.Settle(), h)
    ensures g.Settle().confirmable == h.Answer()
    ensures forall i :: 0 <= i < |g.Settle().commits| ==> g.Settle().commits[i].lastSequence > g.AckedSequence()
    ensures g.Settle().commits == [] <==> h.AllSettled()
  {
    SettleKeepsShape(g, h);
    SettleKeepsWaits(g, h);
    SettleKeepsAnswers(g, h);
    hide SettledCount, Confirmed, SameWaits, SameAnswers, Increasing, Bounded, History.Answer;
    SettledIsTheAnswer(g.Settle(), h);
  }

  lemma CommitKeepsShape(g: Gate, h: History, end: Lsn)
    requires SameShape(g, h)
    ensures SameShape(g.Committed(end), h.Apply(Commit(end)))
  {
  }

  lemma CommitKeepsAnswers(g: Gate, h: History, end: Lsn)
    requires SameAnswers(g, h) && g.handed == h.handed
    ensures SameAnswers(g.Committed(end), h.Apply(Commit(end)))
  {
    hide Confirmed, Highest, AddCommit;
    var g', h' := g.Committed(end), h.Apply(Commit(end));
    forall a: nat | a >= g.AckedSequence()
      ensures Max(g'.confirmable, Confirmed(g'.commits, a)) == Max(Confirmed(h'.log, a), Highest(h'.idles))
    {
      ConfirmedAddCommit(g.commits, g.handed, end, a);
      ConfirmedConcat(g.commits, [PendingCommit(g.handed, end)], a);
      ConfirmedConcat(h.log, [PendingCommit(g.handed, end)], a);
    }
  }

  /** The queue still waits for what it waited for, and now for the last event
      handed; as does the history. */
  lemma AddedWaits(commits: seq<PendingCommit>, handed: nat, end: Lsn, sequence: nat)
    ensures Waiting(AddCommit(commits, handed, end), sequence) <==> sequence == handed || Waiting(commits, sequence)
    ensures Waiting(commits + [PendingCommit(handed, end)], sequence) <==> sequence == handed || Waiting(commits, sequence)
  {
    var merged, longer := AddCommit(commits, handed, end), commits + [PendingCommit(handed, end)];
    assert merged[|merged| - 1].lastSequence == handed && longer[|commits|].lastSequence == handed;
    if Waiting(commits, sequence) {
      var i :| 0 <= i < |commits| && commits[i].lastSequence == sequence;
      assert merged[i].lastSequence == sequence && longer[i].lastSequence == sequence;
    }
    if Waiting(merged, sequence) && sequence != handed {
      var i :| 0 <= i < |merged| && merged[i].lastSequence == sequence;
      assert commits[i].lastSequence == sequence;
    }
  }

  lemma CommitKeepsWaits(g: Gate, h: History, end: Lsn)
    requires SameWaits(g, h) && g.handed == h.handed
    ensures SameWaits(g.Committed(end), h.Apply(Commit(end)))
  {
    var g', h' := g.Committed(end), h.Apply(Commit(end));
    forall i | 0 <= i < |h'.log|
      ensures h'.log[i].lastSequence <= g'.AckedSequence() || Waiting(g'.commits, h'.log[i].lastSequence)
    {
      AddedWaits(g.commits, g.handed, end, h'.log[i].lastSequence);
    }
    forall i | 0 <= i < |g'.commits| ensures Waiting(h'.log, g'.commits[i].lastSequence) {
      var sequence := g'.commits[i].lastSequence;
      assert Waiting(g'.commits, sequence);
      AddedWaits(g.commits, g.handed, end, sequence);
      AddedWaits(h.log, h.handed, end, sequence);
    }
  }

  lemma CommitAgrees(g: Gate, h: History, end: Lsn)
    requires Agree(g, h)
    ensures Agree(g.Committed(end), h.Apply(Commit(end)))
  {
    CommitKeepsShape(g, h, end);
    hide SameWaits, SameAnswers, Gate.Committed, History.Apply;
    CommitKeepsWaits(g, h, end);
    CommitKeepsAnswers(g, h, end);
  }

  lemma UnhandAgrees(g: Gate, h: History)
    requires Agree(g, h) && h.open
    ensures g.handed > 0 && Agree(g.Unhand(), h.Apply(Unhand))
  {
    var g', h' := g.Unhand(), h.Apply(Unhand);
    forall a: nat | a >= g'.AckedSequence()
      ensures Max(g'.confirmable, Confirmed(g'.commits, a)) == Max(Confirmed(h'.log, a), Highest(h'.idles))
    {
      if !g.gated && a == g.handed - 1 {
        ConfirmedAll(g.commits, a, g.handed);
        ConfirmedAll(h.log, a, g.handed);
      }
    }
  }

  lemma ObserveAgrees(g: Gate, h: History, sequence: nat)
    requires Agree(g, h)
    ensures Agree(g.Observe(sequence), h.Observe(sequence))
  {
  }

  lemma IdleAnswers(g: Gate, h: History, position: Lsn)
    requires SameAnswers(g, h)
    ensures SameAnswers(g.(confirmable := Max(g.confirmable, position)), h.(idles := h.idles + [position], open := false))
  {
    var idles := h.idles + [position];
    assert idles[..|idles| - 1] == h.idles;
    assert Highest(idles) == Max(Highest(h.idles), position);
    hide Highest, Confirmed;
  }

  /** A position adopted, or none: the queue and the hand-offs are untouched. */
  lemma IdleKeeps(g: Gate, h: History, confirmable: Lsn, idles: seq<Lsn>)
    requires SameShape(g, h) && SameWaits(g, h)
    ensures SameShape(g.(confirmable := confirmable), h.(idles := idles, open := false))
    ensures SameWaits(g.(confirmable := confirmable), h.(idles := idles, open := false))
  {
    hide Increasing, Bounded, Waiting;
  }

  lemma SameAnswersUnopened(g: Gate, h: History)
    requires SameAnswers(g, h)
    ensures SameAnswers(g, h.(open := false))
  {
    hide Highest, Confirmed;
  }

  lemma IdleCheckAgrees(g: Gate, h: History, position: Lsn, adopt: bool)
    requires Agree(g, h)
    ensures adopt ==> Agree(g.(confirmable := Max(g.confirmable, position)), h.(idles := h.idles + [position], open := false))
    ensures !adopt ==> Agree(g, h.(open := false))
  {
    IdleKeeps(g, h, g.confirmable, h.idles);
    IdleKeeps(g, h, Max(g.confirmable, position), h.idles + [position]);
    IdleAnswers(g, h, position);
    SameAnswersUnopened(g, h);
    hide SameShape, SameWaits, SameAnswers;
  }

  lemma AgreeOnCounts(g: Gate, h: History)
    requires Agree(g, h)
    ensures g.gated == h.gated && g.acked == h.acked && g.handed == h.handed && g.inTxn == h.inTxn
  {
  }

  lemma SettleKeepsCounts(g: Gate)
    ensures g.Settle() == g.(commits := g.Settle().commits, confirmable := g.Settle().confirmable)
  {
  }

  lemma KeepaliveAgrees(g: Gate, h: History, position: Lsn, late: nat)
    requires Agree(g, h)
    ensures Agree(g.Idle(position, late), h.Apply(Keepalive(position, late)))
  {
    hide Agree, Gate.Settle, History.AllSettled;
    AgreeOnCounts(g, h);
    SettleKeepsCounts(g);
    SettleAgrees(g, h);
    ObserveAgrees(g.Settle(), h, late);
    var settled, seen := g.Settle().Observe(late), h.Observe(late);
    var adopt := !settled.inTxn && settled.commits == [] && !settled.Pending();
    IdleCheckAgrees(settled, seen, position, adopt);
  }

  lemma StepAgrees(g: Gate, h: History, op: Op)
    requires Agree(g, h) && h.Allows(op)
    ensures Agree(ApplyGate(g, op), h.Apply(op))
  {
    match op
    case Unhand => UnhandAgrees(g, h);
    case Commit(end) => CommitAgrees(g, h, end);
    case Keepalive(position, late) => KeepaliveAgrees(g, h, position, late);
    case Status => SettleAgrees(g, h);
    case _ =>
  }

  lemma {:induction false} RunsAgree(gated: bool, ops: seq<Op>)
    requires Legal(gated, ops)
    ensures Agree(RunGate(gated, ops), RunHistory(gated, ops))
  {
    if ops == [] {
    } else {
      var front := ops[..|ops| - 1];
      forall k | 0 <= k < |front| ensures RunHistory(gated, front[..k]).Allows(front[k]) {
        assert front[..k] == ops[..k];
      }
      RunsAgree(gated, front);
      StepAgrees(RunGate(gated, front), RunHistory(gated, front), ops[|ops| - 1]);
    }
  }

  // ---------------------------------------------------------------------------
  // Main results about the gate

  /** Over every sequence of hand-offs, refusals, commits (re-streamed ones
      included), acks in any order, reconnects and keepalives, the position the
      gate reports is the highest end of all commits ever recorded whose events
      are all acked, or the highest idle position adopted. */
  lemma FlushIsTheReferenceAnswer(gated: bool, ops: seq<Op>)
    requires Legal(gated, ops)
    ensures RunGate(gated, ops).Flush() == RunHistory(gated, ops).Answer()
  {
    RunsAgree(gated, ops);
    SettleAgrees(RunGate(gated, ops), RunHistory(gated, ops));
  }

  /** The highest of some positions is one of them, and none is higher. */
  lemma {:induction false} HighestIs(positions: seq<Lsn>)
    ensures forall x <- positions :: x <= Highest(positions)
    ensures positions != [] ==> Highest(positions) in positions
    ensures positions == [] ==> Highest(positions) == 0
    decreases |positions|
  {
    if positions == [] {
    } else {
      var front, last := positions[..|positions| - 1], positions[|positions| - 1];
      HighestIs(front);
      assert positions == front + [last];
    }
  }

  lemma {:induction false} ConfirmedIs(log: seq<PendingCommit>, acked: nat)
    ensures forall c <- log :: c.lastSequence <= acked ==> c.end <= Confirmed(log, acked)
    ensures Confirmed(log, acked) == 0 || exists c <- log :: c.lastSequence <= acked && c.end == Confirmed(log, acked)
    decreases |log|
  {
    if log == [] {
    } else {
      var front, last := log[..|log| - 1], log[|log| - 1];
      ConfirmedIs(front, acked);
      assert log == front + [last];
    }
  }

  /** Said without the reference's own functions: what the gate reports is no lower
      than any recorded commit whose events are all acked and any position
      adopted, and it is one of these, or zero. */
  lemma FlushIsTheHighestSettled(gated: bool, ops: seq<Op>)
    requires Legal(gated, ops)
    ensures var flush, h := RunGate(gated, ops).Flush(), RunHistory(gated, ops);
      var acked := if gated then h.acked else h.handed;
      && (forall c <- h.log :: c.lastSequence <= acked ==> c.end <= flush) && (forall x <- h.idles :: x <= flush)
      && (flush == 0 || flush in h.idles || exists c <- h.log :: c.lastSequence <= acked && c.end == flush)
  {
    FlushIsTheReferenceAnswer(gated, ops);
    RunIsGated(gated, ops);
    hide RunGate, RunHistory, Gate.Flush, Confirmed, Highest;
    var h := RunHistory(gated, ops);
    ConfirmedIs(h.log, h.AckedSequence());
    HighestIs(h.idles);
  }

  /** Pending entries stay strictly increasing and, once drained, number at
      most one per handed event still waiting, however many commits arrived. */
  lemma QueueStaysShort(gated: bool, ops: seq<Op>)
    requires Legal(gated, ops)
    ensures Increasing(RunGate(gated, ops).commits)
    ensures var g := RunGate(gated, ops).Settle();
      |g.commits| <= if g.Pending() then g.handed - g.AckedSequence() else 0
  {
    hide RunGate, RunHistory, Gate.Settle, SameWaits, SameAnswers;
    RunsAgree(gated, ops);
    QueueWithin(RunGate(gated, ops), RunHistory(gated, ops));
  }

  lemma QueueWithin(g: Gate, h: History)
    requires Agree(g, h)
    ensures var s := g.Settle(); |s.commits| <= if s.Pending() then s.handed - s.AckedSequence() else 0
  {
    SettleAgrees(g, h);
    SettleKeepsCounts(g);
    hide SameWaits, SameAnswers, Gate.Settle;
    IncreasingWithin(g.Settle().commits, g.AckedSequence(), g.handed);
  }

  lemma {:induction false} IncreasingWithin(commits: seq<PendingCommit>, low: nat, high: nat)
    requires Increasing(commits) && Bounded(commits, high)
    requires forall i :: 0 <= i < |commits| ==> commits[i].lastSequence > low
    ensures |commits| <= if high > low then high - low else 0
  {
    if commits == [] {
    } else {
      var front := commits[..|commits| - 1];
      IncreasingWithin(front, low, commits[|commits| - 1].lastSequence - 1);
    }
  }

  lemma {:induction false} ConfirmedMonotone(log: seq<PendingCommit>, a: nat, b: nat)
    requires a <= b
    ensures Confirmed(log, a) <= Confirmed(log, b)
  {
    if log == [] {
    } else {
      ConfirmedMonotone(log[..|log| - 1], a, b);
    }
  }

  /** A history that grew answers no less. */
  lemma GrownAnswer(h: History, h': History)
    requires h.log <= h'.log && h.idles <= h'.idles
    requires h.AckedSequence() <= h'.AckedSequence() || Bounded(h.log, h'.AckedSequence())
    ensures h.Answer() <= h'.Answer()
  {
    var a, a' := h.AckedSequence(), h'.AckedSequence();
    if a <= a' {
      ConfirmedMonotone(h.log, a, a');
    } else {
      ConfirmedAll(h.log, a, a');
    }
    assert h'.log == h.log + h'.log[|h.log|..];
    ConfirmedConcat(h.log, h'.log[|h.log|..], a');
    HighestOfPrefix(h.idles, h'.idles);
  }

  lemma {:induction false} HighestOfPrefix(a: seq<Lsn>, b: seq<Lsn>)
    requires a <= b
    ensures Highest(a) <= Highest(b)
    decreases |b|
  {
    if |a| == |b| {
      assert a == b;
    } else {
      HighestOfPrefix(a, b[..|b| - 1]);
    }
  }

  lemma StepNeverLowersAnswer(h: History, op: Op)
    requires h.Allows(op) && Bounded(h.log, h.handed)
    requires h.open ==> h.handed > 0 && Bounded(h.log, h.handed - 1)
    ensures h.Answer() <= h.Apply(op).Answer()
  {
    GrownAnswer(h, h.Apply(op));
  }

  /** The reported position never moves back, whatever is streamed again. */
  lemma {:induction false} FlushNeverMovesBack(gated: bool, ops: seq<Op>, k: nat)
    requires Legal(gated, ops) && k <= |ops|
    ensures RunGate(gated, ops[..k]).Flush() <= RunGate(gated, ops).Flush()
    decreases |ops| - k
  {
    hide Gate.Flush, History.Answer, History.Apply, RunGate, Legal;
    assert ops[..|ops|] == ops;
    if k == |ops| {
    } else {
      FlushNeverMovesBack(gated, ops, k + 1);
      LegalPrefix(gated, ops, k);
      LegalPrefix(gated, ops, k + 1);
      RunsAgree(gated, ops[..k]);
      FlushIsTheReferenceAnswer(gated, ops[..k]);
      FlushIsTheReferenceAnswer(gated, ops[..k + 1]);
      assert ops[..k + 1][..k] == ops[..k];
      StepNeverLowersAnswer(RunHistory(gated, ops[..k]), ops[k]);
    }
  }

  lemma LegalPrefix(gated: bool, ops: seq<Op>, k: nat)
    requires Legal(gated, ops) && k <= |ops|
    ensures Legal(gated, ops[..k])
  {
    forall j | 0 <= j < k ensures RunHistory(gated, ops[..k][..j]).Allows(ops[..k][j]) {
      assert ops[..k][..j] == ops[..j];
    }
  }

  /** A keepalive position is adopted exactly when no transaction is open, every
      recorded commit is settled and every event handed so far is acked, even
      with acks landing halfway; the gate then stands at it, or beyond. */
  lemma IdleAdoptsIffCaughtUp(gated: bool, ops: seq<Op>, position: Lsn, late: nat)
    requires Legal(gated, ops)
    ensures var g := RunGate(gated, ops);
      var caughtUp := !g.inTxn && RunHistory(gated, ops).AllSettled() && g.handed <= if gated then Max(g.acked, late) else g.handed;
      g.Idle(position, late).confirmable == if caughtUp then Max(g.Settle().confirmable, position) else g.Settle().confirmable
  {
    RunsAgree(gated, ops);
    RunIsGated(gated, ops);
    hide RunGate, RunHistory, Agree;
    IdleIs(RunGate(gated, ops), RunHistory(gated, ops), position, late);
  }

  lemma IdleIs(g: Gate, h: History, position: Lsn, late: nat)
    requires Agree(g, h)
    ensures var caughtUp := !g.inTxn && h.AllSettled() && g.handed <= if g.gated then Max(g.acked, late) else g.handed;
      g.Idle(position, late).confirmable == if caughtUp then Max(g.Settle().confirmable, position) else g.Settle().confirmable
  {
    SettledIsUnwaited(g, h);
    SettleLeaves(g);
    hide Agree, Gate.Settle, History.AllSettled;
  }

  lemma SettleLeaves(g: Gate)
    ensures g.Settle() == g.(commits := g.Settle().commits, confirmable := g.Settle().confirmable)
  {
  }

  lemma {:induction false} RunIsGated(gated: bool, ops: seq<Op>)
    ensures RunGate(gated, ops).gated == RunHistory(gated, ops).gated == gated
  {
    hide ApplyGate, History.Apply;
    if ops == [] {
    } else {
      var front, last := ops[..|ops| - 1], ops[|ops| - 1];
      RunIsGated(gated, front);
      StepKeepsGated(RunGate(gated, front), RunHistory(gated, front), last);
    }
  }

  lemma StepKeepsGated(g: Gate, h: History, op: Op)
    ensures ApplyGate(g, op).gated == g.gated && h.Apply(op).gated == h.gated
  {
  }

  /** Without a publisher the gate holds nothing back: every commit recorded is
      confirmed. */
  lemma WithoutAPublisher(ops: seq<Op>, k: nat)
    requires Legal(false, ops) && k < |ops| && ops[k].Commit?
    ensures RunGate(false, ops).Flush() >= ops[k].end
  {
    var upTo := ops[..k + 1];
    assert upTo[..k] == ops[..k] && upTo[k] == ops[k];
    LegalPrefix(false, ops, k + 1);
    RunIsGated(false, ops[..k]);
    RunIsGated(false, upTo);
    assert RunHistory(false, upTo).Answer() >= ops[k].end by {
      var h := RunHistory(false, ops[..k]);
      assert RunHistory(false, upTo) == h.Apply(ops[k]);
      assert (h.log + [PendingCommit(h.handed, ops[k].end)])[..|h.log|] == h.log;
    }
    FlushIsTheReferenceAnswer(false, upTo);
    FlushNeverMovesBack(false, ops, k + 1);
  }

  /** The queue empties exactly when every recorded commit is settled. */
  lemma SettledIsUnwaited(g: Gate, h: History)
    requires Agree(g, h)
    ensures g.Settle().commits == [] <==> h.AllSettled()
  {
    hide Agree, Gate.Settle;
    if g.Settle().commits != [] {
      RestWaits(g, h);
    } else if !h.AllSettled() {
      WaitsInRest(g, h);
    }
  }

  lemma RestWaits(g: Gate, h: History)
    requires Agree(g, h) && g.Settle().commits != []
    ensures !h.AllSettled()
  {
    hide SameAnswers, Confirmed, SettledCount;
    RestIsUnsettled(g.commits, g.AckedSequence());
    var first := g.Settle().commits[0];
    assert first in g.commits && first.lastSequence > g.AckedSequence();
    var i :| 0 <= i < |g.commits| && g.commits[i] == first;
    assert Waiting(h.log, first.lastSequence);
    var j :| 0 <= j < |h.log| && h.log[j].lastSequence == first.lastSequence;
  }

  lemma WaitsInRest(g: Gate, h: History)
    requires Agree(g, h) && !h.AllSettled()
    ensures g.Settle().commits != []
  {
    hide SameAnswers, Confirmed, SettledCount, Increasing, Bounded;
    var i :| 0 <= i < |h.log| && h.log[i].lastSequence > h.AckedSequence();
    assert Waiting(g.commits, h.log[i].lastSequence);
    var j :| 0 <= j < |g.commits| && g.commits[j].lastSequence == h.log[i].lastSequence;
    UnsettledIsRest(g.commits, g.AckedSequence(), j);
  }

  // ---------------------------------------------------------------------------
  // The gate as the listener runs it

  /** `acked` is written by the publisher, everything else by the listener. */
  class AckGate {
    var gated: bool
    var acked: nat
    var handed: nat
    var inTxn: bool
    var commits: seq<PendingCommit>
    var confirmable: Lsn
    ghost var history: History

    ghost function Model(): Gate
      reads this
    {
      Gate(gated, acked, handed, inTxn, commits, confirmable)
    }

    ghost predicate Valid()
      reads this
    {
      Agree(Model(), history)
    }

    constructor ()
      ensures Valid() && history == NewHistory(false) && Model() == NewGate(false)
    {
      gated, acked, handed, inTxn, commits, confirmable := false, 0, 0, false, [], 0;
      history := NewHistory(false);
    }

    /** Wired before the listener starts; the gate then agrees with a gated
        history. Turned on later, it would hold back what it already let go. */
    method Enable()
      requires Valid()
      modifies this
      ensures Model() == old(Model()).(gated := true) && history == old(history).(gated := true)
      ensures old(history.log) == [] && old(handed) == 0 ==> Valid()
    {
      gated := true;
      history := history.(gated := true);
    }

    method BeginTransaction()
      requires Valid()
      modifies this
      ensures Valid() && history == old(history).Apply(Begin)
      ensures Model() == old(Model()).Begin()
    {
      inTxn := true;
      history := history.Apply(Begin);
    }

    method HandOver() returns (sequence: nat)
      requires Valid()
      modifies this
      ensures Valid() && history == old(history).Apply(Hand)
      ensures Model() == old(Model()).Hand()
      ensures sequence == old(handed) + 1 == handed
    {
      handed := handed + 1;
      sequence := handed;
      history := history.Apply(Hand);
    }

    method TakeBack()
      requires Valid() && history.open
      modifies this
      ensures Valid() && history == old(history).Apply(Unhand)
      ensures handed == old(handed) - 1 && Model() == old(Model()).(handed := handed)
    {
      UnhandAgrees(Model(), history);
      handed := handed - 1;
      history := history.Apply(Unhand);
    }

    method Committed(end: Lsn)
      requires Valid()
      modifies this
      ensures Valid() && history == old(history).Apply(Commit(end))
      ensures Model() == old(Model()).Committed(end)
    {
      hide Agree;
      CommitAgrees(Model(), history, end);
      inTxn := false;
      var last := |commits| - 1;
      if last >= 0 && commits[last].lastSequence == handed {
        commits := commits[last := commits[last].(end := Max(commits[last].end, end))];
      } else {
        commits := commits + [PendingCommit(handed, end)];
      }
      history := history.Apply(Commit(end));
    }

    method StartSession()
      requires Valid()
      modifies this
      ensures Valid() && history == old(history).Apply(NewSession)
      ensures Model() == old(Model()).NewSession()
    {
      inTxn := false;
      history := history.Apply(NewSession);
    }

    /** The compare-and-swap loop. Between a load and its swap another writer
        may raise the counter; `others` lists those interfering values. */
    method StoreMax(value: nat, others: seq<nat>) returns (raised: nat)
      requires Valid()
      modifies this
      ensures raised <= |others|
      ensures acked == Max(Max(old(acked), value), Highest(others[..raised]))
      ensures Valid() && history == old(history).(acked := acked)
      ensures Model() == old(Model()).(acked := acked)
    {
      raised := 0;
      while true
        invariant 0 <= raised <= |others|
        invariant acked == Max(old(acked), Highest(others[..raised]))
        invariant Model() == old(Model()).(acked := acked)
        invariant history == old(history)
        decreases |others| - raised
      {
        var current := acked;
        if value <= current {
          break;
        }
        if raised < |others| {
          assert others[..raised + 1][..raised] == others[..raised];
          acked := Max(acked, others[raised]);
          raised := raised + 1;
        }
        if acked == current {
          acked := value;
          break;
        }
      }
      history := history.(acked := acked);
    }

    method ObservePublished(sequence: nat)
      requires Valid()
      modifies this
      ensures Valid() && history == old(history).Apply(Ack(sequence))
      ensures Model() == old(Model()).Observe(sequence)
    {
      if sequence == 0 {
        return;
      }
      var _ := StoreMax(sequence, []);
    }

    /** The drain loop, against the function it computes. */
    method Drain()
      modifies this`commits, this`confirmable
      ensures Model() == old(Model()).Settle()
    {
      hide SettledCount;
      var limit := if gated then acked else handed;
      var settled := 0;
      while settled < |commits| && commits[settled].lastSequence <= limit
        invariant 0 <= settled <= |commits|
        invariant commits == old(commits)
        invariant forall i :: 0 <= i < settled ==> commits[i].lastSequence <= limit
        invariant confirmable == Max(old(confirmable), Confirmed(commits[..settled], limit))
      {
        assert commits[..settled + 1][..settled] == commits[..settled];
        assert Confirmed(commits[..settled + 1], limit) == Max(Confirmed(commits[..settled], limit), commits[settled].end);
        confirmable := Max(confirmable, commits[settled].end);
        settled := settled + 1;
      }
      SettledCountIs(commits, limit, settled);
      commits := commits[settled..];
    }

    method Settle()
      requires Valid()
      modifies this`commits, this`confirmable
      ensures Valid() && Model() == old(Model()).Settle()
      ensures confirmable == history.Answer()
      ensures commits == [] <==> history.AllSettled()
      ensures |commits| <= if Model().Pending() then handed - Model().AckedSequence() else 0
    {
      hide Agree, Gate.Settle, History.Answer, History.AllSettled;
      SettleAgrees(Model(), history);
      QueueWithin(Model(), history);
      Drain();
    }

    /** `late` is the sequence acked by the time the pending test runs. */
    method Idle(position: Lsn, late: nat)
      requires Valid()
      modifies this
      ensures Valid() && history == old(history).Apply(Keepalive(position, late))
      ensures Model() == old(Model()).Idle(position, late)
    {
      hide Agree, Gate.Settle, History.Apply;
      SettleKeepsCounts(Model());
      KeepaliveAgrees(Model(), history, position, late);
      history := history.Apply(Keepalive(position, late));
      Drain();
      acked := Max(acked, late);
      if !(inTxn || |commits| > 0 || handed > (if gated then acked else handed)) {
        confirmable := Max(confirmable, position);
      }
    }

    method Flush() returns (position: Lsn)
      requires Valid()
      modifies this
      ensures Valid() && history == old(history)
      ensures Model() == old(Model()).Settle()
      ensures position == confirmable == history.Answer()
    {
      Settle();
      position := confirmable;
    }
  }

  lemma {:induction false} SettledCountIs(commits: seq<PendingCommit>, acked: nat, k: nat)
    requires k <= |commits|
    requires forall i :: 0 <= i < k ==> commits[i].lastSequence <= acked
    requires k < |commits| ==> commits[k].lastSequence > acked
    ensures SettledCount(commits, acked) == k
  {
    if k == 0 {
    } else {
      SettledCountIs(commits[1..], acked, k - 1);
    }
  }
}
