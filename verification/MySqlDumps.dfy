/** What a backup file does to delivery. With one configured, every start
    overwrites the saved offset with the position the dump was taken at: an older
    dump moves the offset back, which only repeats changes, and a newer one may
    skip changes that were never stored. */
module MySqlDumps {
  import opened SourceIds
  import opened Streams
  import opened MySqlGate
  import opened MySqlHandler
  import opened MySqlBinlog
  import opened MySqlDelivery
  import opened MySqlOrder
  import opened MySqlOversize

  // ---------------------------------------------------------------------------
  // One run

  /** At every moment of the run everything before the offset that fits, or
      strictly everything, is stored. */
  ghost predicate AlwaysKept(env: Env, strict: bool, steps: seq<Step>)
    requires env.Valid()
  {
    forall k :: 0 <= k <= |steps| && Run(env, steps[..k]).Some? ==> Kept(env, strict, steps[..k])
  }

  ghost predicate Kept(env: Env, strict: bool, steps: seq<Step>)
    requires env.Valid() && Run(env, steps).Some?
  {
    var s := Run(env, steps).value;
    Covered(env, s, s.offset, strict)
  }

  /** Every change among the first n that fits is stored. */
  lemma DealtWithIsStored(env: Env, s: State, w: Progress, k: nat)
    requires env.Valid() && Invariant(env, s, w) && k < w.n && k < |Wanted(env)| && env.Fits(Wanted(env)[k])
    ensures MessageOf(env, Wanted(env)[k]) in s.stream
  {
    hide Wanted, WantedStream, Count, ProcessOk, Confirmed, MessageOf;
    FittingPlace(env, k);
    CountNext(env, k);
    CountGrows(env, k + 1, w.n);
    assert WantedStream(env)[..Count(env, w.n)][Count(env, k)] in s.stream;
  }

  lemma OffsetIsCovered(env: Env, s: State, w: Progress)
    requires env.Valid() && Invariant(env, s, w)
    ensures Covered(env, s, s.offset, w.strict)
  {
    hide Wanted, WantedStream, Count, ProcessOk, Need, Good, HoldsPrefix, MessageOf, Overtaken;
    forall k | 0 <= k < |Wanted(env)| && k < Need(env, s.offset) && (w.strict || env.Fits(Wanted(env)[k]))
      ensures MessageOf(env, Wanted(env)[k]) in s.stream
    {
      if w.strict {
        FullCountMeansAllFit(env, Need(env, s.offset), k);
      }
      DealtWithIsStored(env, s, w, k);
    }
  }

  lemma CarefulIsKept(env: Env, strict: bool, steps: seq<Step>)
    requires env.Valid() && Run(env, steps).Some? && Careful(env, strict, steps) && (strict ==> !Overtaken(env))
    ensures Kept(env, strict, steps)
  {
    hide Run, Invariant, Covered, Careful, Overtaken;
    var w := RunOk(env, steps, strict);
    OffsetIsCovered(env, Run(env, steps).value, w);
  }

  lemma {:induction false} PrefixIsCareful(env: Env, strict: bool, steps: seq<Step>, k: nat)
    requires env.Valid() && Careful(env, strict, steps) && k <= |steps|
    ensures Careful(env, strict, steps[..k])
    decreases |steps|
  {
    hide Run, Covered;
    if k == |steps| {
      assert steps[..k] == steps;
    } else {
      var front := steps[..|steps| - 1];
      assert front[..k] == steps[..k];
      PrefixIsCareful(env, strict, front, k);
    }
  }

  /** A start that finds a dump goes on from it, with the stream as it was. */
  lemma StartsFromTheDump(env: Env, front: seq<Step>, step: Step)
    requires env.Valid() && Run(env, front).Some? && Run(env, front + [step]).Some? && DumpOf(step).Some?
    ensures var s, s' := Run(env, front).value, Run(env, front + [step]).value;
      s'.offset == DumpOf(step).value && s'.stream == s.stream
  {
    Append(env, front, step);
    hide Run, NewProcess;
    DumpHasAFile(env, DumpOf(step).value);
  }

  lemma {:induction false} KeptIsCareful(env: Env, strict: bool, steps: seq<Step>)
    requires env.Valid() && Run(env, steps).Some? && AlwaysKept(env, strict, steps)
    ensures Careful(env, strict, steps)
    decreases |steps|
  {
    hide Next;
    if steps == [] {
    } else {
      var n := |steps| - 1;
      var front, last := steps[..n], steps[n];
      forall k | 0 <= k <= n && Run(env, front[..k]).Some? ensures Kept(env, strict, front[..k]) {
        assert front[..k] == steps[..k];
      }
      KeptIsCareful(env, strict, front);
      if DumpOf(last).Some? {
        assert steps[..n + 1] == steps == front + [last];
        StartsFromTheDump(env, front, last);
        SameStreamCovers(env, Run(env, front).value, Run(env, steps).value, DumpOf(last).value, strict);
      }
    }
  }

  lemma SameStreamCovers(env: Env, s: State, s': State, pos: Position, strict: bool)
    requires env.Valid() && s'.stream == s.stream && Covered(env, s', pos, strict)
    ensures Covered(env, s, pos, strict)
  {
    hide Wanted, Need, Good, MessageOf;
  }

  /** In every run: at every moment everything before the offset that fits is
      stored, if and only if at every start that finds a dump everything before
      the dump that fits was stored already. Strictly, with no boundary
      overtaken, the same holds of everything. */
  lemma KeptIff(env: Env, strict: bool, steps: seq<Step>)
    requires env.Valid() && Run(env, steps).Some? && (strict ==> !Overtaken(env))
    ensures AlwaysKept(env, strict, steps) <==> Careful(env, strict, steps)
  {
    hide Run, Careful, Kept, Overtaken;
    if Careful(env, strict, steps) {
      forall k | 0 <= k <= |steps| && Run(env, steps[..k]).Some? ensures Kept(env, strict, steps[..k]) {
        PrefixIsCareful(env, strict, steps, k);
        CarefulIsKept(env, strict, steps[..k]);
      }
    } else if AlwaysKept(env, strict, steps) {
      KeptIsCareful(env, strict, steps);
    }
  }

  // ---------------------------------------------------------------------------
  // One start

  lemma EarlierNeedsLess(env: Env, d: Position, pos: Position)
    requires env.Valid() && Good(env, d) && Good(env, pos) && Rank(env.binlog, d) <= Rank(env.binlog, pos)
    ensures 0 <= Need(env, d) <= Need(env, pos) <= |Wanted(env)|
  {
    hide Names, Rank, ProducedFrom, Calls;
    NeedIsBounded(env, d);
    NeedIsBounded(env, pos);
    FirstAtOrAfterMonotone(env.binlog.groups, Rank(env.binlog, d), Rank(env.binlog, pos));
    NamesAreATail(env, ResumeIndex(env.binlog, d), ResumeIndex(env.binlog, pos));
  }

  /** The change is skipped by going on from the dump: it lies before the dump,
      fits, and is not stored. */
  ghost predicate Skipped(env: Env, s: State, d: Position, k: nat)
    requires env.Valid()
  {
    && k < |Wanted(env)| && k < Need(env, d) && env.Fits(Wanted(env)[k])
    && MessageOf(env, Wanted(env)[k]) !in s.stream
  }

  /** After a careful run a start skips a change if and only if one that is not
      stored lies between the saved offset and the dump; the dump is then the
      newer of the two. */
  lemma SkipsIff(env: Env, steps: seq<Step>, d: Position)
    requires env.Valid() && Run(env, steps).Some? && Careful(env, false, steps) && Good(env, d)
    ensures var s := Run(env, steps).value;
      && ((exists k: nat :: Skipped(env, s, d, k)) <==> exists k: nat :: Need(env, s.offset) <= k && Skipped(env, s, d, k))
      && ((exists k: nat :: Skipped(env, s, d, k)) ==> Rank(env.binlog, d) > Rank(env.binlog, s.offset))
  {
    hide Run, Wanted, Need, Good, Rank, Careful, MessageOf;
    var s := Run(env, steps).value;
    CarefulIsKept(env, false, steps);
    forall k: nat | Skipped(env, s, d, k)
      ensures Need(env, s.offset) <= k && Rank(env.binlog, d) > Rank(env.binlog, s.offset)
    {
      if k < Need(env, s.offset) {
        CoveredAt(env, s, s.offset, false, k);
      }
      if Rank(env.binlog, d) <= Rank(env.binlog, s.offset) {
        EarlierNeedsLess(env, d, s.offset);
      }
    }
  }

  // ---------------------------------------------------------------------------
  // Dumps that are not newer than the offset

  /** Every dump the run finds lies between the initial offset and the offset
      saved at that time. */
  ghost predicate NoNewerDumpFound(env: Env, steps: seq<Step>)
    requires env.Valid() && Run(env, steps).Some?
  {
    if steps == [] then true
    else
      var front, last := steps[..|steps| - 1], steps[|steps| - 1];
      && NoNewerDumpFound(env, front)
      && (DumpOf(last).Some? ==> Good(env, DumpOf(last).value) && Rank(env.binlog, DumpOf(last).value) <= OffsetRank(env, front))
  }

  lemma OlderIsCovered(env: Env, s: State, d: Position, strict: bool)
    requires env.Valid() && Covered(env, s, s.offset, strict) && Good(env, d) && Rank(env.binlog, d) <= Rank(env.binlog, s.offset)
    ensures Covered(env, s, d, strict)
  {
    EarlierNeedsLess(env, d, s.offset);
    hide Wanted, Need, Good, Rank, MessageOf;
  }

  /** Such dumps skip nothing: what was kept before the offset is kept before an
      older dump. */
  lemma {:induction false} NoNewerDumpIsCareful(env: Env, strict: bool, steps: seq<Step>)
    requires env.Valid() && Run(env, steps).Some? && NoNewerDumpFound(env, steps) && (strict ==> !Overtaken(env))
    ensures Careful(env, strict, steps)
  {
    hide Next, Covered, Overtaken, Rank, Good;
    if steps == [] {
    } else {
      var front, last := steps[..|steps| - 1], steps[|steps| - 1];
      NoNewerDumpIsCareful(env, strict, front);
      if DumpOf(last).Some? {
        CarefulIsKept(env, strict, front);
        OlderIsCovered(env, Run(env, front).value, DumpOf(last).value, strict);
      }
    }
  }

  lemma {:induction false} NoDumpFindsNoNewer(env: Env, steps: seq<Step>)
    requires env.Valid() && Run(env, steps).Some? && NoDump([], steps)
    ensures NoNewerDumpFound(env, steps)
    decreases |steps|
  {
    hide Next, Good, Rank;
    if steps == [] {
    } else {
      NoDumpFindsNoNewer(env, steps[..|steps| - 1]);
    }
  }

  /** No run whose dumps are not newer than the offset loses a change, if and only
      if no usable boundary is overtaken. */
  lemma LosslessUnlessNewerIff(env: Env)
    requires env.Valid()
    ensures (forall steps: seq<Step> :: Run(env, steps).Some? && NoNewerDumpFound(env, steps) ==> Lossless(env, Run(env, steps).value))
      <==> !Overtaken(env)
  {
    hide Lossless, OvertakenAt, Run, Calls, NoNewerDumpFound, Careful;
    if Overtaken(env) {
      var i :| 0 <= i < |Calls(env)| && OvertakenAt(env, i);
      var steps := OversizeLoses(env, i);
      NoDumpFindsNoNewer(env, steps);
    } else {
      forall steps: seq<Step> | Run(env, steps).Some? && NoNewerDumpFound(env, steps) ensures Lossless(env, Run(env, steps).value) {
        NoNewerDumpIsCareful(env, true, steps);
        NotOvertakenIsLossless(env, steps);
      }
    }
  }

  // ---------------------------------------------------------------------------
  // Two concrete runs

  /** Two statements, with the dump taken before the first: delivered and saved,
      then restarted, the offset is back where it began. */
  lemma RestartMovesBack() returns (env: Env, steps: seq<Step>, k: nat)
    ensures env.Valid() && Run(env, steps).Some? && k <= |steps| && Run(env, steps[..k]).Some?
    ensures OffsetRank(env, steps) < OffsetRank(env, steps[..k])
  {
    var d := Position("bin", 4);
    TwoStatementEnds();
    env := TwoStatementEnv({d});
    var first := TwoStatementsRun(env);
    hide Run, NewProcess, Rank, FirstAtOrAfter;
    k := |first|;
    steps := first + [Crash] + [Start(Some(d))];
    Append(env, first, Crash);
    Append(env, first + [Crash], Start(Some(d)));
    assert steps[..k] == first;
  }

  /** The dump was taken after both statements, before the first start: neither is
      ever streamed, and the offset lies behind them. */
  lemma NewerDumpSkips() returns (env: Env, steps: seq<Step>)
    ensures env.Valid() && Run(env, steps).Some?
    ensures Skipped(env, Run(env, steps).value, Run(env, steps).value.offset, 0)
  {
    var d := Position("bin", 20);
    TwoStatementEnds();
    env := TwoStatementEnv({d});
    var _ := TwoStatementsRun(env);
    RunsFromInit(env);
    hide Run, NewProcess, FirstAtOrAfter, Wanted, Need;
    steps := [Start(Some(d))];
    Append(env, [], Start(Some(d)));
    assert [] + [Start(Some(d))] == steps;
    assert Wanted(env)[0] in Wanted(env);
  }
}
