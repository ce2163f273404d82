/** Which rows a writer takes, what its tables hold and when its operations answer Ok, told from its
    configuration and the steps of its run and without its own bookkeeping
    (src/Runtime/src/Corpus/BinaryMarketCorpusWriter.cpp). */
module WriterAnswers {
  import opened Records
  import opened Storage
  import opened Formats
  import opened Merge
  import opened Writer
  import opened WriterLedger
  import opened WriterStore
  import opened WriterAppend
  import opened WriterRuns
  import opened Continuity
  import opened Numbers
  import Index
  import SS = SourceState
  import DT = DepthTransaction

  // --- Admission ------------------------------------------------------------------------------------

  /** The rows of a source lead somewhere from its catalog entry on. */
  ghost predicate Replays(x: Source, rows: seq<Record>) {
    SS.AllValid(rows) && SS.Replay(SS.Initial(x), rows, SS.NeverRebase).Some?
  }

  /** The row announces the next source of the catalog, as an absent one. */
  ghost predicate Announces(s: State, r: Record) {
    && r.sourceId == |s.sources| + 1 && |s.sources| < MAXIMUM_SOURCES
    && r.channel == SourceLifecycle && r.payload.LifecycleRow?
    && r.payload.lifecycle.kind == Added && r.payload.lifecycle.previousGeneration == 0
    && Replays(r.payload.lifecycle.source.(initiallyPresent := false), [r])
  }

  /** The row goes on its source's history. */
  ghost predicate ContinuesSource(s: State, H: seq<Record>, r: Record) {
    0 < r.sourceId <= |s.sources| && Replays(s.sources[r.sourceId - 1], OfSource(H, r.sourceId) + [r])
  }

  /** The row goes on its shard's history: in order, and as the depth transactions demand. */
  ghost predicate ContinuesShard(H: seq<Record>, r: Record) {
    var rows := OfShard(H, r.shardIndex) + [r];
    DT.Sorted(rows) && DT.Replay(rows).Some?
  }

  /** A row that a live writer with history H takes if it has the bytes for it. */
  ghost predicate Admissible(s: State, H: seq<Record>, r: Record) {
    && s.active && (s.replayAnchorFrozen ==> r.receiveMonotonicNs >= s.manifest.replayAnchorMonotonicNs)
    && ValidRecord(r) && r.tailZero && r.shardIndex < |s.segments|
    && ContinuesShard(H, r) && (ContinuesSource(s, H, r) || Announces(s, r))
  }

  lemma {:induction false} OrderExact(g: Segment, rows: seq<Record>, n: nat, sources: nat, t: DT.Transaction, r: Record)
    requires StreamOk(rows, n, sources, g, t) && ValidRecord(r)
    ensures InOrder(g, r) <==> DT.Sorted(rows + [r])
  {
    var more := rows + [r];
    assert forall i :: 0 <= i < |rows| ==> more[i] == rows[i];
    if rows != [] {
      assert ValidRecord(rows[|rows| - 1]);
      if DT.Sorted(more) { assert more[|rows| - 1].shardSequence < more[|rows|].shardSequence; }
    }
  }

  lemma {:induction false} ShardExact(c: Codec, s: State, H: seq<Record>, r: Record)
    requires StoreOk(c, s) && |s.sources| == |s.sourceStates| && HistoryOk(c, s, H)
    requires ValidRecord(r) && r.shardIndex < |s.segments|
    ensures InOrder(s.segments[r.shardIndex], r) <==> DT.Sorted(OfShard(H, r.shardIndex) + [r])
    ensures DT.Replay(OfShard(H, r.shardIndex) + [r]) == DT.Advance(r, s.depth[r.shardIndex])
  {
    var n := r.shardIndex as nat;
    assert StreamAt(c, s, n) && ShardAt(c, s, H, n);
    OrderExact(s.segments[n], OfShard(H, n), n, |s.sources|, s.depth[n], r);
    DT.ReplayAppend(OfShard(H, n), r);
  }

  lemma {:induction false} SourceExact(s: State, H: seq<Record>, r: Record)
    requires 0 < r.sourceId <= |s.sources| == |s.sourceStates| && ValidRecord(r) && SourceAt(s, H, r.sourceId - 1)
    ensures Replays(s.sources[r.sourceId - 1], OfSource(H, r.sourceId) + [r])
            <==> SS.Advance(r, s.sourceStates[r.sourceId - 1], false).Some?
  {
    SS.ReplayAppend(SS.Initial(s.sources[r.sourceId - 1]), OfSource(H, r.sourceId), r, SS.NeverRebase);
  }

  lemma {:induction false} AnnouncedExact(x: Source, r: Record)
    requires ValidRecord(r)
    ensures Replays(x, [r]) <==> SS.Advance(r, SS.Initial(x), false).Some?
  {
    SS.ReplayAppend(SS.Initial(x), [], r, SS.NeverRebase);
    assert [] + [r] == [r];
  }

  /** The lifecycle lets the row in. */
  ghost predicate SourceTakes(s: State, r: Record)
    requires |s.sources| == |s.sourceStates| && ValidRecord(r)
  {
    if r.sourceId <= |s.sources| then SS.Advance(r, s.sourceStates[r.sourceId - 1], false).Some?
    else
      && r.sourceId == |s.sources| + 1 && |s.sources| < MAXIMUM_SOURCES && r.channel == SourceLifecycle
      && r.payload.lifecycle.kind == Added && r.payload.lifecycle.previousGeneration == 0
      && SS.Advance(r, SS.Initial(r.payload.lifecycle.source.(initiallyPresent := false)), false).Some?
  }

  lemma {:induction false} JudgeParts(s: State, r: Record)
    requires Shape(s) && |s.sources| == |s.sourceStates|
    ensures Judge(s, r).Accept? <==>
            && s.active && (s.replayAnchorFrozen ==> r.receiveMonotonicNs >= s.manifest.replayAnchorMonotonicNs)
            && ValidRecord(r) && r.tailZero && r.shardIndex < |s.segments|
            && DT.Advance(r, s.depth[r.shardIndex]).Some? && InOrder(s.segments[r.shardIndex], r) && SourceTakes(s, r)
  {
  }

  lemma {:induction false} TakesExactly(s: State, H: seq<Record>, r: Record)
    requires |s.sources| == |s.sourceStates| && ValidRecord(r)
    requires r.sourceId <= |s.sources| ==> SourceAt(s, H, r.sourceId - 1)
    ensures SourceTakes(s, r) <==> ContinuesSource(s, H, r) || Announces(s, r)
  {
    if r.sourceId <= |s.sources| {
      SourceExact(s, H, r);
    } else if r.sourceId == |s.sources| + 1 && r.channel == SourceLifecycle {
      AnnouncedExact(r.payload.lifecycle.source.(initiallyPresent := false), r);
    }
  }

  lemma {:induction false} JudgeExact(c: Codec, s: State, H: seq<Record>, r: Record)
    requires Inv(c, s, H)
    ensures Judge(s, r).Accept? <==> Admissible(s, H, r)
  {
    JudgeParts(s, r);
    if ValidRecord(r) && r.shardIndex < |s.segments| {
      ShardExact(c, s, H, r);
      if r.sourceId <= |s.sources| { assert SourceAt(s, H, r.sourceId - 1); }
      TakesExactly(s, H, r);
    }
  }

  /** Over every run: the writer's checks admit a row if and only if it is valid, the rows accepted
      of its shard stay in order and within the transaction rules with it, and the rows accepted of
      its source stay within the lifecycle rules, or it properly announces a new source. */
  lemma {:induction false} AdmittedExactly(
      c: Codec, l: Layout, g: Config, ms: seq<Moment>, steps: seq<Step>, n: nat, r: Record)
    requires Lawful(c) && IsRun(c, l, g, ms, steps) && n <= |steps|
    ensures Shape(ms[n].state) && (Judge(ms[n].state, r).Accept? <==> Admissible(ms[n].state, ms[n].accepted, r))
  {
    RunInv(c, l, g, ms, steps, n);
    JudgeExact(c, ms[n].state, ms[n].accepted, r);
  }

  // --- Bytes ----------------------------------------------------------------------------------------

  /** The limit leaves no room for the most a row can need. */
  ghost predicate NoRoom(c: Codec, s: State, newSource: bool) {
    s.projectedBytes + MostBytes(c, newSource) > s.writeLimitBytes
  }

  /** Everything taken so far is in blocks, or the row is beyond the 64-bit counters anyway. */
  ghost predicate WrittenUp(c: Codec, s: State, newSource: bool) {
    || (forall n :: 0 <= n < |s.segments| ==> s.segments[n].pending == [])
    || s.cutReservedBytes + CutGrowth(newSource) > U64_MAX || MostBytes(c, newSource) > U64_MAX
  }

  /** Why an admissible row is refused: the segment counter is used up, or there is no room for it
      although everything pending was written out first. */
  ghost predicate Exhausted(c: Codec, t: State, newSource: bool) {
    t.nextSegmentNumber == U32_MAX || (NoRoom(c, t, newSource) && WrittenUp(c, t, newSource))
  }

  lemma {:induction false} NeedsWithin(c: Codec, p: Plan, newSource: bool)
    ensures RequiredBytes(c, p, newSource) <= MostBytes(c, newSource) && CutGrowth(newSource) <= MostBytes(c, newSource)
  {
  }

  lemma {:induction false} BeyondCounters(c: Codec, s: State, p: Plan, newSource: bool)
    requires Ledger(c, s) && Unrepresentable(c, s, p, newSource)
    ensures Exhausted(c, s, newSource)
  {
    CutWithinProjection(c, s);
    NeedsWithin(c, p, newSource);
  }

  lemma {:induction false} FlushedFull(c: Codec, s: State, p: Plan, newSource: bool, f: State)
    requires |s.segments| <= 0x1_0000 && Ledger(c, s) && ClosedEmpty(s) && FlushAll(c, s, |s.segments|) == Some(f)
    requires !AddWithin(f.projectedBytes, RequiredBytes(c, p, newSource), s.writeLimitBytes)
    ensures Exhausted(c, f.(quotaReached := true), newSource)
  {
    FlushAllFrame(c, s, |s.segments|);
    NeedsWithin(c, p, newSource);
  }

  lemma {:induction false} ReserveExact(c: Codec, s: State, r: Record, v: Verdict)
    requires Shape(s) && Positioned(s) && |s.segments| <= 0x1_0000 && Admitted(s, r, v) && Ledger(c, s)
    requires ClosedEmpty(s) && ReserveRow(c, s, r, v).Done?
    ensures var o := ReserveRow(c, s, r, v);
            o.status == Ok || (o.status == OutOfRange && Exhausted(c, o.state, v.added.Some?))
  {
    var p := PlanOf(c, s, r);
    if Unrepresentable(c, s, p, v.added.Some?) {
      BeyondCounters(c, s, p, v.added.Some?);
    } else if ReserveRow(c, s, r, v).status != Ok {
      FlushedFull(c, s, p, v.added.Some?, FlushAll(c, s, |s.segments|).value);
    }
  }

  lemma {:induction false} AcceptedOutcome(c: Codec, s: State, r: Record)
    requires Shape(s) && Positioned(s) && |s.segments| <= 0x1_0000 && Ledger(c, s) && ClosedEmpty(s)
    requires Judge(s, r).Accept? && Append(c, s, r).Done?
    ensures var o := Append(c, s, r);
            o.status == Ok || (o.status == OutOfRange && Exhausted(c, o.state, r.sourceId == |s.sources| + 1))
  {
    JudgeAdmits(s, r);
    if MustFlush(s.segments[r.shardIndex], r) {
      FlushKeepsLedger(c, s, r.shardIndex as nat);
      FlushBlockFrame(c, s, r.shardIndex as nat);
      ReserveExact(c, FlushBlock(c, s, r.shardIndex as nat).value, r, Judge(s, r));
    } else {
      ReserveExact(c, s, r, Judge(s, r));
    }
  }

  /** One append: a row that is not admissible changes nothing; one that is gets taken, or is refused
      for want of room. */
  lemma {:induction false} AppendExact(c: Codec, s: State, H: seq<Record>, r: Record)
    requires Lawful(c) && Inv(c, s, H) && Ready(s) && Append(c, s, r).Done?
    ensures var o := Append(c, s, r);
            && (!Admissible(s, H, r) ==> o.status != Ok && o.state == s)
            && (Admissible(s, H, r) ==>
                  || o.status == Ok
                  || (o.status == OutOfRange && Exhausted(c, o.state, r.sourceId == |s.sources| + 1)))
  {
    JudgeExact(c, s, H, r);
    InvClosedEmpty(c, s);
    if Judge(s, r).Accept? { AcceptedOutcome(c, s, r); } else { RejectIsError(s, r); }
  }

  lemma {:induction false} RejectIsError(s: State, r: Record)
    requires Shape(s) && Judge(s, r).Reject?
    ensures Judge(s, r).status != Ok
  {
  }

  /** Over every run: an append step takes its row if it is admissible, unless room ran out, and
      otherwise changes nothing at all. */
  lemma {:induction false} TakenExactly(c: Codec, l: Layout, g: Config, ms: seq<Moment>, steps: seq<Step>, n: nat)
    requires Lawful(c) && IsRun(c, l, g, ms, steps) && n < |steps| && steps[n].AppendRow?
    ensures var m, r, m' := ms[n], steps[n].record, ms[n + 1];
            && (!Admissible(m.state, m.accepted, r) ==> m' == m)
            && (Admissible(m.state, m.accepted, r) ==>
                  || m'.accepted == m.accepted + [r]
                  || (m'.accepted == m.accepted && Exhausted(c, m'.state, r.sourceId == |m.state.sources| + 1)))
  {
    RunInv(c, l, g, ms, steps, n);
    assert StepAt(c, l, ms, steps, n);
    AppendExact(c, ms[n].state, ms[n].accepted, steps[n].record);
  }

  // === What the tables hold ==================================================================================

  // --- What a step leaves alone -------------------------------------------------------------------------

  /** Only the step made for a table changes it. */
  ghost predicate Spares(s: State, t: State, step: Step) {
    && (!step.AddGap? ==> t.gaps == s.gaps) && (!step.Progressed? ==> t.progress == s.progress)
    && (!step.Reference? ==> t.referencePayload == s.referencePayload)
    && (!step.Register? && !step.AppendRow? ==> t.sources == s.sources)
  }

  lemma {:induction false} RegisterSpares(c: Codec, s: State, incoming: seq<Source>)
    requires StoreOk(c, s)
    ensures Spares(s, RegisterSources(s, incoming).state, Register(incoming))
  {
    RegisterQuiet(c, s, incoming);
  }

  lemma {:induction false} AppendSpares(c: Codec, s: State, H: seq<Record>, r: Record)
    requires Lawful(c) && Inv(c, s, H) && Ready(s) && Append(c, s, r).Done?
    ensures Spares(s, Append(c, s, r).state, AppendRow(r))
  {
    AppendRefinesStreams(c, s, r);
  }

  lemma {:induction false} GapSpares(s: State, g: Gap)
    ensures Spares(s, AppendGap(s, g).state, AddGap(g))
  {
  }

  lemma {:induction false} ProgressSpares(s: State, p: Progress)
    requires Ready(s)
    ensures Spares(s, UpdateProgress(s, p).state, Progressed(p))
  {
  }

  lemma {:induction false} ReferenceSpares(s: State, payload: seq<u8>)
    ensures Spares(s, SetReferencePayload(s, payload).state, Reference(payload))
    ensures Spares(s, BeginFinalDrain(s).state, Drain)
  {
  }

  lemma {:induction false} PublishSpares(c: Codec, s: State, H: seq<Record>, now: u64)
    requires Lawful(c) && Inv(c, s, H) && PublishCut(c, s, now).Done?
    ensures Spares(s, PublishCut(c, s, now).state, Publish(now))
  {
    PublishOutcome(c, s, H, now);
    if s.active && s.cutGeneration != U64_MAX { FlushAllKeeps(c, s, H); }
  }

  lemma {:induction false} FinalizeSpares(
      c: Codec, l: Layout, s: State, H: seq<Record>, reason: StopReason, at: i64, now: u64)
    requires Lawful(c) && Inv(c, s, H) && Finalize(c, l, s, reason, at, now).Done?
    ensures Spares(s, Finalize(c, l, s, reason, at, now).state, Seal(reason, at, now))
  {
    if s.active && at > 0 && !exists n :: 0 <= n < |s.depth| && s.depth[n].Open? {
      var u := SealAll(c, s, |s.segments|).value;
      SealAllKeeps(c, s, H);
      ManifestKeeps(c, l, u, H, reason, at);
      PublishSpares(c, u.(manifest := FinalManifest(c, l, u, reason, at)), H, now);
    }
  }

  lemma {:induction false} StepSpares(c: Codec, l: Layout, s: State, H: seq<Record>, step: Step)
    requires Lawful(c) && Inv(c, s, H) && Ready(s) && Apply(c, l, s, step).Done?
    ensures Spares(s, Apply(c, l, s, step).state, step)
  {
    match step
    case Register(sources) => RegisterSpares(c, s, sources);
    case AppendRow(r) => AppendSpares(c, s, H, r);
    case AddGap(g) => GapSpares(s, g);
    case Progressed(p) => ProgressSpares(s, p);
    case Reference(payload) => ReferenceSpares(s, payload);
    case Publish(now) => PublishSpares(c, s, H, now);
    case Drain => ReferenceSpares(s, []);
    case Seal(reason, at, now) => FinalizeSpares(c, l, s, H, reason, at, now);
  }

  /** Step i of the run was answered Ok. */
  ghost predicate Answered(c: Codec, l: Layout, ms: seq<Moment>, steps: seq<Step>, i: int) {
    && 0 <= i < |steps| && |ms| == |steps| + 1 && Ready(ms[i].state)
    && Apply(c, l, ms[i].state, steps[i]).Done? && Apply(c, l, ms[i].state, steps[i]).status == Ok
  }

  // --- Gaps -----------------------------------------------------------------------------------------------

  /** The gaps reported by the first n steps and answered Ok, in order. */
  ghost function Reports(c: Codec, l: Layout, ms: seq<Moment>, steps: seq<Step>, n: nat): seq<Gap>
    requires n <= |steps|
    decreases n
  {
    if n == 0 then []
    else
      Reports(c, l, ms, steps, n - 1)
      + (if steps[n - 1].AddGap? && Answered(c, l, ms, steps, n - 1) then [steps[n - 1].gap] else [])
  }

  /** Report k is the last one of its source and channel. */
  ghost predicate LastReport(reports: seq<Gap>, k: int) {
    0 <= k < |reports| && forall j :: k < j < |reports| ==> !SameCell(reports[j], reports[k])
  }

  /** The table holds the last report of every source and channel reported, each once, and nothing else. */
  ghost predicate GapTable(gaps: seq<Gap>, reports: seq<Gap>) {
    UniqueCells(gaps) && forall x :: x in gaps <==> exists k :: LastReport(reports, k) && reports[k] == x
  }

  lemma {:induction false} LastReportMore(reports: seq<Gap>, g: Gap, k: int)
    ensures LastReport(reports + [g], k) <==>
            k == |reports| || (LastReport(reports, k) && !SameCell(g, reports[k]))
  {
    var more := reports + [g];
    assert more[|reports|] == g && forall i :: 0 <= i < |reports| ==> more[i] == reports[i];
    if LastReport(more, k) && k < |reports| {
      assert !SameCell(more[|reports|], more[k]);
      assert forall j :: k < j < |reports| ==> !SameCell(more[j], more[k]);
    }
  }

  /** Whether a gap is in the table once one more report has come. */
  lemma {:induction false} ReportedMore(reports: seq<Gap>, g: Gap, x: Gap)
    ensures (exists k :: LastReport(reports + [g], k) && (reports + [g])[k] == x) <==>
            x == g || (!SameCell(g, x) && exists k :: LastReport(reports, k) && reports[k] == x)
  {
    var more := reports + [g];
    assert more[|reports|] == g && forall i :: 0 <= i < |reports| ==> more[i] == reports[i];
    if k :| LastReport(more, k) && more[k] == x { LastReportMore(reports, g, k); }
    if x == g {
      LastReportMore(reports, g, |reports|);
      assert LastReport(more, |reports|) && more[|reports|] == x;
    } else if !SameCell(g, x) {
      if k :| LastReport(reports, k) && reports[k] == x {
        LastReportMore(reports, g, k);
        assert LastReport(more, k) && more[k] == x;
      }
    }
  }

  lemma {:induction false} TableReplaces(gaps: seq<Gap>, g: Gap, i: nat, x: Gap)
    requires UniqueCells(gaps) && i < |gaps| && SameCell(gaps[i], g)
    ensures x in gaps[i := g] <==> x == g || (!SameCell(g, x) && x in gaps)
  {
    var after := gaps[i := g];
    assert after[i] == g;
    if x in gaps && !SameCell(g, x) {
      var j :| 0 <= j < |gaps| && gaps[j] == x;
      assert after[j] == x;
    }
    if x in after && x != g {
      var j :| 0 <= j < |after| && after[j] == x;
      assert gaps[j] == x && j != i;
      assert j < i ==> !SameCell(gaps[j], gaps[i]);
      assert i < j ==> !SameCell(gaps[i], gaps[j]);
    }
  }

  lemma {:induction false} TableAdds(gaps: seq<Gap>, g: Gap, x: Gap)
    requires forall j :: 0 <= j < |gaps| ==> !SameCell(gaps[j], g)
    ensures x in gaps + [g] <==> x == g || (!SameCell(g, x) && x in gaps)
  {
    assert (gaps + [g])[|gaps|] == g;
    if x in gaps {
      var j :| 0 <= j < |gaps| && gaps[j] == x;
      assert !SameCell(gaps[j], g);
    }
  }

  lemma {:induction false} TableMore(s: State, reports: seq<Gap>, g: Gap)
    requires GapTable(s.gaps, reports) && AppendGap(s, g).Done? && AppendGap(s, g).status == Ok
    requires UniqueCells(AppendGap(s, g).state.gaps)
    ensures GapTable(AppendGap(s, g).state.gaps, reports + [g])
  {
    var after := AppendGap(s, g).state.gaps;
    var i := FindCell(s.gaps, g);
    forall x
      ensures x in after <==> exists k :: LastReport(reports + [g], k) && (reports + [g])[k] == x
    {
      ReportedMore(reports, g, x);
      if i < |s.gaps| { TableReplaces(s.gaps, g, i, x); } else { TableAdds(s.gaps, g, x); }
    }
  }

  lemma {:induction false} GapRefused(s: State, g: Gap)
    requires AppendGap(s, g).Done? && AppendGap(s, g).status != Ok
    ensures AppendGap(s, g).state.gaps == s.gaps
  {
  }

  lemma {:induction false} RunSpares(c: Codec, l: Layout, g: Config, ms: seq<Moment>, steps: seq<Step>, i: nat)
    requires Lawful(c) && IsRun(c, l, g, ms, steps) && i < |steps|
    ensures Ready(ms[i].state) && Apply(c, l, ms[i].state, steps[i]).Done?
    ensures ms[i + 1].state == Apply(c, l, ms[i].state, steps[i]).state
    ensures Spares(ms[i].state, ms[i + 1].state, steps[i])
  {
    RunInv(c, l, g, ms, steps, i);
    assert StepAt(c, l, ms, steps, i);
    StepSpares(c, l, ms[i].state, ms[i].accepted, steps[i]);
  }

  lemma {:induction false} RunCells(c: Codec, l: Layout, g: Config, ms: seq<Moment>, steps: seq<Step>, n: nat)
    requires Lawful(c) && IsRun(c, l, g, ms, steps) && n <= |steps|
    ensures UniqueCells(ms[n].state.gaps)
  {
    RunInv(c, l, g, ms, steps, n);
  }

  lemma {:induction false} StartsEmpty(c: Codec, l: Layout, g: Config, ms: seq<Moment>, steps: seq<Step>)
    requires IsRun(c, l, g, ms, steps)
    ensures ms[0].state.gaps == [] && ms[0].state.referencePayload == []
    ensures ms[0].state.progress == FirstProgress(g)
  {
  }

  /** The gap table of every reachable state holds, for each source and channel, the last gap reported and
      answered Ok, and no other gap. */
  lemma {:induction false} GapsOverRuns(c: Codec, l: Layout, g: Config, ms: seq<Moment>, steps: seq<Step>, n: nat)
    requires Lawful(c) && IsRun(c, l, g, ms, steps) && n <= |steps|
    ensures GapTable(ms[n].state.gaps, Reports(c, l, ms, steps, n))
    decreases n
  {
    if n == 0 {
      StartsEmpty(c, l, g, ms, steps);
    } else {
      GapsOverRuns(c, l, g, ms, steps, n - 1);
      RunSpares(c, l, g, ms, steps, n - 1);
      RunCells(c, l, g, ms, steps, n);
      ReportsStep(c, l, ms, steps, n);
    }
  }

  lemma {:induction false} ReportsStep(c: Codec, l: Layout, ms: seq<Moment>, steps: seq<Step>, n: nat)
    requires 0 < n <= |steps| && |ms| == |steps| + 1 && Ready(ms[n - 1].state)
    requires Apply(c, l, ms[n - 1].state, steps[n - 1]).Done?
    requires ms[n].state == Apply(c, l, ms[n - 1].state, steps[n - 1]).state && UniqueCells(ms[n].state.gaps)
    requires !steps[n - 1].AddGap? ==> ms[n].state.gaps == ms[n - 1].state.gaps
    requires GapTable(ms[n - 1].state.gaps, Reports(c, l, ms, steps, n - 1))
    ensures GapTable(ms[n].state.gaps, Reports(c, l, ms, steps, n))
  {
    var before := Reports(c, l, ms, steps, n - 1);
    assert before + [] == before;
    if steps[n - 1].AddGap? {
      if Answered(c, l, ms, steps, n - 1) {
        TableMore(ms[n - 1].state, before, steps[n - 1].gap);
      } else {
        GapRefused(ms[n - 1].state, steps[n - 1].gap);
      }
    }
  }

  /** Gap x reports no less than the last report of its source and channel. */
  ghost predicate ReportsMore(reports: seq<Gap>, x: Gap) {
    forall k :: LastReport(reports, k) && SameCell(reports[k], x) ==> reports[k].gapEpoch <= x.gapEpoch
  }

  lemma {:induction false} EpochExact(gaps: seq<Gap>, reports: seq<Gap>, x: Gap)
    requires GapTable(gaps, reports)
    ensures var i := FindCell(gaps, x);
            (i < |gaps| ==> gaps[i].gapEpoch <= x.gapEpoch) <==>
            ReportsMore(reports, x)
  {
    var i := FindCell(gaps, x);
    if i < |gaps| {
      assert gaps[i] in gaps;
      var h :| LastReport(reports, h) && reports[h] == gaps[i];
      forall k | LastReport(reports, k) && SameCell(reports[k], x)
        ensures reports[k] == gaps[i]
      {
        assert reports[k] in gaps;
        var j :| 0 <= j < |gaps| && gaps[j] == reports[k];
        assert i < j ==> !SameCell(gaps[i], gaps[j]);
      }
    } else {
      forall k | LastReport(reports, k)
        ensures !SameCell(reports[k], x)
      {
        assert reports[k] in gaps;
        var j :| 0 <= j < |gaps| && gaps[j] == reports[k];
      }
    }
  }

  lemma {:induction false} GapStatus(s: State, x: Gap, reports: seq<Gap>)
    requires GapTable(s.gaps, reports) && AppendGap(s, x).Done? && AppendGap(s, x).status != OutOfRange
    ensures AppendGap(s, x).status == Ok <==> s.active && GapAllowed(s, x) && ReportsMore(reports, x)
  {
    EpochExact(s.gaps, reports, x);
  }

  /** A gap step is answered Ok if and only if the writer is live, the gap is well formed and not older than
      its source's catalog entry, and it reports no less than the last report of its source and channel. */
  lemma {:induction false} GapAnswered(c: Codec, l: Layout, g: Config, ms: seq<Moment>, steps: seq<Step>, n: nat)
    requires Lawful(c) && IsRun(c, l, g, ms, steps) && n < |steps| && steps[n].AddGap?
    ensures Answered(c, l, ms, steps, n) <==>
            && ms[n].state.active && GapAllowed(ms[n].state, steps[n].gap)
            && ReportsMore(Reports(c, l, ms, steps, n), steps[n].gap)
  {
    GapsOverRuns(c, l, g, ms, steps, n);
    RunSpares(c, l, g, ms, steps, n);
    RunNotFull(c, l, g, ms, steps, n);
    GapStatus(ms[n].state, steps[n].gap, Reports(c, l, ms, steps, n));
  }

  lemma {:induction false} RunNotFull(c: Codec, l: Layout, g: Config, ms: seq<Moment>, steps: seq<Step>, n: nat)
    requires Lawful(c) && IsRun(c, l, g, ms, steps) && n < |steps| && steps[n].AddGap?
    ensures AppendGap(ms[n].state, steps[n].gap).Done?
    ensures AppendGap(ms[n].state, steps[n].gap).status != OutOfRange
  {
    RunInv(c, l, g, ms, steps, n);
    GapKeeps(c, ms[n].state, ms[n].accepted, steps[n].gap);
  }

  // --- Progress and reference payload -----------------------------------------------------------------

  /** The last progress answered Ok in the first n steps, or the one a writer starts with. */
  ghost function LastProgress(c: Codec, l: Layout, g: Config, ms: seq<Moment>, steps: seq<Step>, n: nat): Progress
    requires n <= |steps|
    decreases n
  {
    if n == 0 then FirstProgress(g)
    else if steps[n - 1].Progressed? && Answered(c, l, ms, steps, n - 1) then steps[n - 1].progress
    else LastProgress(c, l, g, ms, steps, n - 1)
  }

  /** The last reference payload answered Ok in the first n steps. */
  ghost function LastReference(c: Codec, l: Layout, ms: seq<Moment>, steps: seq<Step>, n: nat): seq<u8>
    requires n <= |steps|
    decreases n
  {
    if n == 0 then []
    else if steps[n - 1].Reference? && Answered(c, l, ms, steps, n - 1) then steps[n - 1].payload
    else LastReference(c, l, ms, steps, n - 1)
  }

  lemma {:induction false} ProgressValue(s: State, p: Progress)
    requires Ready(s)
    ensures UpdateProgress(s, p).Done?
    ensures UpdateProgress(s, p).state.progress == if UpdateProgress(s, p).status == Ok then p else s.progress
  {
  }

  lemma {:induction false} ReferenceValue(s: State, payload: seq<u8>)
    ensures SetReferencePayload(s, payload).Done?
    ensures SetReferencePayload(s, payload).state.referencePayload ==
            if SetReferencePayload(s, payload).status == Ok then payload else s.referencePayload
  {
  }

  lemma {:induction false} LastWordStep(c: Codec, l: Layout, g: Config, ms: seq<Moment>, steps: seq<Step>, n: nat)
    requires 0 < n <= |steps| && |ms| == |steps| + 1 && Ready(ms[n - 1].state)
    requires Apply(c, l, ms[n - 1].state, steps[n - 1]).Done?
    requires ms[n].state == Apply(c, l, ms[n - 1].state, steps[n - 1]).state
    requires Spares(ms[n - 1].state, ms[n].state, steps[n - 1])
    requires ms[n - 1].state.progress == LastProgress(c, l, g, ms, steps, n - 1)
    requires ms[n - 1].state.referencePayload == LastReference(c, l, ms, steps, n - 1)
    ensures ms[n].state.progress == LastProgress(c, l, g, ms, steps, n)
    ensures ms[n].state.referencePayload == LastReference(c, l, ms, steps, n)
  {
    var s := ms[n - 1].state;
    if steps[n - 1].Progressed? { ProgressValue(s, steps[n - 1].progress); }
    if steps[n - 1].Reference? { ReferenceValue(s, steps[n - 1].payload); }
  }

  /** The progress and the reference payload of every reachable state are the last ones answered Ok. */
  lemma {:induction false} LastWordOverRuns(c: Codec, l: Layout, g: Config, ms: seq<Moment>, steps: seq<Step>, n: nat)
    requires Lawful(c) && IsRun(c, l, g, ms, steps) && n <= |steps|
    ensures ms[n].state.progress == LastProgress(c, l, g, ms, steps, n)
    ensures ms[n].state.referencePayload == LastReference(c, l, ms, steps, n)
    decreases n
  {
    if n == 0 {
      StartsEmpty(c, l, g, ms, steps);
    } else {
      LastWordOverRuns(c, l, g, ms, steps, n - 1);
      RunSpares(c, l, g, ms, steps, n - 1);
      LastWordStep(c, l, g, ms, steps, n);
    }
  }

  // --- Published cuts ------------------------------------------------------------------------------

  /** A published cut reports the losses known when it was taken: the last report of every source and
      channel up to the step that published it, and the last progress. */
  lemma {:induction false} CutsCarryTables(
      c: Codec, l: Layout, g: Config, ms: seq<Moment>, steps: seq<Step>, n: nat, k: nat) returns (i: nat)
    requires Lawful(c) && IsRun(c, l, g, ms, steps) && n <= |steps| && k < |ms[n].cuts|
    ensures 0 < i <= n && (steps[i - 1].Publish? || steps[i - 1].Seal?) && |ms[i].cuts| == k + 1 == |ms[i - 1].cuts| + 1
    ensures GapTable(ms[n].cuts[k].gaps, Reports(c, l, ms, steps, i))
    ensures ms[n].cuts[k].progress == LastProgress(c, l, g, ms, steps, i)
  {
    i := CutTaken(c, l, g, ms, steps, n, k);
    GapsOverRuns(c, l, g, ms, steps, i);
    LastWordOverRuns(c, l, g, ms, steps, i);
  }

  // === What the operations answer ============================================================================

  // --- Starting -----------------------------------------------------------------------------------------

  /** What must be paid before the first row: the fixed tables, both copies of the first cut, every row
      that may still arrive at the end, and one row. */
  function StartCost(c: Codec, g: Config): nat
    requires |g.sources| <= MAXIMUM_SOURCES
  {
    FixedMetadata(|g.sources|) + InitialCutReserve(|g.sources|)
    + DrainReserve(c, DrainRecords(g), |g.sources|) + WorstRecordBytes(c)
  }

  /** A writer starts if and only if its configuration is valid and its quota covers the cost. */
  lemma {:induction false} StartExact(c: Codec, g: Config)
    ensures Start(c, g).Started? <==> ValidConfig(g) && StartCost(c, g) <= g.maximumBytes
  {
    if ValidConfig(g) {
      var records := DrainRecords(g);
      assert records <= records * WorstRecordBytes(c) by { AtLeastOnce(records, WorstRecordBytes(c)); }
    }
  }

  lemma {:induction false} AtLeastOnce(n: nat, unit: nat)
    requires unit >= 1
    ensures n <= n * unit
  {
  }

  // --- Registering ----------------------------------------------------------------------------------------

  /** The entries that a catalog of this length does not have yet. */
  function Newcomers(known: nat, incoming: seq<Source>): seq<Source> {
    if incoming == [] then []
    else (if incoming[0].sourceId > known then [incoming[0]] else []) + Newcomers(known, incoming[1..])
  }

  function AllInactive(xs: seq<Source>): (r: seq<Source>)
    ensures |r| == |xs| && forall i :: 0 <= i < |xs| ==> r[i] == Inactive(xs[i])
  {
    seq(|xs|, i requires 0 <= i < |xs| => Inactive(xs[i]))
  }

  /** The entry is well formed, and the same source if it is known. */
  ghost predicate Agrees(sources: seq<Source>, x: Source) {
    && x.sourceId != 0 && ValidSource(x, x.sourceId - 1)
    && (x.sourceId <= |sources| ==> SS.SameIdentity(sources[x.sourceId - 1], x))
  }

  /** The entries are numbered on from a catalog of this length. */
  ghost predicate NumberedFrom(xs: seq<Source>, count: nat) {
    forall k :: 0 <= k < |xs| ==> xs[k].sourceId == count + k + 1
  }

  /** Every entry agrees with the catalog, and the new ones go on its numbering. */
  ghost predicate Registrable(sources: seq<Source>, incoming: seq<Source>, count: nat) {
    && (forall i :: 0 <= i < |incoming| ==> Agrees(sources, incoming[i]))
    && NumberedFrom(Newcomers(|sources|, incoming), count)
    && count + |Newcomers(|sources|, incoming)| <= MAXIMUM_SOURCES
  }

  lemma {:induction false} NumberedCons(x: Source, ys: seq<Source>, count: nat)
    ensures NumberedFrom([x] + ys, count) <==> x.sourceId == count + 1 && NumberedFrom(ys, count + 1)
  {
    var xs := [x] + ys;
    assert xs[0] == x && forall k :: 0 <= k < |ys| ==> ys[k] == xs[k + 1];
    assert forall k :: 0 < k < |xs| ==> xs[k] == ys[k - 1];
  }

  lemma {:induction false} RegistrableCons(sources: seq<Source>, incoming: seq<Source>, count: nat)
    requires incoming != [] && |sources| <= count <= MAXIMUM_SOURCES
    ensures var x, rest := incoming[0], incoming[1..];
            Registrable(sources, incoming, count) <==>
            && Agrees(sources, x)
            && (if x.sourceId <= |sources| then Registrable(sources, rest, count)
                else x.sourceId == count + 1 && count < MAXIMUM_SOURCES && Registrable(sources, rest, count + 1))
  {
    var x, rest := incoming[0], incoming[1..];
    var xs, ys := Newcomers(|sources|, incoming), Newcomers(|sources|, rest);
    assert incoming == [x] + rest;
    assert forall i :: 0 <= i < |rest| ==> rest[i] == incoming[i + 1];
    if x.sourceId > |sources| {
      assert xs == [x] + ys;
      NumberedCons(x, ys, count);
    } else {
      assert xs == ys;
    }
  }

  lemma {:induction false} CountExact(s: State, incoming: seq<Source>, count: nat)
    requires |s.sources| <= count <= MAXIMUM_SOURCES
    ensures RegisteredCount(s, incoming, count) ==
            if Registrable(s.sources, incoming, count) then Some(count + |Newcomers(|s.sources|, incoming)|) else None
    decreases |incoming|
  {
    if incoming != [] {
      RegistrableCons(s.sources, incoming, count);
      var x, rest := incoming[0], incoming[1..];
      if x.sourceId <= |s.sources| {
        CountExact(s, rest, count);
      } else if x.sourceId == count + 1 && count < MAXIMUM_SOURCES {
        CountExact(s, rest, count + 1);
      }
    }
  }

  lemma {:induction false} AddedExact(s: State, sources: seq<Source>, incoming: seq<Source>)
    requires |sources| <= |s.sources| <= MAXIMUM_SOURCES && Registrable(sources, incoming, |s.sources|)
    ensures AddSources(s, incoming).sources == s.sources + AllInactive(Newcomers(|sources|, incoming))
    decreases |incoming|
  {
    if incoming != [] {
      RegistrableCons(sources, incoming, |s.sources|);
      var x, rest := incoming[0], incoming[1..];
      if x.sourceId <= |sources| {
        AddedExact(s, sources, rest);
      } else {
        var t := s.(sources := s.sources + [Inactive(x)], sourceStates := s.sourceStates + [SS.Initial(Inactive(x))]);
        AddedExact(t, sources, rest);
        assert AllInactive(Newcomers(|sources|, incoming)) == [Inactive(x)] + AllInactive(Newcomers(|sources|, rest));
      }
    }
  }

  /** The cut's share of a source is within what the source costs. */
  lemma {:induction false} RegisterRoom(c: Codec, s: State, added: nat)
    requires Ledger(c, s)
    ensures && AddWithin(s.cutReservedBytes, added * (2 * SOURCE_STORAGE), U64_MAX)
            && AddWithin(s.projectedBytes, added * SOURCE_RESERVATION, s.writeLimitBytes) <==>
            s.projectedBytes + added * SOURCE_RESERVATION <= s.writeLimitBytes
  {
    CutWithinProjection(c, s);
    assert 0 <= added * (2 * SOURCE_STORAGE) <= added * SOURCE_RESERVATION;
  }

  /** Registration answers Ok if and only if the writer is live, the entries agree with the catalog and
      go on its numbering, and there is room for the new ones, which then join the catalog, inactive. */
  lemma {:induction false} RegisterExact(c: Codec, s: State, incoming: seq<Source>)
    requires Ledger(c, s) && |s.sources| <= MAXIMUM_SOURCES
    ensures var o, xs := RegisterSources(s, incoming), Newcomers(|s.sources|, incoming);
            && o.Done?
            && (o.status == Ok <==>
                  && s.active && |incoming| <= MAXIMUM_SOURCES && Registrable(s.sources, incoming, |s.sources|)
                  && s.projectedBytes + |xs| * SOURCE_RESERVATION <= s.writeLimitBytes)
            && o.state.sources == s.sources + if o.status == Ok then AllInactive(xs) else []
  {
    CountExact(s, incoming, |s.sources|);
    var xs := Newcomers(|s.sources|, incoming);
    RegisterRoom(c, s, |xs|);
    if Registrable(s.sources, incoming, |s.sources|) {
      AddedExact(s.(projectedBytes := s.projectedBytes + |xs| * SOURCE_RESERVATION,
                    cutReservedBytes := s.cutReservedBytes + |xs| * (2 * SOURCE_STORAGE)), s.sources, incoming);
    }
  }

  /** The same over runs. */
  lemma {:induction false} RegisterAnswered(c: Codec, l: Layout, g: Config, ms: seq<Moment>, steps: seq<Step>, n: nat)
    requires Lawful(c) && IsRun(c, l, g, ms, steps) && n < |steps| && steps[n].Register?
    ensures var s, incoming := ms[n].state, steps[n].sources;
            Answered(c, l, ms, steps, n) <==>
            && s.active && |incoming| <= MAXIMUM_SOURCES && Registrable(s.sources, incoming, |s.sources|)
            && s.projectedBytes + |Newcomers(|s.sources|, incoming)| * SOURCE_RESERVATION <= s.writeLimitBytes
  {
    RunInv(c, l, g, ms, steps, n);
    RunSpares(c, l, g, ms, steps, n);
    RegisterExact(c, ms[n].state, steps[n].sources);
  }

  // --- The catalog over runs ------------------------------------------------------------------------------

  /** What a step answered Ok adds to a catalog of this length. */
  ghost function Joining(known: nat, step: Step): seq<Source> {
    match step
    case Register(incoming) => AllInactive(Newcomers(known, incoming))
    case AppendRow(r) =>
      if r.sourceId > known && r.payload.LifecycleRow? then [r.payload.lifecycle.source.(initiallyPresent := false)]
      else []
    case _ => []
  }

  /** The configured sources and those that the first n steps registered or announced, in order. */
  ghost function Catalog(c: Codec, l: Layout, g: Config, ms: seq<Moment>, steps: seq<Step>, n: nat): seq<Source>
    requires n <= |steps|
    decreases n
  {
    if n == 0 then g.sources
    else
      var before := Catalog(c, l, g, ms, steps, n - 1);
      before + if Answered(c, l, ms, steps, n - 1) then Joining(|before|, steps[n - 1]) else []
  }

  lemma {:induction false} JudgeAdded(s: State, r: Record)
    requires Shape(s) && Judge(s, r).Accept?
    ensures Judge(s, r).added == if r.sourceId <= |s.sources| then None
                                 else Some(r.payload.lifecycle.source.(initiallyPresent := false))
    ensures r.sourceId > |s.sources| ==> r.payload.LifecycleRow?
  {
  }

  lemma {:induction false} AppendCatalog(c: Codec, s: State, H: seq<Record>, r: Record)
    requires Lawful(c) && Inv(c, s, H) && Ready(s) && Append(c, s, r).Done?
    ensures var o := Append(c, s, r);
            o.state.sources == s.sources + if o.status == Ok then Joining(|s.sources|, AppendRow(r)) else []
  {
    AppendRefinesStreams(c, s, r);
    if Judge(s, r).Accept? { JudgeAdded(s, r); } else { RejectIsError(s, r); }
  }

  lemma {:induction false} CatalogStep(c: Codec, l: Layout, s: State, H: seq<Record>, step: Step)
    requires Lawful(c) && Inv(c, s, H) && Ready(s) && Apply(c, l, s, step).Done?
    ensures var o := Apply(c, l, s, step);
            o.state.sources == s.sources + if o.status == Ok then Joining(|s.sources|, step) else []
  {
    if step.Register? {
      RegisterExact(c, s, step.sources);
    } else if step.AppendRow? {
      AppendCatalog(c, s, H, step.record);
    } else {
      StepSpares(c, l, s, H, step);
    }
  }

  lemma {:induction false} RunCatalog(c: Codec, l: Layout, g: Config, ms: seq<Moment>, steps: seq<Step>, n: nat)
    requires Lawful(c) && IsRun(c, l, g, ms, steps) && n < |steps|
    ensures var known := ms[n].state.sources;
            ms[n + 1].state.sources ==
            known + if Answered(c, l, ms, steps, n) then Joining(|known|, steps[n]) else []
  {
    RunInv(c, l, g, ms, steps, n);
    assert StepAt(c, l, ms, steps, n);
    CatalogStep(c, l, ms[n].state, ms[n].accepted, steps[n]);
  }

  /** In every reachable state the catalog is the configured sources followed by those registered or
      announced since, in order. */
  lemma {:induction false} CatalogOverRuns(c: Codec, l: Layout, g: Config, ms: seq<Moment>, steps: seq<Step>, n: nat)
    requires Lawful(c) && IsRun(c, l, g, ms, steps) && n <= |steps|
    ensures ms[n].state.sources == Catalog(c, l, g, ms, steps, n)
    decreases n
  {
    if n > 0 {
      CatalogOverRuns(c, l, g, ms, steps, n - 1);
      RunCatalog(c, l, g, ms, steps, n - 1);
    }
  }

  /** A published cut lists the catalog of the step that published it. */
  lemma {:induction false} CutsCarryCatalog(
      c: Codec, l: Layout, g: Config, ms: seq<Moment>, steps: seq<Step>, n: nat, k: nat) returns (i: nat)
    requires Lawful(c) && IsRun(c, l, g, ms, steps) && n <= |steps| && k < |ms[n].cuts|
    ensures 0 < i <= n && |ms[i].cuts| == k + 1 == |ms[i - 1].cuts| + 1
    ensures ms[n].cuts[k].sources == Catalog(c, l, g, ms, steps, i)
  {
    i := CutTaken(c, l, g, ms, steps, n, k);
    CatalogOverRuns(c, l, g, ms, steps, i);
  }

  // --- Progress -------------------------------------------------------------------------------------------

  /** A shard's reported row: not before the last one reported, received already, and short of the
      transaction the shard is in, as is the reported time. */
  ghost predicate RowReportable(rows: seq<Record>, last: int, sequence: int, safe: int) {
    && last <= sequence <= (if rows == [] then 0 else rows[|rows| - 1].shardSequence)
    && DT.Replay(rows).Some?
    && (DT.Replay(rows).value.Open? ==>
          sequence < DT.Replay(rows).value.firstShardSequence && safe <= DT.Replay(rows).value.receiveMonotonicNs)
  }

  ghost predicate ShardReportable(H: seq<Record>, last: Progress, p: Progress, n: int) {
    && 0 <= n < MAXIMUM_SHARDS
    && RowReportable(OfShard(H, n), last.shardSequences[n], p.shardSequences[n], p.safeMonotonicNs)
  }

  /** Progress p may follow the last progress once the rows H have been accepted. */
  ghost predicate Reportable(g: Config, H: seq<Record>, last: Progress, p: Progress) {
    && p.producerEpoch == g.producerEpoch && p.shardCount == g.shardCount
    && last.safeMonotonicNs <= p.safeMonotonicNs && last.lossEpoch <= p.lossEpoch
    && last.directoryRevision <= p.directoryRevision
    && forall n :: 0 <= n < g.shardCount ==> ShardReportable(H, last, p, n)
  }

  lemma {:induction false} AllowedExact(c: Codec, s: State, H: seq<Record>, p: Progress, n: nat)
    requires StoreOk(c, s) && |s.sources| == |s.sourceStates| && HistoryOk(c, s, H)
    requires n < |s.segments| <= MAXIMUM_SHARDS
    ensures ProgressAllowed(s, p, n) <==> ShardReportable(H, s.progress, p, n)
  {
    assert StreamAt(c, s, n) && ShardAt(c, s, H, n);
  }

  lemma {:induction false} ProgressExact(c: Codec, s: State, H: seq<Record>, p: Progress)
    requires Inv(c, s, H) && Ready(s)
    ensures UpdateProgress(s, p).Done?
    ensures UpdateProgress(s, p).status == Ok <==> s.active && Reportable(s.config, H, s.progress, p)
  {
    forall n | 0 <= n < |s.segments|
      ensures ProgressAllowed(s, p, n) <==> ShardReportable(H, s.progress, p, n)
    {
      AllowedExact(c, s, H, p, n);
    }
  }

  /** Progress is answered Ok if and only if the writer is live, the progress is its own, nothing goes
      back, and every shard's share names a row received before the transaction the shard is in. */
  lemma {:induction false} ProgressAnswered(c: Codec, l: Layout, g: Config, ms: seq<Moment>, steps: seq<Step>, n: nat)
    requires Lawful(c) && IsRun(c, l, g, ms, steps) && n < |steps| && steps[n].Progressed?
    ensures Answered(c, l, ms, steps, n) <==>
            && ms[n].state.active
            && Reportable(g, ms[n].accepted, LastProgress(c, l, g, ms, steps, n), steps[n].progress)
  {
    RunInv(c, l, g, ms, steps, n);
    RunSpares(c, l, g, ms, steps, n);
    RunLater(c, l, g, ms, steps, 0, n);
    LastWordOverRuns(c, l, g, ms, steps, n);
    ProgressExact(c, ms[n].state, ms[n].accepted, steps[n].progress);
  }

  // --- Finalization ---------------------------------------------------------------------------------------

  /** The manifest tells the capture: the rows counted, the times they span, the start and the end, and
      the earliest moment known. */
  ghost predicate Captured(g: Config, H: seq<Record>, m: Manifest, at: int) {
    && m.recordCount == |H|
    && (if H == [] then m.firstReceiveNs == 0 == m.lastReceiveNs else Index.Spans(H, m.firstReceiveNs, m.lastReceiveNs))
    && m.startedReceiveNs == (if H == [] then g.startedReceiveNs else Min(g.startedReceiveNs, m.firstReceiveNs))
    && m.finalizedReceiveNs == Max(at, Max(g.startedReceiveNs, m.lastReceiveNs))
  }

  lemma {:induction false} ReceiveSpans(rows: seq<Record>)
    requires rows != [] && forall i :: 0 <= i < |rows| ==> rows[i].receiveRealtimeNs > 0
    ensures FirstReceive(rows) > 0 && Index.Spans(rows, FirstReceive(rows), LastReceive(rows))
    decreases |rows|
  {
    var front, r := rows[..|rows| - 1], rows[|rows| - 1];
    assert rows == front + [r];
    ReceiveAppend(front, r);
    if front == [] {
      assert rows[0] == r;
    } else {
      ReceiveSpans(front);
      Index.SpansMore(front, FirstReceive(front), LastReceive(front), r);
    }
  }

  /** The accepted rows of shard n end between transactions. */
  ghost predicate Rests(H: seq<Record>, n: nat) { DT.Replay(OfShard(H, n)) == Some(DT.Idle) }

  lemma {:induction false} DepthIdle(c: Codec, s: State, H: seq<Record>)
    requires StoreOk(c, s) && |s.sources| == |s.sourceStates| && HistoryOk(c, s, H)
    ensures (forall n :: 0 <= n < |s.depth| ==> !s.depth[n].Open?) <==>
            forall n :: 0 <= n < |s.segments| ==> Rests(H, n)
  {
    forall n | 0 <= n < |s.segments|
      ensures !s.depth[n].Open? <==> Rests(H, n)
    {
      assert StreamAt(c, s, n) && ShardAt(c, s, H, n);
    }
  }

  /** Finalization answers Ok if and only if the writer is live, the time is positive, every shard's rows
      end between transactions, a generation is left and the binder agrees. */
  lemma {:induction false} FinalizeExact(
      c: Codec, l: Layout, s: State, H: seq<Record>, reason: StopReason, at: i64, now: u64)
    requires Lawful(c) && Inv(c, s, H) && Finalize(c, l, s, reason, at, now).Done?
    ensures Finalize(c, l, s, reason, at, now).status == Ok <==>
            && s.active && at > 0 && s.cutGeneration != U64_MAX && BindReference(s, now).0 == Ok
            && forall n :: 0 <= n < |s.segments| ==> Rests(H, n)
  {
    DepthIdle(c, s, H);
    if s.active && at > 0 && forall n :: 0 <= n < |s.depth| ==> !s.depth[n].Open? {
      var u := SealAll(c, s, |s.segments|).value;
      SealAllKeeps(c, s, H);
      ManifestKeeps(c, l, u, H, reason, at);
      var v := u.(manifest := FinalManifest(c, l, u, reason, at));
      PublishOutcome(c, v, H, now);
      if v.cutGeneration != U64_MAX { BindSame(c, s, v, H, now); }
    }
  }

  /** The binder is asked the same before and after the flushes. */
  lemma {:induction false} BindSame(c: Codec, s: State, v: State, H: seq<Record>, now: u64)
    requires Lawful(c) && Inv(c, v, H) && FlushAll(c, v, |v.segments|).Some?
    requires v.config == s.config && v.referencePayload == s.referencePayload && v.latest == s.latest
    requires v.cutGeneration == s.cutGeneration
    ensures BindReference(FlushAll(c, v, |v.segments|).value, now) == BindReference(s, now)
  {
    FlushAllKeeps(c, v, H);
  }

  lemma {:induction false} ManifestCaptures(c: Codec, l: Layout, u: State, H: seq<Record>, reason: StopReason, at: i64)
    requires Inv(c, u, H)
    ensures Captured(u.config, H, FinalManifest(c, l, u, reason, at), at)
  {
    forall i | 0 <= i < |H|
      ensures H[i].receiveRealtimeNs > 0
    {
      assert RowInRange(u, H, i);
    }
    if H != [] { ReceiveSpans(H); }
  }

  lemma {:induction false} ManifestPublished(c: Codec, s: State, H: seq<Record>, now: u64)
    requires Lawful(c) && Inv(c, s, H) && PublishCut(c, s, now).Done?
    ensures PublishCut(c, s, now).state.manifest == s.manifest
  {
    if s.active && s.cutGeneration != U64_MAX { FlushAllKeeps(c, s, H); }
  }

  lemma {:induction false} FinalizeCaptures(
      c: Codec, l: Layout, s: State, H: seq<Record>, reason: StopReason, at: i64, now: u64)
    requires Lawful(c) && Inv(c, s, H) && Finalize(c, l, s, reason, at, now).Done?
    requires Finalize(c, l, s, reason, at, now).status == Ok
    ensures Captured(s.config, H, Finalize(c, l, s, reason, at, now).state.manifest, at)
  {
    var u := SealAll(c, s, |s.segments|).value;
    SealAllKeeps(c, s, H);
    ManifestCaptures(c, l, u, H, reason, at);
    ManifestKeeps(c, l, u, H, reason, at);
    ManifestPublished(c, u.(manifest := FinalManifest(c, l, u, reason, at)), H, now);
  }

  /** A run is sealed if and only if the writer is live, the time is positive, every shard's accepted
      rows end between transactions, a generation is left and the binder agrees; its manifest then
      tells the capture. */
  lemma {:induction false} FinalizeAnswered(c: Codec, l: Layout, g: Config, ms: seq<Moment>, steps: seq<Step>, n: nat)
    requires Lawful(c) && IsRun(c, l, g, ms, steps) && n < |steps| && steps[n].Seal?
    ensures var s, step := ms[n].state, steps[n];
            && (Answered(c, l, ms, steps, n) <==>
                  && s.active && step.finalizedReceiveNs > 0 && s.cutGeneration != U64_MAX
                  && BindReference(s, step.committedNow).0 == Ok
                  && forall k :: 0 <= k < |s.segments| ==> Rests(ms[n].accepted, k))
            && (Answered(c, l, ms, steps, n) ==>
                  Captured(g, ms[n].accepted, ms[n + 1].state.manifest, step.finalizedReceiveNs))
  {
    RunInv(c, l, g, ms, steps, n);
    RunSpares(c, l, g, ms, steps, n);
    RunLater(c, l, g, ms, steps, 0, n);
    var s, step := ms[n].state, steps[n];
    FinalizeExact(c, l, s, ms[n].accepted, step.reason, step.finalizedReceiveNs, step.committedNow);
    if Answered(c, l, ms, steps, n) {
      FinalizeCaptures(c, l, s, ms[n].accepted, step.reason, step.finalizedReceiveNs, step.committedNow);
    }
  }
}
