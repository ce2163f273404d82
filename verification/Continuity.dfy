/** Cuts over a run: what each one is a snapshot of, that any two of them pass the live cursor's
    continuity checks (src/Runtime/src/Corpus/CorpusCut.cpp, refresh), and that every one is accepted by
    its readers and read back unchanged. */
module Continuity {
  import opened Records
  import opened Storage
  import opened Formats
  import opened Writer
  import opened WriterStore
  import opened WriterAppend
  import opened WriterRuns
  import opened WriterLedger
  import opened CutFile
  import DT = DepthTransaction

  // --- The checks ---------------------------------------------------------------------------------

  /** Identity, generation and progress of the next cut against the one in hand. */
  predicate Follows(cut: Cut, next: Cut) {
    && next.generation >= cut.generation && next.progress.producerEpoch == cut.progress.producerEpoch
    && |next.blocks| >= |cut.blocks| && next.progress.safeMonotonicNs >= cut.progress.safeMonotonicNs
    && next.progress.shardCount == cut.progress.shardCount
  }

  predicate SameAnchor(a: Manifest, b: Manifest) {
    a.replayAnchorMonotonicNs == b.replayAnchorMonotonicNs && a.replayAnchorReceiveNs == b.replayAnchorReceiveNs
  }

  /** The fields of a block reference the cursor compares. */
  predicate SameRange(a: BlockRange, b: BlockRange) {
    a.offset == b.offset && a.segmentNumber == b.segmentNumber && a.shardIndex == b.shardIndex && a.header == b.header
  }

  predicate KeepsBlocks(cut: Cut, next: Cut)
    requires |cut.blocks| <= |next.blocks|
  {
    forall n :: 0 <= n < |cut.blocks| ==> SameRange(cut.blocks[n], next.blocks[n])
  }

  predicate Continues(cut: Cut, next: Cut) {
    && Follows(cut, next) && (AnchorExecutable(cut) ==> SameAnchor(cut.manifest, next.manifest))
    && KeepsBlocks(cut, next)
  }

  // --- What a writer never takes back ----------------------------------------------------------------

  ghost predicate ProgressGrew(p: Progress, q: Progress, n: int)
    requires 0 <= n < MAXIMUM_SHARDS
  {
    p.shardSequences[n] <= q.shardSequences[n]
  }

  ghost predicate Grew(s: State, t: State) {
    && t.config == s.config && |t.segments| == |s.segments| <= MAXIMUM_SHARDS
    && s.blocks <= t.blocks && s.log <= t.log && s.sources <= t.sources
    && s.progress.safeMonotonicNs <= t.progress.safeMonotonicNs && s.progress.lossEpoch <= t.progress.lossEpoch
    && s.progress.directoryRevision <= t.progress.directoryRevision
    && (forall n {:trigger ProgressGrew(s.progress, t.progress, n)} :: 0 <= n < |s.segments| ==>
         ProgressGrew(s.progress, t.progress, n))
    && s.cutGeneration <= t.cutGeneration
    && (s.replayAnchorFrozen ==> t.replayAnchorFrozen && SameAnchor(s.manifest, t.manifest))
  }

  lemma {:induction false} GrewTransitive(s: State, t: State, u: State)
    requires Grew(s, t) && Grew(t, u)
    ensures Grew(s, u)
  {
    forall n | 0 <= n < |s.segments|
      ensures ProgressGrew(s.progress, u.progress, n)
    {
      assert ProgressGrew(s.progress, t.progress, n) && ProgressGrew(t.progress, u.progress, n);
    }
  }

  /** Steps that touch neither progress nor generation nor anchor. */
  lemma {:induction false} GrewQuietly(s: State, t: State)
    requires t.config == s.config && |t.segments| == |s.segments| <= MAXIMUM_SHARDS
    requires s.blocks <= t.blocks && s.log <= t.log && s.sources <= t.sources
    requires t.progress == s.progress && t.cutGeneration == s.cutGeneration
    requires t.replayAnchorFrozen == s.replayAnchorFrozen
    requires s.replayAnchorFrozen ==> SameAnchor(s.manifest, t.manifest)
    ensures Grew(s, t)
  {
  }

  lemma {:induction false} AppendGrew(c: Codec, s: State, H: seq<Record>, r: Record)
    requires Lawful(c) && Inv(c, s, H) && Ready(s) && Append(c, s, r).Done?
    ensures Grew(s, Append(c, s, r).state)
    ensures Append(c, s, r).state.progress == s.progress
  {
    AppendRefinesStreams(c, s, r);
    var t := Append(c, s, r).state;
    if Append(c, s, r).status == Ok { AnchorStays(s, t, r); }
    GrewQuietly(s, t);
  }

  /** Once frozen, an accepted row lies at or after the anchor and does not move it. */
  lemma {:induction false} AnchorStays(s: State, t: State, r: Record)
    requires Ready(s) && Judge(s, r).Accept? && RowFields(s, t, r, Judge(s, r))
    ensures s.replayAnchorFrozen ==> SameAnchor(s.manifest, t.manifest)
  {
  }

  lemma {:induction false} FlushAllGrew(c: Codec, s: State, H: seq<Record>)
    requires Lawful(c) && Inv(c, s, H) && FlushAll(c, s, |s.segments|).Some?
    ensures Grew(s, FlushAll(c, s, |s.segments|).value)
  {
    FlushAllKeeps(c, s, H);
    GrewQuietly(s, FlushAll(c, s, |s.segments|).value);
  }

  lemma {:induction false} CommitGrew(f: State, now: nat, reference: seq<u8>)
    requires |f.segments| <= MAXIMUM_SHARDS
    ensures Grew(f, CommitCut(f, CutOf(f, now, reference)))
  {
  }

  /** A published cut against the writer that has just published it. */
  ghost predicate Taken(cut: Cut, s: State) {
    && cut.generation == s.cutGeneration && s.latest == Some(cut) && cut.progress == s.progress
    && cut.manifest == s.manifest.(projectedBytes := s.projectedBytes)
    && cut.sources == s.sources && cut.gaps == s.gaps && cut.blocks == s.blocks
    && |cut.referencePayload| == |s.referencePayload|
    && cut.finalized == (s.manifest.finalizedReceiveNs > 0)
    && (AnchorExecutable(cut) ==> s.replayAnchorFrozen)
    && forall n :: 0 <= n < |s.segments| ==> s.segments[n].pending == []
  }

  lemma {:induction false} CommitTaken(f: State, now: nat, reference: seq<u8>)
    requires |reference| == |f.referencePayload| && forall n :: 0 <= n < |f.segments| ==> f.segments[n].pending == []
    ensures Taken(CutOf(f, now, reference), CommitCut(f, CutOf(f, now, reference)))
  {
  }

  /** The latest cut of a state was taken from it at this time. */
  ghost predicate TakenAt(t: State, now: nat) {
    t.latest.Some? && Taken(t.latest.value, t) && t.latest.value.committedMonotonicNs == now
  }

  lemma {:induction false} PublishGrew(c: Codec, s: State, H: seq<Record>, now: nat)
    requires Lawful(c) && Inv(c, s, H) && PublishCut(c, s, now).Done?
    ensures Grew(s, PublishCut(c, s, now).state)
    ensures PublishCut(c, s, now).status == Ok ==> TakenAt(PublishCut(c, s, now).state, now)
  {
    if s.active && s.cutGeneration != U64_MAX {
      var f := FlushAll(c, s, |s.segments|).value;
      FlushAllGrew(c, s, H);
      FlushAllKeeps(c, s, H);
      if PublishCut(c, s, now).status == Ok {
        var (_, reference) := BindReference(f, now);
        CommitsCut(s, f, now, reference);
      }
    }
  }

  lemma {:induction false} CommitsCut(s: State, f: State, now: nat, reference: seq<u8>)
    requires Grew(s, f) && |reference| == |f.referencePayload|
    requires forall n :: 0 <= n < |f.segments| ==> f.segments[n].pending == []
    ensures var t := CommitCut(f, CutOf(f, now, reference)); Grew(s, t) && TakenAt(t, now)
  {
    CommitGrew(f, now, reference);
    CommitTaken(f, now, reference);
    GrewTransitive(s, f, CommitCut(f, CutOf(f, now, reference)));
  }

  lemma {:induction false} SealAllGrew(c: Codec, l: Layout, s: State, H: seq<Record>, reason: StopReason, at: i64)
    requires Lawful(c) && Inv(c, s, H) && SealAll(c, s, |s.segments|).Some? && at > 0
    ensures var u := SealAll(c, s, |s.segments|).value;
            var t := u.(manifest := FinalManifest(c, l, u, reason, at));
            Inv(c, t, H) && Grew(s, t) && t.manifest.finalizedReceiveNs > 0
  {
    var u := SealAll(c, s, |s.segments|).value;
    SealAllKeeps(c, s, H);
    ManifestKeeps(c, l, u, H, reason, at);
    FinalManifestFields(c, l, u, reason, at);
    GrewQuietly(s, u.(manifest := FinalManifest(c, l, u, reason, at)));
  }

  lemma {:induction false} FinalizeGrew(
      c: Codec, l: Layout, s: State, H: seq<Record>, reason: StopReason, at: i64, now: nat)
    requires Lawful(c) && Inv(c, s, H) && Finalize(c, l, s, reason, at, now).Done?
    ensures Grew(s, Finalize(c, l, s, reason, at, now).state)
    ensures Finalize(c, l, s, reason, at, now).status == Ok ==>
              var t := Finalize(c, l, s, reason, at, now).state;
              t.latest.Some? && Taken(t.latest.value, t) && t.latest.value.committedMonotonicNs == now &&
                  t.latest.value.finalized
  {
    if s.active && at > 0 && !exists n :: 0 <= n < |s.depth| && s.depth[n].Open? {
      var u := SealAll(c, s, |s.segments|).value;
      var t := u.(manifest := FinalManifest(c, l, u, reason, at));
      SealAllGrew(c, l, s, H, reason, at);
      PublishGrew(c, t, H, now);
      var v := PublishCut(c, t, now).state;
      GrewTransitive(s, t, v);
      if PublishCut(c, t, now).status == Ok {
        PublishKeepsFinal(c, t, H, now);
        var w := v.(manifest := v.manifest.(projectedBytes := v.projectedBytes), active := false);
        GrewQuietly(v, w);
        GrewTransitive(s, v, w);
      }
    }
  }

  lemma {:induction false} PublishKeepsFinal(c: Codec, t: State, H: seq<Record>, now: nat)
    requires Lawful(c) && Inv(c, t, H) && PublishCut(c, t, now).Done?
    ensures PublishCut(c, t, now).state.manifest == t.manifest
    ensures |PublishCut(c, t, now).state.segments| <= MAXIMUM_SHARDS
  {
    if FlushAll(c, t, |t.segments|).Some? { FlushAllKeeps(c, t, H); }
  }

  // --- Over runs ----------------------------------------------------------------------------------

  ghost predicate Later(m: Moment, m': Moment) {
    Grew(m.state, m'.state) && m.accepted <= m'.accepted && m.cuts <= m'.cuts
  }

  lemma {:induction false} StepGrew(c: Codec, l: Layout, m: Moment, step: Step, m': Moment)
    requires Lawful(c) && MomentOk(c, m) && StepTo(c, l, m, step, m')
    ensures Grew(m.state, m'.state)
  {
    var s, H := m.state, m.accepted;
    match step
    case Register(sources) => RegisterGrew(c, s, sources);
    case AppendRow(r) => AppendGrew(c, s, H, r);
    case AddGap(g) => GapGrew(s, g);
    case Progressed(p) => ProgressedGrew(s, p);
    case Reference(payload) => ReferenceGrew(s, payload);
    case Publish(now) => PublishGrew(c, s, H, now);
    case Drain => GrewQuietly(s, BeginFinalDrain(s).state);
    case Seal(reason, at, now) => FinalizeGrew(c, l, s, H, reason, at, now);
  }

  lemma {:induction false} RegisterGrew(c: Codec, s: State, incoming: seq<Source>)
    requires StoreOk(c, s)
    ensures Grew(s, RegisterSources(s, incoming).state)
  {
    RegisterQuiet(c, s, incoming);
    GrewQuietly(s, RegisterSources(s, incoming).state);
  }

  lemma {:induction false} GapGrew(s: State, g: Gap)
    requires Ready(s) && AppendGap(s, g).Done?
    ensures Grew(s, AppendGap(s, g).state)
  {
    GrewQuietly(s, AppendGap(s, g).state);
  }

  lemma {:induction false} ReferenceGrew(s: State, payload: seq<u8>)
    requires Ready(s)
    ensures Grew(s, SetReferencePayload(s, payload).state)
  {
    GrewQuietly(s, SetReferencePayload(s, payload).state);
  }

  lemma {:induction false} ProgressedGrew(s: State, p: Progress)
    requires Ready(s)
    ensures Grew(s, UpdateProgress(s, p).state)
  {
    var t := UpdateProgress(s, p).state;
    forall n | 0 <= n < |s.segments|
      ensures ProgressGrew(s.progress, t.progress, n)
    {
      if t != s { assert ProgressAllowed(s, p, n); }
    }
  }

  lemma {:induction false} RunLater(c: Codec, l: Layout, g: Config, ms: seq<Moment>, steps: seq<Step>, i: nat, n: nat)
    requires Lawful(c) && IsRun(c, l, g, ms, steps) && i <= n <= |steps|
    ensures Later(ms[i], ms[n])
    decreases n
  {
    if i == n {
      RunInv(c, l, g, ms, steps, n);
      GrewQuietly(ms[n].state, ms[n].state);
    } else {
      RunLater(c, l, g, ms, steps, i, n - 1);
      RunInv(c, l, g, ms, steps, n - 1);
      assert StepAt(c, l, ms, steps, n - 1);
      StepGrew(c, l, ms[n - 1], steps[n - 1], ms[n]);
      GrewTransitive(ms[i].state, ms[n - 1].state, ms[n].state);
    }
  }

  /** When a cut was committed, by the clock the step was given. */
  ghost function CommitClock(step: Step): nat {
    match step
    case Publish(now) => now
    case Seal(_, _, now) => now
    case _ => 0
  }

  lemma {:induction false} StepTakes(c: Codec, l: Layout, m: Moment, step: Step, m': Moment)
    requires Lawful(c) && MomentOk(c, m) && StepTo(c, l, m, step, m') && m'.cuts != m.cuts
    ensures step.Publish? || step.Seal?
    ensures m'.state.latest.Some? && m'.cuts == m.cuts + [m'.state.latest.value]
    ensures Taken(m'.state.latest.value, m'.state)
    ensures m'.state.latest.value.committedMonotonicNs == CommitClock(step)
    ensures step.Seal? ==> m'.state.latest.value.finalized
  {
    var s, H := m.state, m.accepted;
    if step.Publish? {
      PublishGrew(c, s, H, step.now);
    } else if step.Seal? {
      FinalizeGrew(c, l, s, H, step.reason, step.finalizedReceiveNs, step.committedNow);
    }
  }

  /** Where in the run cut k was taken. */
  lemma {:induction false} CutTaken(c: Codec, l: Layout, g: Config, ms: seq<Moment>, steps: seq<Step>, n: nat, k: nat)
    returns (i: nat)
    requires Lawful(c) && IsRun(c, l, g, ms, steps) && n <= |steps| && k < |ms[n].cuts|
    ensures 0 < i <= n && |ms[i].cuts| == k + 1 && |ms[i - 1].cuts| == k && ms[i].cuts[k] == ms[n].cuts[k]
    ensures Taken(ms[n].cuts[k], ms[i].state) && Later(ms[i], ms[n])
    ensures steps[i - 1].Publish? || steps[i - 1].Seal?
    ensures ms[n].cuts[k].committedMonotonicNs == CommitClock(steps[i - 1])
    decreases n
  {
    StartsBare(c, l, g, ms, steps);
    RunTakes(c, l, g, ms, steps, n - 1);
    if k < |ms[n - 1].cuts| {
      i := CutTaken(c, l, g, ms, steps, n - 1, k);
    } else {
      i := n;
    }
    RunLater(c, l, g, ms, steps, i, n);
  }

  lemma {:induction false} StartsBare(c: Codec, l: Layout, g: Config, ms: seq<Moment>, steps: seq<Step>)
    requires IsRun(c, l, g, ms, steps)
    ensures ms[0].cuts == []
  {
  }

  /** A step of a run publishes nothing, or the cut it has just taken. */
  lemma {:induction false} RunTakes(c: Codec, l: Layout, g: Config, ms: seq<Moment>, steps: seq<Step>, i: nat)
    requires Lawful(c) && IsRun(c, l, g, ms, steps) && i < |steps|
    ensures var m, step, m' := ms[i], steps[i], ms[i + 1];
            || m'.cuts == m.cuts
            || (&& (step.Publish? || step.Seal?) && m'.state.latest.Some?
                && m'.cuts == m.cuts + [m'.state.latest.value] && Taken(m'.state.latest.value, m'.state)
                && m'.state.latest.value.committedMonotonicNs == CommitClock(step))
  {
    RunInv(c, l, g, ms, steps, i);
    assert StepAt(c, l, ms, steps, i);
    if ms[i + 1].cuts != ms[i].cuts { StepTakes(c, l, ms[i], steps[i], ms[i + 1]); }
  }

  lemma {:induction false} TakenContinues(cut: Cut, s: State, next: Cut, t: State)
    requires Taken(cut, s) && Taken(next, t) && Grew(s, t)
    requires s.progress.producerEpoch == s.config.producerEpoch && t.progress.producerEpoch == t.config.producerEpoch
    requires s.progress.shardCount == s.config.shardCount && t.progress.shardCount == t.config.shardCount
    ensures Continues(cut, next)
  {
  }

  lemma {:induction false} MomentsContinue(c: Codec, cut: Cut, m: Moment, next: Cut, m': Moment)
    requires MomentOk(c, m) && MomentOk(c, m') && Later(m, m') && Taken(cut, m.state) && Taken(next, m'.state)
    ensures Continues(cut, next)
  {
    TakenContinues(cut, m.state, next, m'.state);
  }

  /** A later cut was taken later. */
  lemma {:induction false} CutsOrdered(
      c: Codec, l: Layout, g: Config, ms: seq<Moment>, steps: seq<Step>, n: nat, j: nat, k: nat)
    returns (a: nat, b: nat)
    requires Lawful(c) && IsRun(c, l, g, ms, steps) && n <= |steps| && j <= k < |ms[n].cuts|
    ensures 0 < a <= b <= n && Taken(ms[n].cuts[j], ms[a].state) && Taken(ms[n].cuts[k], ms[b].state)
    ensures |ms[a].cuts| == j + 1 && |ms[b].cuts| == k + 1
  {
    a := CutTaken(c, l, g, ms, steps, n, j);
    b := CutTaken(c, l, g, ms, steps, n, k);
    if b < a {
      FewerCuts(c, l, g, ms, steps, b, a);
      b := a;
    }
  }

  lemma {:induction false} FewerCuts(c: Codec, l: Layout, g: Config, ms: seq<Moment>, steps: seq<Step>, a: nat, b: nat)
    requires Lawful(c) && IsRun(c, l, g, ms, steps) && a <= b <= |steps|
    ensures |ms[a].cuts| <= |ms[b].cuts|
  {
    RunLater(c, l, g, ms, steps, a, b);
  }

  /** Cut continuity: a cursor holding any cut of a run and offered any later one, or the same one
      again, finds the generation grown, the blocks an immutable prefix, the progress monotone and an
      executable replay anchor unmoved. */
  lemma {:induction false} CutsContinue(
      c: Codec, l: Layout, g: Config, ms: seq<Moment>, steps: seq<Step>, n: nat, j: nat, k: nat)
    requires Lawful(c) && IsRun(c, l, g, ms, steps) && n <= |steps| && j <= k < |ms[n].cuts|
    ensures Continues(ms[n].cuts[j], ms[n].cuts[k])
    ensures ms[n].cuts[j].generation == j + 1
  {
    var a, b := CutsOrdered(c, l, g, ms, steps, n, j, k);
    RunLater(c, l, g, ms, steps, a, b);
    RunInv(c, l, g, ms, steps, a);
    RunInv(c, l, g, ms, steps, b);
    MomentsContinue(c, ms[n].cuts[j], ms[a], ms[n].cuts[k], ms[b]);
    CutNumbers(c, l, g, ms, steps, a);
  }

  /** Generations count the cuts of the run, starting at one. */
  lemma {:induction false} CutNumbers(c: Codec, l: Layout, g: Config, ms: seq<Moment>, steps: seq<Step>, n: nat)
    requires Lawful(c) && IsRun(c, l, g, ms, steps) && n <= |steps|
    ensures ms[n].state.cutGeneration == |ms[n].cuts|
    decreases n
  {
    if n == 0 {
      assert Begins(c, g, ms[0]);
    } else {
      CutNumbers(c, l, g, ms, steps, n - 1);
      RunInv(c, l, g, ms, steps, n - 1);
      assert StepAt(c, l, ms, steps, n - 1);
      StepNumbers(c, l, ms[n - 1], steps[n - 1], ms[n]);
    }
  }

  /** The generation goes up by one exactly when a step publishes a cut. */
  ghost predicate Numbers(s: State, publishes: bool, o: Outcome) {
    && o.Done?
    && if publishes && o.status == Ok then o.state.latest.Some? && o.state.cutGeneration == s.cutGeneration + 1
       else o.state.cutGeneration == s.cutGeneration
  }

  lemma {:induction false} RegisterNumbers(c: Codec, s: State, incoming: seq<Source>)
    requires StoreOk(c, s)
    ensures Numbers(s, false, RegisterSources(s, incoming))
  {
    RegisterQuiet(c, s, incoming);
  }

  lemma {:induction false} AppendNumbers(c: Codec, s: State, H: seq<Record>, r: Record)
    requires Lawful(c) && Inv(c, s, H) && Ready(s) && Append(c, s, r).Done?
    ensures Numbers(s, false, Append(c, s, r))
  {
    AppendRefinesStreams(c, s, r);
  }

  lemma {:induction false} GapNumbers(s: State, g: Gap)
    ensures Numbers(s, false, AppendGap(s, g))
  {
  }

  lemma {:induction false} ProgressNumbers(s: State, p: Progress)
    requires Ready(s)
    ensures Numbers(s, false, UpdateProgress(s, p))
  {
  }

  lemma {:induction false} ReferenceNumbers(s: State, payload: seq<u8>)
    ensures Numbers(s, false, SetReferencePayload(s, payload)) && Numbers(s, false, BeginFinalDrain(s))
  {
  }

  lemma {:induction false} ApplyNumbers(c: Codec, l: Layout, s: State, H: seq<Record>, step: Step)
    requires Lawful(c) && Inv(c, s, H) && Ready(s) && Apply(c, l, s, step).Done?
    ensures Numbers(s, step.Publish? || step.Seal?, Apply(c, l, s, step))
  {
    match step
    case Register(sources) => RegisterNumbers(c, s, sources);
    case AppendRow(r) => AppendNumbers(c, s, H, r);
    case AddGap(g) => GapNumbers(s, g);
    case Progressed(p) => ProgressNumbers(s, p);
    case Reference(payload) => ReferenceNumbers(s, payload);
    case Publish(now) => PublishNumbers(c, s, H, now);
    case Drain => ReferenceNumbers(s, []);
    case Seal(reason, at, now) => FinalizeNumbers(c, l, s, H, reason, at, now);
  }

  lemma {:induction false} StepNumbers(c: Codec, l: Layout, m: Moment, step: Step, m': Moment)
    requires Lawful(c) && MomentOk(c, m) && StepTo(c, l, m, step, m')
    ensures m'.state.cutGeneration - m.state.cutGeneration == |m'.cuts| - |m.cuts|
  {
    ApplyNumbers(c, l, m.state, m.accepted, step);
  }

  lemma {:induction false} PublishNumbers(c: Codec, s: State, H: seq<Record>, now: nat)
    requires Lawful(c) && Inv(c, s, H) && PublishCut(c, s, now).Done?
    ensures Numbers(s, true, PublishCut(c, s, now))
  {
    if s.active && s.cutGeneration != U64_MAX { FlushAllKeeps(c, s, H); }
  }

  lemma {:induction false} FinalizeNumbers(
      c: Codec, l: Layout, s: State, H: seq<Record>, reason: StopReason, at: i64, now: nat)
    requires Lawful(c) && Inv(c, s, H) && Finalize(c, l, s, reason, at, now).Done?
    ensures Numbers(s, true, Finalize(c, l, s, reason, at, now))
  {
    if s.active && at > 0 && !exists n :: 0 <= n < |s.depth| && s.depth[n].Open? {
      var u := SealAll(c, s, |s.segments|).value;
      SealAllKeeps(c, s, H);
      ManifestKeeps(c, l, u, H, reason, at);
      PublishNumbers(c, u.(manifest := FinalManifest(c, l, u, reason, at)), H, now);
    }
  }

  // === Reading a published cut back ==========================================================================

  // --- A block's rows in its shard's stream ---------------------------------------------------------

  /** Later blocks only extend a shard's stream. */
  lemma {:induction false} ShardRowsPrefix(c: Codec, bs: seq<BlockRange>, log: seq<seq<u8>>, n: nat, shard: nat)
    requires |bs| == |log| && n <= |bs|
    ensures ShardRows(c, bs[..n], log[..n], shard) <= ShardRows(c, bs, log, shard)
    decreases |bs|
  {
    if n == |bs| {
      assert bs[..n] == bs && log[..n] == log;
    } else {
      var m := |bs| - 1;
      ShardRowsPrefix(c, bs[..m], log[..m], n, shard);
      assert bs[..m][..n] == bs[..n] && log[..m][..n] == log[..n];
    }
  }

  /** Block i stands in its shard's stream right behind the blocks before it. */
  lemma {:induction false} BlockInStream(c: Codec, bs: seq<BlockRange>, log: seq<seq<u8>>, i: nat) returns (k: nat)
    requires |bs| == |log| && i < |bs|
    ensures k == |ShardRows(c, bs[..i], log[..i], bs[i].shardIndex)|
    ensures var rows := Rows(c, bs[i], log[i]);
            k + |rows| <= |ShardRows(c, bs, log, bs[i].shardIndex)|
            && ShardRows(c, bs, log, bs[i].shardIndex)[k..k + |rows|] == rows
  {
    var shard := bs[i].shardIndex;
    k := |ShardRows(c, bs[..i], log[..i], shard)|;
    ShardRowsPrefix(c, bs, log, i + 1, shard);
    assert bs[..i + 1][..i] == bs[..i] && log[..i + 1][..i] == log[..i];
    assert ShardRows(c, bs[..i + 1], log[..i + 1], shard) == ShardRows(c, bs[..i], log[..i], shard) +
        Rows(c, bs[i], log[i]);
  }

  lemma {:induction false} StoredWithinTotal(bs: seq<BlockRange>, n: nat, k: nat)
    requires n <= |bs|
    ensures StoredOf(bs[..n], k) <= SumStored(bs)
    decreases |bs|
  {
    if n == |bs| {
      assert bs[..n] == bs;
      if bs != [] { StoredWithinTotal(bs[..n - 1], n - 1, k); assert bs[..n - 1][..n - 1] == bs[..n - 1]; }
    } else {
      StoredWithinTotal(bs[..|bs| - 1], n, k);
      assert bs[..|bs| - 1][..n] == bs[..n];
    }
  }

  /** The rows of a stream that any slice of it repeats. */
  lemma {:induction false} SliceOrdered(rows: seq<Record>, k: nat, part: seq<Record>)
    requires DT.Sorted(rows) && part != [] && k + |part| <= |rows| && rows[k..k + |part|] == part
    requires forall i :: 0 <= i < |rows| ==> ValidRecord(rows[i])
    ensures part[0].receiveMonotonicNs != 0 && part[0].receiveMonotonicNs <= part[|part| - 1].receiveMonotonicNs
    ensures part[0].shardSequence != 0 && part[0].shardSequence <= part[|part| - 1].shardSequence
  {
    assert part[0] == rows[k] && part[|part| - 1] == rows[k + |part| - 1];
  }

  lemma {:induction false} OffsetWithin(c: Codec, s: State, i: nat)
    requires LogOk(c, s.blocks, s.log) && Ledger(c, s) && i < |s.blocks|
    ensures SEGMENT_HEADER_BYTES <= s.blocks[i].offset <= s.config.maximumBytes
  {
    assert PlacedAt(s.blocks, i);
    StoredWithinTotal(s.blocks, i, s.blocks[i].segmentNumber);
    assert 0 <= TotalPending(s.segments) * PendingRecordBytes(c);
    StoredShare(c, s);
  }

  lemma {:induction false} StoredShare(c: Codec, s: State)
    requires Ledger(c, s)
    ensures SEGMENT_HEADER_BYTES + SumStored(s.blocks) <= s.projectedBytes
  {
    assert 0 <= TotalPending(s.segments) * PendingRecordBytes(c);
  }

  lemma {:induction false} BlockOrdered(c: Codec, s: State, i: nat)
    requires StoreOk(c, s) && i < |s.blocks| && s.blocks[i].shardIndex < |s.segments|
    ensures var b := s.blocks[i];
            && b.firstMonotonicNs != 0 && b.firstMonotonicNs <= b.lastMonotonicNs
            && b.header.firstShardSequence != 0 && b.header.firstShardSequence <= b.header.lastShardSequence
  {
    var shard := s.blocks[i].shardIndex;
    var rows := Rows(c, s.blocks[i], s.log[i]);
    assert BlockOk(c, s.blocks[i], s.log[i]) && StreamAt(c, s, shard);
    var k := BlockInStream(c, s.blocks, s.log, i);
    var stream := ShardRows(c, s.blocks, s.log, shard);
    assert stream + s.segments[shard].pending == Stream(c, s, shard);
    assert Stream(c, s, shard)[k..k + |rows|] == stream[k..k + |rows|];
    SliceOrdered(Stream(c, s, shard), k, rows);
  }

  /** A block of a shard the writer has. */
  ghost predicate ShardKnown(s: State, i: int)
    requires 0 <= i < |s.blocks|
  {
    s.blocks[i].shardIndex < |s.segments|
  }

  /** Every segment number belongs to an open segment or a file of one of the shards. */
  lemma {:induction false} BlockShardKnown(c: Codec, s: State, i: nat)
    requires StoreOk(c, s) && i < |s.blocks|
    ensures ShardKnown(s, i)
  {
    var k := s.blocks[i].segmentNumber;
    assert Numbered(s.blocks, s.nextSegmentNumber, i);
    assert Accounted(s.files, s.segments, s.nextSegmentNumber, k);
    assert Filed(c, s.files, s.config.producerEpoch, s.segments, s.blocks, s.log, s.nextSegmentNumber, k);
    if k !in s.files {
      var n :| OpenAt(s.segments, n, k);
      assert Owns(s.segments, s.blocks, n, i);
    }
  }

  lemma {:induction false} BlockAccepted(c: Codec, s: State, i: nat)
    requires StoreOk(c, s) && Ledger(c, s) && i < |s.blocks| && s.nextSegmentNumber <= U32_MAX
    ensures ValidBlock(c, s.blocks[i], s.config.maximumBytes, |s.segments|) && FitsRange(s.blocks[i])
  {
    BlockShardKnown(c, s, i);
    BlockOrdered(c, s, i);
    OffsetWithin(c, s, i);
    assert BlockOk(c, s.blocks[i], s.log[i]) && Numbered(s.blocks, s.nextSegmentNumber, i);
  }

  // --- The frame ------------------------------------------------------------------------------------

  lemma {:induction false} FewFiles(files: set<nat>, n: nat)
    requires forall k :: k in files ==> 1 <= k <= n
    ensures |files| <= n
    decreases n
  {
    if n > 0 {
      FewFiles(files - {n}, n - 1);
      if n in files { assert files == (files - {n}) + {n}; } else { assert files - {n} == files; }
    } else {
      assert files == {};
    }
  }

  lemma {:induction false} FilesWithin(c: Codec, s: State)
    requires StoreOk(c, s) && s.nextSegmentNumber <= U32_MAX
    ensures |s.files| < s.nextSegmentNumber
  {
    forall k | k in s.files.Keys
      ensures 1 <= k <= s.nextSegmentNumber - 1
    {
      assert Filed(c, s.files, s.config.producerEpoch, s.segments, s.blocks, s.log, s.nextSegmentNumber, k);
    }
    FewFiles(s.files.Keys, s.nextSegmentNumber - 1);
    assert |s.files| == |s.files.Keys|;
  }

  lemma {:induction false} ManifestFits(c: Codec, s: State, H: seq<Record>)
    requires Inv(c, s, H)
    ensures FitsManifest(s.manifest.(projectedBytes := s.projectedBytes))
  {
    FilesWithin(c, s);
    CutWithinProjection(c, s);
    GapsBounded(s.gaps, |s.sources|, |s.segments|);
    RecordsWithin(c, s);
  }

  lemma {:induction false} RecordsWithin(c: Codec, s: State)
    requires Ledger(c, s)
    ensures 0 <= s.manifest.recordCount <= s.projectedBytes <= U64_MAX
  {
    CutWithinProjection(c, s);
  }

  lemma {:induction false} CutFits(c: Codec, cut: Cut, s: State, H: seq<Record>)
    requires Inv(c, s, H) && Taken(cut, s) && cut.committedMonotonicNs <= U64_MAX
    ensures FitsCut(cut)
  {
    ManifestFits(c, s, H);
    forall i | 0 <= i < |cut.blocks|
      ensures FitsRange(cut.blocks[i])
    {
      BlockAccepted(c, s, i);
    }
    BlocksNonEmpty(c, s);
    BlocksWithinRecords(s.blocks);
    RecordsWithin(c, s);
    GapsBounded(s.gaps, |s.sources|, |s.segments|);
  }

  lemma {:induction false} CutSize(c: Codec, cut: Cut, s: State)
    requires Ledger(c, s) && GapsOk(s) && Taken(cut, s)
    requires forall i :: 0 <= i < |s.blocks| ==> s.blocks[i].header.recordCount >= 1
    ensures CutBytes(cut) <= s.projectedBytes <= s.config.maximumBytes
  {
    CutIsPrepaid(c, s);
    CutWithinProjection(c, s);
  }

  lemma {:induction false} CutFramed(c: Codec, cut: Cut, s: State, H: seq<Record>)
    requires Inv(c, s, H) && Taken(cut, s) && cut.generation > 0
    ensures Framed(cut)
  {
    BlocksNonEmpty(c, s);
    CutSize(c, cut, s);
    GapsBounded(s.gaps, |s.sources|, |s.segments|);
  }

  lemma {:induction false} CutSound(c: Codec, cut: Cut, s: State, H: seq<Record>)
    requires Inv(c, s, H) && Taken(cut, s)
    ensures Sound(c, cut)
  {
    forall i | 0 <= i < |cut.sources|
      ensures ValidSource(cut.sources[i], i)
    {
      assert SourceValidAt(s, i);
    }
    forall i | 0 <= i < |cut.blocks|
      ensures ValidBlock(c, cut.blocks[i], s.config.maximumBytes, |s.segments|)
    {
      BlockAccepted(c, s, i);
    }
    NoPending(s.segments);
    RecordsWithin(c, s);
    assert UniqueCells(cut.gaps);
  }

  lemma {:induction false} TakenDecodes(c: Codec, l: Layout, cut: Cut, m: Moment)
    requires LawfulLayout(l) && MomentOk(c, m) && Taken(cut, m.state) && cut.generation > 0
    requires cut.committedMonotonicNs <= U64_MAX
    ensures DecodeCut(c, l, FileOf(c, l, cut)) == if cut.committedMonotonicNs != 0 then Some(cut) else None
    ensures |FileOf(c, l, cut)| == CutBytes(cut) <= cut.manifest.maximumBytes
  {
    CutFits(c, cut, m.state, m.accepted);
    CutFramed(c, cut, m.state, m.accepted);
    CutSound(c, cut, m.state, m.accepted);
    CutRoundTrip(c, l, cut);
  }

  lemma {:induction false} ClockFits(step: Step)
    ensures CommitClock(step) <= U64_MAX
  {
  }

  /** Every cut of every run is written within the quota and read back as the same cut, with its gap
      cells distinct and its block counts summing to the records accepted when it was taken; the
      only file a reader refuses is one committed while the steady clock read zero. */
  lemma {:induction false} PublishedCutsDecode(
      c: Codec, l: Layout, g: Config, ms: seq<Moment>, steps: seq<Step>, n: nat, k: nat)
    requires Lawful(c) && LawfulLayout(l) && IsRun(c, l, g, ms, steps) && n <= |steps| && k < |ms[n].cuts|
    ensures var cut := ms[n].cuts[k];
            && DecodeCut(c, l, FileOf(c, l, cut)) == (if cut.committedMonotonicNs != 0 then Some(cut) else None)
            && |FileOf(c, l, cut)| == CutBytes(cut) <= cut.manifest.maximumBytes
            && UniqueCells(cut.gaps) && SumRecords(cut.blocks) == cut.manifest.recordCount
  {
    var i := CutTaken(c, l, g, ms, steps, n, k);
    RunInv(c, l, g, ms, steps, i);
    CutNumbers(c, l, g, ms, steps, i);
    ClockFits(steps[i - 1]);
    TakenDecodes(c, l, ms[n].cuts[k], ms[i]);
    CutSound(c, ms[n].cuts[k], ms[i].state, ms[i].accepted);
    assert UniqueCells(ms[n].cuts[k].gaps);
  }
}
