/** What the writer promises over whole runs: an exact quota ledger, streams that are exactly the
    accepted rows, and a reserve that the final drain cannot exhaust. */
module WriterTheorems {
  import opened Records
  import opened Storage
  import opened Formats
  import opened Merge
  import opened Writer
  import opened WriterLedger
  import opened WriterStore
  import opened WriterAppend
  import opened WriterRuns
  import DT = DepthTransaction

  /** In every reachable state the projection is the exact sum of what was fixed, stored, pending and
      reserved; it covers the disk and stays within the limit in force, and the record counter is
      far from wrapping. */
  lemma {:induction false} LedgerOverRuns(c: Codec, l: Layout, g: Config, ms: seq<Moment>, steps: seq<Step>, n: nat)
    requires Lawful(c) && IsRun(c, l, g, ms, steps) && n <= |steps|
    ensures var s := ms[n].state;
            && s.projectedBytes == LedgerSum(c, s) && s.cutReservedBytes == CutSum(s)
            && PhysicalBytes(s) <= s.projectedBytes <= s.writeLimitBytes <= s.config.maximumBytes
            && RECORD_CUT_RESERVATION * |ms[n].accepted| <= s.projectedBytes
  {
    RunInv(c, l, g, ms, steps, n);
    var s := ms[n].state;
    BlocksNonEmpty(c, s);
    ProjectionCoversDisk(c, s);
    CutWithinProjection(c, s);
  }

  /** For each shard the decoded blocks followed by the pending rows are exactly the rows the run
      accepted for it, in order; every block has one channel and at most 256 rows. */
  lemma {:induction false} StreamsOverRuns(
      c: Codec, l: Layout, g: Config, ms: seq<Moment>, steps: seq<Step>, n: nat, shard: nat)
    requires Lawful(c) && IsRun(c, l, g, ms, steps) && n <= |steps| && shard < |ms[n].state.segments|
    ensures var s := ms[n].state;
            && |s.blocks| == |s.log|
            && OfShard(ms[n].accepted, shard) == ShardRows(c, s.blocks, s.log, shard) + s.segments[shard].pending
            && DT.Sorted(OfShard(ms[n].accepted, shard))
            && DT.Replay(OfShard(ms[n].accepted, shard)).Some?
    ensures forall i :: 0 <= i < |ms[n].state.blocks| ==>
              RowsMatch(ms[n].state.blocks[i], Rows(c, ms[n].state.blocks[i], ms[n].state.log[i]))
  {
    RunInv(c, l, g, ms, steps, n);
    var s := ms[n].state;
    assert ShardAt(c, s, ms[n].accepted, shard) && StreamAt(c, s, shard);
    forall i | 0 <= i < |s.blocks|
      ensures RowsMatch(s.blocks[i], Rows(c, s.blocks[i], s.log[i]))
    {
      assert BlockOk(c, s.blocks[i], s.log[i]);
    }
  }

  // --- The limit in force -------------------------------------------------------------------------

  /** The configuration and the limit stand still, unless a drain raises the limit; no source is
      forgotten. */
  ghost predicate LimitKept(s: State, t: State, drained: bool) {
    t.config == s.config && |s.sources| <= |t.sources| && (!drained ==> t.writeLimitBytes == s.writeLimitBytes)
  }

  lemma {:induction false} RegisterLimit(c: Codec, s: State, incoming: seq<Source>)
    requires StoreOk(c, s)
    ensures LimitKept(s, RegisterSources(s, incoming).state, false)
  {
    RegisterQuiet(c, s, incoming);
  }

  lemma {:induction false} GapLimit(s: State, g: Gap)
    ensures LimitKept(s, AppendGap(s, g).state, false)
  {
  }

  lemma {:induction false} ProgressLimit(s: State, p: Progress)
    requires Ready(s)
    ensures LimitKept(s, UpdateProgress(s, p).state, false)
  {
  }

  lemma {:induction false} ReferenceLimit(s: State, payload: seq<u8>)
    ensures LimitKept(s, SetReferencePayload(s, payload).state, false)
  {
  }

  lemma {:induction false} DrainLimit(s: State)
    ensures LimitKept(s, BeginFinalDrain(s).state, true)
  {
  }

  /** Only the start of the final drain moves the limit; sources are never forgotten. */
  lemma {:induction false} StepLimit(c: Codec, l: Layout, s: State, H: seq<Record>, step: Step)
    requires Lawful(c) && Inv(c, s, H) && Ready(s) && Apply(c, l, s, step).Done?
    ensures LimitKept(s, Apply(c, l, s, step).state, step.Drain?)
  {
    match step
    case Register(sources) => RegisterLimit(c, s, sources);
    case AppendRow(r) => AppendLimit(c, s, H, r);
    case AddGap(g) => GapLimit(s, g);
    case Progressed(p) => ProgressLimit(s, p);
    case Reference(payload) => ReferenceLimit(s, payload);
    case Publish(now) => PublishLimit(c, s, now);
    case Drain => DrainLimit(s);
    case Seal(reason, at, now) => FinalizeLimit(c, l, s, reason, at, now);
  }

  lemma {:induction false} AppendLimit(c: Codec, s: State, H: seq<Record>, r: Record)
    requires Lawful(c) && Inv(c, s, H) && Ready(s) && Append(c, s, r).Done?
    ensures Append(c, s, r).state.writeLimitBytes == s.writeLimitBytes && Append(c, s, r).state.config == s.config
    ensures |s.sources| <= |Append(c, s, r).state.sources|
  {
    AppendRefinesStreams(c, s, r);
  }

  lemma {:induction false} PublishLimit(c: Codec, s: State, now: nat)
    requires |s.segments| <= 0x1_0000 && PublishCut(c, s, now).Done?
    ensures var t := PublishCut(c, s, now).state;
            t.writeLimitBytes == s.writeLimitBytes && t.config == s.config && t.sources == s.sources &&
                t.projectedBytes <= s.projectedBytes
  {
    if FlushAll(c, s, |s.segments|).Some? { FlushAllFrame(c, s, |s.segments|); }
  }

  lemma {:induction false} FinalizeLimit(c: Codec, l: Layout, s: State, reason: StopReason, at: i64, now: nat)
    requires |s.segments| <= 0x1_0000 && Finalize(c, l, s, reason, at, now).Done?
    ensures var t := Finalize(c, l, s, reason, at, now).state;
            t.writeLimitBytes == s.writeLimitBytes && t.config == s.config && t.sources == s.sources &&
                t.projectedBytes <= s.projectedBytes
  {
    if s.active && at > 0 && !exists n :: 0 <= n < |s.depth| && s.depth[n].Open? {
      var sealed := SealAll(c, s, |s.segments|).value;
      SealAllSpends(c, s, |s.segments|);
      PublishLimit(c, sealed.(manifest := FinalManifest(c, l, sealed, reason, at)), now);
    }
  }

  lemma {:induction false} SealAllSpends(c: Codec, s: State, k: nat)
    requires k <= |s.segments| <= 0x1_0000 && SealAll(c, s, k).Some?
    ensures var t := SealAll(c, s, k).value;
            t.writeLimitBytes == s.writeLimitBytes && t.config == s.config && t.sources == s.sources &&
                t.projectedBytes <= s.projectedBytes
    decreases k
  {
    if k > 0 {
      SealAllSpends(c, s, k - 1);
      SealLedger(c, SealAll(c, s, k - 1).value, k - 1);
    }
  }

  // --- The final drain ----------------------------------------------------------------------------

  /** k more items fit whatever they are: rows with their own block, segment and index entry, or new
      sources. */
  ghost predicate Affords(c: Codec, s: State, k: nat) {
    && |s.sources| <= MAXIMUM_SOURCES && s.writeLimitBytes == s.config.maximumBytes
    && s.projectedBytes + DrainReserve(c, k, |s.sources|) <= s.config.maximumBytes
  }

  lemma {:induction false} ReserveShrinks(c: Codec, k: nat, more: nat, fewer: nat)
    requires fewer <= more <= MAXIMUM_SOURCES
    ensures DrainReserve(c, k, more) <= DrainReserve(c, k, fewer)
  {
  }

  /** One item's worth comes off the reserve. */
  lemma {:induction false} ReservePays(c: Codec, k: nat, sources: nat, newSource: bool)
    requires k >= 1 && sources <= MAXIMUM_SOURCES && (newSource ==> sources < MAXIMUM_SOURCES)
    ensures DrainReserve(c, k - 1, if newSource then sources + 1 else sources) +
            MostBytes(c, newSource) <= DrainReserve(c, k, sources)
  {
    var w := WorstRecordBytes(c);
    assert k * w == (k - 1) * w + w;
  }

  lemma {:induction false} DrainBegins(c: Codec, s: State, g: Config)
    requires Ledger(c, s) && s.active && s.config.maximumBytes == g.maximumBytes
    requires |g.sources| <= |s.sources| <= MAXIMUM_SOURCES
    requires ValidConfig(g) && s.writeLimitBytes == g.maximumBytes - DrainReserve(c, DrainRecords(g), |g.sources|)
    ensures BeginFinalDrain(s).Done? && Affords(c, BeginFinalDrain(s).state, DrainRecords(g))
  {
    ReserveShrinks(c, DrainRecords(g), |s.sources|, |g.sources|);
  }

  lemma {:induction false} AffordsRow(c: Codec, s: State, r: Record, v: Verdict, k: nat)
    requires Ledger(c, s) && Affords(c, s, k) && k >= 1 && Admitted(s, r, v)
    requires (v.added.Some? ==> |s.sources| < MAXIMUM_SOURCES)
    ensures s.projectedBytes + MostBytes(c, v.added.Some?) <= s.writeLimitBytes
    ensures Unrepresentable(c, s, PlanOf(c, s, r), v.added.Some?) ==> s.nextSegmentNumber == U32_MAX
  {
    ReservePays(c, k, |s.sources|, v.added.Some?);
    CutWithinProjection(c, s);
  }

  lemma {:induction false} AffordedRow(c: Codec, s: State, r: Record, v: Verdict, k: nat)
    requires Shape(s) && Positioned(s) && |s.segments| <= 0x1_0000 && Admitted(s, r, v) && Ledger(c, s)
    requires ClosedEmpty(s)
    requires Affords(c, s, k) && k >= 1 && (v.added.Some? ==> |s.sources| < MAXIMUM_SOURCES)
    requires ReserveRow(c, s, r, v).Done? && s.nextSegmentNumber != U32_MAX
    ensures ReserveRow(c, s, r, v).status == Ok
  {
    AffordsRow(c, s, r, v, k);
    QuotaRefusal(c, s, r, v);
  }

  lemma {:induction false} AffordsLess(c: Codec, s: State, t: State, k: nat)
    requires Affords(c, s, k) && |t.sources| == |s.sources| && t.projectedBytes <= s.projectedBytes
    requires t.writeLimitBytes == s.writeLimitBytes && t.config == s.config
    ensures Affords(c, t, k)
  {
  }

  /** A valid row within the drain budget is never refused for lack of bytes, and taking it leaves
      the rest of the budget covered. */
  lemma {:induction false} DrainAppend(c: Codec, s: State, H: seq<Record>, r: Record, k: nat)
    requires Lawful(c) && Inv(c, s, H) && Ready(s) && Affords(c, s, k) && k >= 1
    requires Judge(s, r).Accept? && Append(c, s, r).Done? && s.nextSegmentNumber != U32_MAX
    ensures Append(c, s, r).status == Ok
  {
    InvClosedEmpty(c, s);
    JudgeAdmits(s, r);
    JudgeSourceVerdict(s, r);
    var v := Judge(s, r);
    if MustFlush(s.segments[r.shardIndex], r) {
      var f := FlushBlock(c, s, r.shardIndex).value;
      FlushKeepsLedger(c, s, r.shardIndex);
      FlushBlockFrame(c, s, r.shardIndex);
      AffordsLess(c, s, f, k);
      AffordedRow(c, f, r, v, k);
    } else {
      AffordedRow(c, s, r, v, k);
    }
  }

  /** What appending leaves of the budget. */
  lemma {:induction false} DrainAppendBudget(c: Codec, s: State, H: seq<Record>, r: Record, k: nat)
    requires Lawful(c) && Inv(c, s, H) && Ready(s) && Affords(c, s, k) && Append(c, s, r).Done?
    requires Append(c, s, r).status == Ok ==> k >= 1
    ensures Affords(c, Append(c, s, r).state, if Append(c, s, r).status == Ok then k - 1 else k)
  {
    InvClosedEmpty(c, s);
    AppendKeepsLedger(c, s, r);
    AppendLimit(c, s, H, r);
    AppendKeeps(c, s, H, r);
    var t := Append(c, s, r).state;
    if Append(c, s, r).status == Ok { ReservePays(c, k, |s.sources|, |t.sources| != |s.sources|); }
  }

  lemma {:induction false} ReservePaysSources(c: Codec, k: nat, sources: nat, added: nat)
    requires added <= k && sources + added <= MAXIMUM_SOURCES
    ensures DrainReserve(c, k - added, sources + added) + added * SOURCE_RESERVATION <= DrainReserve(c, k, sources)
  {
    var w := WorstRecordBytes(c);
    assert (k - added) * w <= k * w;
  }

  // --- The final drain over runs ------------------------------------------------------------------

  /** Before the drain begins, the limit in force holds back the whole drain reserve. */
  ghost predicate Undrained(c: Codec, g: Config, s: State) {
    && ValidConfig(g) && s.config == g && |g.sources| <= |s.sources|
    && s.writeLimitBytes == g.maximumBytes - DrainReserve(c, DrainRecords(g), |g.sources|)
  }

  lemma {:induction false} BeginsUndrained(c: Codec, g: Config, m: Moment)
    requires Begins(c, g, m)
    ensures Undrained(c, g, m.state)
  {
  }

  lemma {:induction false} StepUndrained(c: Codec, l: Layout, g: Config, m: Moment, step: Step, m': Moment)
    requires Lawful(c) && MomentOk(c, m) && StepTo(c, l, m, step, m') && Undrained(c, g, m.state) && !step.Drain?
    ensures Undrained(c, g, m'.state)
  {
    StepLimit(c, l, m.state, m.accepted, step);
  }

  lemma {:induction false} RunUndrained(c: Codec, l: Layout, g: Config, ms: seq<Moment>, steps: seq<Step>, n: nat)
    requires Lawful(c) && IsRun(c, l, g, ms, steps) && n <= |steps|
    requires forall i :: 0 <= i < n ==> !steps[i].Drain?
    ensures Undrained(c, g, ms[n].state)
    decreases n
  {
    if n == 0 {
      BeginsUndrained(c, g, ms[0]);
    } else {
      RunUndrained(c, l, g, ms, steps, n - 1);
      RunInv(c, l, g, ms, steps, n - 1);
      assert StepAt(c, l, ms, steps, n - 1);
      StepUndrained(c, l, g, ms[n - 1], steps[n - 1], ms[n]);
    }
  }

  /** What one step takes from the drain budget: a row accepted or the sources registered. */
  ghost function Items(m: Moment, step: Step, m': Moment): int {
    if step.AppendRow? then |m'.accepted| - |m.accepted| else |m'.state.sources| - |m.state.sources|
  }

  ghost function Used(ms: seq<Moment>, steps: seq<Step>, first: nat, n: nat): int
    requires first <= n < |ms| && |ms| == |steps| + 1
    decreases n
  {
    if n == first then 0 else Used(ms, steps, first, n - 1) + Items(ms[n - 1], steps[n - 1], ms[n])
  }

  lemma {:induction false} ItemsGrow(c: Codec, l: Layout, m: Moment, step: Step, m': Moment)
    requires Lawful(c) && MomentOk(c, m) && StepTo(c, l, m, step, m')
    ensures 0 <= Items(m, step, m')
  {
    StepLimit(c, l, m.state, m.accepted, step);
  }

  /** What is left of the budget at a moment is covered. */
  ghost predicate Covered(c: Codec, m: Moment, k: int) { 0 <= k && Affords(c, m.state, k) }

  lemma {:induction false} AffordsFewer(c: Codec, s: State, t: State, k: nat)
    requires Affords(c, s, k) && |s.sources| <= |t.sources| <= |s.sources| + k && |t.sources| <= MAXIMUM_SOURCES
    requires t.config == s.config && t.writeLimitBytes == s.writeLimitBytes
    requires t.projectedBytes == s.projectedBytes + (|t.sources| - |s.sources|) * SOURCE_RESERVATION
    ensures Affords(c, t, k - (|t.sources| - |s.sources|))
  {
    ReservePaysSources(c, k, |s.sources|, |t.sources| - |s.sources|);
  }

  lemma {:induction false} DrainRegistered(c: Codec, s: State, H: seq<Record>, incoming: seq<Source>, k: nat)
    requires Inv(c, s, H) && Affords(c, s, k) && |RegisterSources(s, incoming).state.sources| - |s.sources| <= k
    ensures |s.sources| <= |RegisterSources(s, incoming).state.sources|
    ensures Affords(c, RegisterSources(s, incoming).state,
            k - (|RegisterSources(s, incoming).state.sources| - |s.sources|))
  {
    RegisterQuiet(c, s, incoming);
    RegisterKeepsLedger(c, s, incoming);
    AffordsFewer(c, s, RegisterSources(s, incoming).state, k);
  }

  lemma {:induction false} StepSpends(c: Codec, l: Layout, m: Moment, step: Step, m': Moment)
    requires Lawful(c) && MomentOk(c, m) && StepTo(c, l, m, step, m')
    requires !step.Reference? && !step.Register? && !step.AppendRow? && !step.Drain?
    ensures var s, t := m.state, m'.state;
            t.writeLimitBytes == s.writeLimitBytes && t.config == s.config && t.sources == s.sources &&
                t.projectedBytes <= s.projectedBytes
  {
    if step.Publish? {
      PublishLimit(c, m.state, step.now);
    } else if step.Seal? {
      FinalizeLimit(c, l, m.state, step.reason, step.finalizedReceiveNs, step.committedNow);
    }
  }

  /** A step keeps what is left of the budget. */
  lemma {:induction false} DrainStep(c: Codec, l: Layout, m: Moment, step: Step, m': Moment, k: int)
    requires Lawful(c) && MomentOk(c, m) && StepTo(c, l, m, step, m') && !step.Reference?
    requires Covered(c, m, k) && 0 <= Items(m, step, m') <= k
    ensures Covered(c, m', k - Items(m, step, m'))
  {
    if step.Register? {
      DrainStepRegister(c, l, m, step, m', k);
    } else if step.AppendRow? {
      DrainStepAppend(c, l, m, step, m', k);
    } else if step.Drain? {
      DrainStepAgain(c, l, m, step, m', k);
    } else {
      StepSpends(c, l, m, step, m');
    }
  }

  lemma {:induction false} DrainStepRegister(c: Codec, l: Layout, m: Moment, step: Step, m': Moment, k: int)
    requires Lawful(c) && MomentOk(c, m) && StepTo(c, l, m, step, m') && step.Register?
    requires Covered(c, m, k) && 0 <= Items(m, step, m') <= k
    ensures Covered(c, m', k - Items(m, step, m'))
  {
    DrainRegistered(c, m.state, m.accepted, step.sources, k);
  }

  lemma {:induction false} DrainStepAppend(c: Codec, l: Layout, m: Moment, step: Step, m': Moment, k: int)
    requires Lawful(c) && MomentOk(c, m) && StepTo(c, l, m, step, m') && step.AppendRow?
    requires Covered(c, m, k) && 0 <= Items(m, step, m') <= k
    ensures Covered(c, m', k - Items(m, step, m'))
  {
    AppendItems(c, l, m, step, m');
    DrainAppendBudget(c, m.state, m.accepted, step.record, k);
    CoveredAfter(c, m, step, m', k, Append(c, m.state, step.record));
  }

  lemma {:induction false} CoveredAfter(c: Codec, m: Moment, step: Step, m': Moment, k: int, o: Outcome)
    requires o.Done? && m'.state == o.state && 0 <= Items(m, step, m') == (if o.status == Ok then 1 else 0) <= k
    requires Affords(c, o.state, if o.status == Ok then k - 1 else k)
    ensures Covered(c, m', k - Items(m, step, m'))
  {
  }

  lemma {:induction false} AppendItems(c: Codec, l: Layout, m: Moment, step: Step, m': Moment)
    requires StepTo(c, l, m, step, m') && step.AppendRow?
    ensures var o := Append(c, m.state, step.record);
            o.Done? && m'.state == o.state && Items(m, step, m') == (if o.status == Ok then 1 else 0)
  {
  }

  lemma {:induction false} DrainStepAgain(c: Codec, l: Layout, m: Moment, step: Step, m': Moment, k: int)
    requires StepTo(c, l, m, step, m') && step.Drain? && Covered(c, m, k)
    ensures Covered(c, m', k) && Items(m, step, m') == 0
  {
  }

  lemma {:induction false} DrainFirst(c: Codec, l: Layout, g: Config, m: Moment, step: Step, m': Moment)
    requires MomentOk(c, m) && StepTo(c, l, m, step, m') && step.Drain? && m.state.active && Undrained(c, g, m.state)
    ensures Covered(c, m', DrainRecords(g))
  {
    DrainBegins(c, m.state, g);
  }

  ghost predicate Referenceless(steps: seq<Step>, first: nat, n: nat)
    requires n <= |steps|
  {
    forall i :: first <= i < n ==> !steps[i].Reference?
  }

  /** The first drain request of a run, made to a live writer. */
  ghost predicate DrainsFirst(ms: seq<Moment>, steps: seq<Step>, d: nat) {
    d < |steps| < |ms| && steps[d].Drain? && ms[d].state.active && forall i :: 0 <= i < d ==> !steps[i].Drain?
  }

  /** What the drain has left of its reserve after n steps of the run. */
  ghost predicate BudgetAt(c: Codec, g: Config, ms: seq<Moment>, steps: seq<Step>, d: nat, n: nat) {
    d < n < |ms| && |ms| == |steps| + 1 && Covered(c, ms[n], DrainRecords(g) - Used(ms, steps, d + 1, n))
  }

  lemma {:induction false} BudgetNext(c: Codec, g: Config, ms: seq<Moment>, steps: seq<Step>, d: nat, n: nat, k: int)
    requires d + 1 < n < |ms| && |ms| == |steps| + 1 && k == DrainRecords(g) - Used(ms, steps, d + 1, n - 1)
    requires Covered(c, ms[n], k - Items(ms[n - 1], steps[n - 1], ms[n]))
    ensures BudgetAt(c, g, ms, steps, d, n)
  {
  }

  lemma {:induction false} UsedStep(ms: seq<Moment>, steps: seq<Step>, first: nat, n: nat)
    requires first < n < |ms| && |ms| == |steps| + 1
    ensures Used(ms, steps, first, n) == Used(ms, steps, first, n - 1) + Items(ms[n - 1], steps[n - 1], ms[n])
  {
  }

  lemma {:induction false} RunItemsGrow(c: Codec, l: Layout, g: Config, ms: seq<Moment>, steps: seq<Step>, i: nat)
    requires Lawful(c) && IsRun(c, l, g, ms, steps) && i < |steps|
    ensures 0 <= Items(ms[i], steps[i], ms[i + 1])
  {
    assert StepAt(c, l, ms, steps, i);
    RunInv(c, l, g, ms, steps, i);
    ItemsGrow(c, l, ms[i], steps[i], ms[i + 1]);
  }

  lemma {:induction false} RunDrainStep(
      c: Codec, l: Layout, g: Config, ms: seq<Moment>, steps: seq<Step>, i: nat, k: int)
    requires Lawful(c) && IsRun(c, l, g, ms, steps) && i < |steps| && !steps[i].Reference?
    requires Covered(c, ms[i], k) && 0 <= Items(ms[i], steps[i], ms[i + 1]) <= k
    ensures Covered(c, ms[i + 1], k - Items(ms[i], steps[i], ms[i + 1]))
  {
    assert StepAt(c, l, ms, steps, i);
    RunInv(c, l, g, ms, steps, i);
    DrainStep(c, l, ms[i], steps[i], ms[i + 1], k);
  }

  lemma {:induction false} RunDrainFirst(c: Codec, l: Layout, g: Config, ms: seq<Moment>, steps: seq<Step>, d: nat)
    requires Lawful(c) && IsRun(c, l, g, ms, steps) && DrainsFirst(ms, steps, d)
    ensures BudgetAt(c, g, ms, steps, d, d + 1)
  {
    assert StepAt(c, l, ms, steps, d);
    RunInv(c, l, g, ms, steps, d);
    RunUndrained(c, l, g, ms, steps, d);
    DrainFirst(c, l, g, ms[d], steps[d], ms[d + 1]);
  }

  lemma {:induction false} DrainBudget(
      c: Codec, l: Layout, g: Config, ms: seq<Moment>, steps: seq<Step>, d: nat, n: nat)
    requires Lawful(c) && IsRun(c, l, g, ms, steps) && d < n <= |steps| && DrainsFirst(ms, steps, d)
    requires Referenceless(steps, d, n) && Used(ms, steps, d + 1, n) <= DrainRecords(g)
    ensures BudgetAt(c, g, ms, steps, d, n)
    decreases n
  {
    if n == d + 1 {
      RunDrainFirst(c, l, g, ms, steps, d);
    } else {
      RunItemsGrow(c, l, g, ms, steps, n - 1);
      UsedStep(ms, steps, d + 1, n);
      DrainBudget(c, l, g, ms, steps, d, n - 1);
      var k := DrainRecords(g) - Used(ms, steps, d + 1, n - 1);
      RunDrainStep(c, l, g, ms, steps, n - 1, k);
      BudgetNext(c, g, ms, steps, d, n, k);
    }
  }

  lemma {:induction false} DrainAccepts(c: Codec, l: Layout, m: Moment, step: Step, m': Moment, k: int)
    requires Lawful(c) && MomentOk(c, m) && StepTo(c, l, m, step, m') && Covered(c, m, k) && k >= 1
    requires step.AppendRow? && Judge(m.state, step.record).Accept? && m.state.nextSegmentNumber != U32_MAX
    ensures m'.accepted == m.accepted + [step.record]
  {
    DrainAppend(c, m.state, m.accepted, step.record, k);
  }

  /** Final-drain sufficiency.  Once the drain has begun, as long as fewer than
      shardCount * ringCapacity + pendingRecordCapacity rows and sources have come in, a row the
      validation admits is written: the quota never refuses it, whatever it adds, rotates or opens.
      Only the exhaustion of the 32-bit segment numbers can. */
  lemma {:induction false} FinalDrainSuffices(
      c: Codec, l: Layout, g: Config, ms: seq<Moment>, steps: seq<Step>, d: nat, n: nat)
    requires Lawful(c) && IsRun(c, l, g, ms, steps) && d < n < |steps| && DrainsFirst(ms, steps, d)
    requires Referenceless(steps, d, n) && Used(ms, steps, d + 1, n) < DrainRecords(g)
    requires Ready(ms[n].state) && steps[n].AppendRow? && Judge(ms[n].state, steps[n].record).Accept?
    requires ms[n].state.nextSegmentNumber != U32_MAX
    ensures ms[n + 1].accepted == ms[n].accepted + [steps[n].record]
  {
    DrainBudget(c, l, g, ms, steps, d, n);
    RunDrainAccepts(c, l, g, ms, steps, n, DrainRecords(g) - Used(ms, steps, d + 1, n));
  }

  lemma {:induction false} RunDrainAccepts(
      c: Codec, l: Layout, g: Config, ms: seq<Moment>, steps: seq<Step>, n: nat, k: int)
    requires Lawful(c) && IsRun(c, l, g, ms, steps) && n < |steps| && Covered(c, ms[n], k) && k >= 1
    requires Ready(ms[n].state) && steps[n].AppendRow? && Judge(ms[n].state, steps[n].record).Accept?
    requires ms[n].state.nextSegmentNumber != U32_MAX
    ensures ms[n + 1].accepted == ms[n].accepted + [steps[n].record]
  {
    RunInv(c, l, g, ms, steps, n);
    assert StepAt(c, l, ms, steps, n);
    DrainAccepts(c, l, ms[n], steps[n], ms[n + 1], k);
  }
}
