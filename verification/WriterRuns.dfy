/** Every reachable writer: the steps of a run, the rows it accepted, and the invariant that every step
    keeps, publication and finalization included. */
module WriterRuns {
  import opened Records
  import opened Storage
  import opened Formats
  import opened Index
  import opened Merge
  import opened Writer
  import opened WriterLedger
  import opened WriterStore
  import opened WriterAppend
  import DT = DepthTransaction
  import SS = SourceState

  // --- The rows of one source -------------------------------------------------------------------

  function OfSource(rs: seq<Record>, id: nat): seq<Record>
    decreases |rs|
  {
    if rs == [] then []
    else OfSource(rs[..|rs| - 1], id) + (if rs[|rs| - 1].sourceId == id then [rs[|rs| - 1]] else [])
  }

  lemma {:induction false} OfSourceAppend(rs: seq<Record>, r: Record, id: nat)
    ensures OfSource(rs + [r], id) == OfSource(rs, id) + (if r.sourceId == id then [r] else [])
  {
    assert (rs + [r])[..|rs + [r]| - 1] == rs;
  }

  lemma {:induction false} OfSourceValid(rs: seq<Record>, id: nat)
    requires SS.AllValid(rs)
    ensures SS.AllValid(OfSource(rs, id))
    decreases |rs|
  {
    if rs != [] { OfSourceValid(rs[..|rs| - 1], id); }
  }

  lemma {:induction false} OfSourceAbsent(rs: seq<Record>, id: nat)
    requires forall i :: 0 <= i < |rs| ==> rs[i].sourceId != id
    ensures OfSource(rs, id) == []
    decreases |rs|
  {
    if rs != [] { OfSourceAbsent(rs[..|rs| - 1], id); }
  }

  // --- The history of a run ---------------------------------------------------------------------

  /** Source i's state is what its accepted rows, in order of arrival, lead to. */
  ghost predicate SourceAt(s: State, H: seq<Record>, i: int)
    requires 0 <= i < |s.sources| == |s.sourceStates|
  {
    Leads(s.sources[i], OfSource(H, i + 1), s.sourceStates[i])
  }

  ghost predicate RowInRange(s: State, H: seq<Record>, i: int)
    requires 0 <= i < |H|
  {
    ValidRecord(H[i]) && 0 < H[i].sourceId <= |s.sources| && H[i].shardIndex < |s.segments|
  }

  /** The row came in at these clocks. */
  ghost predicate CameAt(r: Record, monotonic: int, realtime: int) {
    r.receiveMonotonicNs == monotonic && r.receiveRealtimeNs == realtime
  }

  /** The replay anchor is the earliest moment known: the start or an earlier accepted row. */
  ghost predicate AnchorOk(s: State, H: seq<Record>) {
    var at, clock := s.manifest.replayAnchorMonotonicNs, s.manifest.replayAnchorReceiveNs;
    && 0 < at <= s.config.startedMonotonicNs
    && (forall i :: 0 <= i < |H| ==> at <= H[i].receiveMonotonicNs)
    && (|| (at == s.config.startedMonotonicNs && clock == s.config.startedReceiveNs)
        || exists i :: 0 <= i < |H| && CameAt(H[i], at, clock))
  }

  ghost predicate ShardAt(c: Codec, s: State, H: seq<Record>, n: int)
    requires |s.blocks| == |s.log| && 0 <= n < |s.segments|
  {
    OfShard(H, n) == Stream(c, s, n)
  }

  /** `H` is the sequence of rows the run accepted, over all shards, in order of acceptance. */
  ghost predicate HistoryOk(c: Codec, s: State, H: seq<Record>)
    requires |s.blocks| == |s.log| && |s.sources| == |s.sourceStates|
  {
    && (forall i {:trigger RowInRange(s, H, i)} :: 0 <= i < |H| ==> RowInRange(s, H, i))
    && (forall n {:trigger ShardAt(c, s, H, n)} :: 0 <= n < |s.segments| ==> ShardAt(c, s, H, n))
    && (forall i {:trigger SourceAt(s, H, i)} :: 0 <= i < |s.sources| ==> SourceAt(s, H, i))
    && s.manifest.recordCount == |H|
    && s.manifest.firstReceiveNs == FirstReceive(H) && s.manifest.lastReceiveNs == LastReceive(H)
    && AnchorOk(s, H)
  }

  /** A step that accepts no row leaves these alone; sources may be added, inactive. */
  ghost predicate Quiet(c: Codec, s: State, t: State) {
    && WroteOut(c, s, t) && t.config == s.config
    && |s.sourceStates| == |s.sources| && |t.sourceStates| == |t.sources|
    && s.sources <= t.sources && s.sourceStates <= t.sourceStates
    && (forall i :: |s.sources| <= i < |t.sources| ==> t.sourceStates[i] == SS.Initial(t.sources[i]))
    && t.manifest.recordCount == s.manifest.recordCount
    && t.manifest.firstReceiveNs == s.manifest.firstReceiveNs && t.manifest.lastReceiveNs == s.manifest.lastReceiveNs
    && t.manifest.replayAnchorMonotonicNs == s.manifest.replayAnchorMonotonicNs
    && t.manifest.replayAnchorReceiveNs == s.manifest.replayAnchorReceiveNs
  }

  lemma {:induction false} QuietKeepsHistory(c: Codec, s: State, t: State, H: seq<Record>)
    requires |s.blocks| == |s.log| && |s.sources| == |s.sourceStates| && HistoryOk(c, s, H) && Quiet(c, s, t)
    ensures HistoryOk(c, t, H)
  {
    forall i | 0 <= i < |H|
      ensures RowInRange(t, H, i)
    {
      assert RowInRange(s, H, i);
    }
    forall n | 0 <= n < |t.segments|
      ensures ShardAt(c, t, H, n)
    {
      assert ShardAt(c, s, H, n) && Stream(c, t, n) == Stream(c, s, n);
    }
    forall i | 0 <= i < |t.sources|
      ensures SourceAt(t, H, i)
    {
      if i < |s.sources| {
        assert SourceAt(s, H, i);
      } else {
        UnknownSource(s, H, i);
        LeadsFromNothing(t.sources[i]);
      }
    }
  }

  // --- An accepted row extends the history -------------------------------------------------------

  /** What the verdict says about the row's source. */
  ghost predicate SourceVerdict(s: State, r: Record, v: Verdict) {
    && |s.sourceStates| == |s.sources| && ValidRecord(r) && v.Accept? && 0 < r.sourceId
    && (if v.added.Some? then
          r.sourceId == |s.sources| + 1 && SS.Advance(r, SS.Initial(v.added.value), false) == Some(v.source)
        else
          r.sourceId <= |s.sources| && SS.Advance(r, s.sourceStates[r.sourceId - 1], false) == Some(v.source))
  }

  lemma {:induction false} JudgeSourceVerdict(s: State, r: Record)
    requires Shape(s) && Judge(s, r).Accept?
    ensures SourceVerdict(s, r, Judge(s, r))
    ensures s.replayAnchorFrozen ==> r.receiveMonotonicNs >= s.manifest.replayAnchorMonotonicNs
    ensures Judge(s, r).added.Some? ==>
            |s.sources| < MAXIMUM_SOURCES && ValidSource(Judge(s, r).added.value, |s.sources|)
  {
  }

  lemma {:induction false} SourceStep(x: Source, rs: seq<Record>, from: SS.State, r: Record, next: SS.State)
    requires SS.AllValid(rs) && ValidRecord(r) && SS.Replay(SS.Initial(x), rs, SS.NeverRebase) == Some(from)
    requires SS.Advance(r, from, false) == Some(next)
    ensures SS.AllValid(rs + [r]) && SS.Replay(SS.Initial(x), rs + [r], SS.NeverRebase) == Some(next)
  {
    SS.ReplayAppend(SS.Initial(x), rs, r, SS.NeverRebase);
  }

  /** Which source the row changed, and how. */
  lemma {:induction false} RowSources(s: State, t: State, r: Record, v: Verdict, i: nat)
    requires RowFields(s, t, r, v) && SourceVerdict(s, r, v) && i < |t.sources|
    ensures |t.sourceStates| == |t.sources|
    ensures i < |s.sources| ==> t.sources[i] == s.sources[i]
    ensures i < |s.sources| && r.sourceId != i + 1 ==> t.sourceStates[i] == s.sourceStates[i]
    ensures r.sourceId == i + 1 ==> t.sourceStates[i] == v.source
    ensures i >= |s.sources| ==> v.added == Some(t.sources[i]) && r.sourceId == i + 1
  {
  }

  /** Source i's history, told of its parts. */
  ghost predicate Leads(x: Source, rows: seq<Record>, state: SS.State) {
    SS.AllValid(rows) && SS.Replay(SS.Initial(x), rows, SS.NeverRebase) == Some(state)
  }

  lemma {:induction false} LeadsFromNothing(x: Source)
    ensures Leads(x, [], SS.Initial(x))
  {
  }

  lemma {:induction false} LeadsOn(x: Source, rows: seq<Record>, from: SS.State, r: Record, next: SS.State)
    requires Leads(x, rows, from) && ValidRecord(r) && SS.Advance(r, from, false) == Some(next)
    ensures Leads(x, rows + [r], next)
  {
    SourceStep(x, rows, from, r, next);
  }

  /** No row so far is of a source the catalog does not hold. */
  lemma {:induction false} UnknownSource(s: State, H: seq<Record>, i: nat)
    requires forall k {:trigger RowInRange(s, H, k)} :: 0 <= k < |H| ==> RowInRange(s, H, k)
    requires |s.sources| <= i
    ensures OfSource(H, i + 1) == []
  {
    forall j | 0 <= j < |H|
      ensures H[j].sourceId != i + 1
    {
      assert RowInRange(s, H, j);
    }
    OfSourceAbsent(H, i + 1);
  }

  lemma {:induction false} RowSourceAt(s: State, t: State, H: seq<Record>, r: Record, v: Verdict, i: nat)
    requires RowFields(s, t, r, v) && SourceVerdict(s, r, v) && i < |t.sources|
    requires i < |s.sources| ==> Leads(s.sources[i], OfSource(H, i + 1), s.sourceStates[i])
    requires i >= |s.sources| ==> OfSource(H, i + 1) == []
    ensures |t.sourceStates| == |t.sources| && Leads(t.sources[i], OfSource(H + [r], i + 1), t.sourceStates[i])
  {
    OfSourceAppend(H, r, i + 1);
    RowSources(s, t, r, v, i);
    if i < |s.sources| && r.sourceId == i + 1 {
      LeadsOn(s.sources[i], OfSource(H, i + 1), s.sourceStates[i], r, v.source);
    } else if i < |s.sources| {
      assert OfSource(H + [r], i + 1) == OfSource(H, i + 1);
    } else {
      LeadsFromNothing(t.sources[i]);
      LeadsOn(t.sources[i], [], SS.Initial(t.sources[i]), r, v.source);
    }
  }

  lemma {:induction false} RowAnchor(s: State, t: State, H: seq<Record>, r: Record)
    requires AnchorOk(s, H) && ValidRecord(r) && t.config == s.config
    requires t.manifest.replayAnchorMonotonicNs == CountRow(s.manifest, r).replayAnchorMonotonicNs
    requires t.manifest.replayAnchorReceiveNs == CountRow(s.manifest, r).replayAnchorReceiveNs
    ensures AnchorOk(t, H + [r])
  {
    var G := H + [r];
    var at, clock := s.manifest.replayAnchorMonotonicNs, s.manifest.replayAnchorReceiveNs;
    if r.receiveMonotonicNs < at {
      assert CameAt(G[|H|], r.receiveMonotonicNs, r.receiveRealtimeNs);
    } else if at != s.config.startedMonotonicNs || clock != s.config.startedReceiveNs {
      var i :| 0 <= i < |H| && CameAt(H[i], at, clock);
      assert CameAt(G[i], at, clock);
    }
  }

  lemma {:induction false} RowKeepsHistory(c: Codec, s: State, t: State, H: seq<Record>, r: Record, v: Verdict)
    requires |s.blocks| == |s.log| && |s.sources| == |s.sourceStates| && HistoryOk(c, s, H)
    requires StreamGrew(c, s, t, r.shardIndex, r) && RowFields(s, t, r, v) && SourceVerdict(s, r, v)
    requires |t.sources| == |t.sourceStates|
    ensures HistoryOk(c, t, H + [r])
  {
    var G := H + [r];
    forall i | 0 <= i < |G|
      ensures RowInRange(t, G, i)
    {
      if i < |H| { assert RowInRange(s, H, i); }
    }
    forall n | 0 <= n < |t.segments|
      ensures ShardAt(c, t, G, n)
    {
      assert ShardAt(c, s, H, n);
      OfShardAppend(H, r, n);
    }
    forall i | 0 <= i < |t.sources|
      ensures SourceAt(t, G, i)
    {
      if i < |s.sources| { assert SourceAt(s, H, i); } else { UnknownSource(s, H, i); }
      RowSourceAt(s, t, H, r, v, i);
    }
    ReceiveAppend(H, r);
    RowAnchor(s, t, H, r);
  }

  // --- The invariant ------------------------------------------------------------------------------

  ghost predicate SourceValidAt(s: State, i: int)
    requires 0 <= i < |s.sources|
  {
    ValidSource(s.sources[i], i)
  }

  /** The receive times of the manifest are 64-bit values. */
  ghost predicate FitsTimes(m: Manifest) {
    && m.startedReceiveNs <= I64_MAX && m.finalizedReceiveNs <= I64_MAX
    && 0 <= m.firstReceiveNs <= I64_MAX && 0 <= m.lastReceiveNs <= I64_MAX && 0 < m.replayAnchorReceiveNs <= I64_MAX
  }

  ghost predicate ManifestFixed(s: State) {
    var m := s.manifest;
    && m.magic == MANIFEST_MAGIC && m.headerBytes == MANIFEST_BYTES && m.producerEpoch == s.config.producerEpoch
    && m.maximumBytes == s.config.maximumBytes && m.segmentTargetBytes == s.config.segmentTargetBytes
    && m.shardCount == s.config.shardCount && m.manifestCrc == 0
    && m.startedReceiveNs > 0 && m.finalizedReceiveNs >= 0
    && FitsTimes(m) && m.indexCount <= U32_MAX && m.complete <= 1
  }

  ghost predicate Setup(s: State) {
    && ValidConfig(s.config) && |s.segments| == s.config.shardCount && |s.sources| <= MAXIMUM_SOURCES
    && (forall i {:trigger SourceValidAt(s, i)} :: 0 <= i < |s.sources| ==> SourceValidAt(s, i))
    && ManifestFixed(s) && s.manifest.segmentCount == |s.files|
    && s.nextSegmentNumber <= U32_MAX && |s.index| <= U32_MAX && s.cutGeneration <= U64_MAX
    && |s.config.sources| <= |s.sources| && |s.referencePayload| <= MAXIMUM_REFERENCE_BYTES
  }

  /** Accepted progress never reaches an open transaction nor beyond the rows received. */
  ghost predicate ProgressAt(s: State, n: int)
    requires 0 <= n < |s.segments| == |s.depth| && n < MAXIMUM_SHARDS
  {
    && s.progress.shardSequences[n] <= s.segments[n].previousSequence
    && (s.depth[n].Open? ==> s.progress.shardSequences[n] < s.depth[n].firstShardSequence)
  }

  ghost predicate ProgressOk(s: State)
    requires |s.segments| == |s.depth| <= MAXIMUM_SHARDS
  {
    && s.progress.producerEpoch == s.config.producerEpoch && s.progress.shardCount == s.config.shardCount
    && forall n {:trigger ProgressAt(s, n)} :: 0 <= n < |s.segments| ==> ProgressAt(s, n)
  }

  ghost predicate Inv(c: Codec, s: State, H: seq<Record>) {
    && StoreOk(c, s) && Occupied(s) && Ledger(c, s) && GapsOk(s) && Setup(s)
    && ProgressOk(s) && HistoryOk(c, s, H)
  }

  lemma {:induction false} InvClosedEmpty(c: Codec, s: State)
    requires StoreOk(c, s)
    ensures ClosedEmpty(s) && Positioned(s)
  {
    forall n | 0 <= n < |s.segments| && !s.segments[n].open
      ensures s.segments[n].pending == [] && s.segments[n].positions == map[]
    {
      assert SegmentAt(c, s, n);
    }
    StorePositioned(c, s);
  }

  // --- Starting -----------------------------------------------------------------------------------

  lemma {:induction false} StartStore(c: Codec, g: Config)
    requires Start(c, g).Started?
    ensures StoreOk(c, Start(c, g).state) && Occupied(Start(c, g).state)
  {
    var s := Start(c, g).state;
    forall n | 0 <= n < |s.segments|
      ensures SegmentAt(c, s, n) && StreamAt(c, s, n)
      ensures SegmentIndexed(c, s.segments[n], n, s.index, s.blocks, s.log)
    {
      assert Stream(c, s, n) == [];
    }
  }

  lemma {:induction false} StartInv(c: Codec, g: Config)
    requires Start(c, g).Started?
    ensures Inv(c, Start(c, g).state, [])
  {
    var s := Start(c, g).state;
    StartStore(c, g);
    StartLedger(c, g);
    forall n | 0 <= n < |s.segments|
      ensures ShardAt(c, s, [], n)
    {
      assert Stream(c, s, n) == [];
    }
    forall i | 0 <= i < |s.sources|
      ensures SourceAt(s, [], i)
    {
      LeadsFromNothing(s.sources[i]);
    }
    assert forall i :: 0 <= i < |s.sources| ==> SourceValidAt(s, i);
  }

  // --- Steps --------------------------------------------------------------------------------------

  datatype Step =
    | Register(sources: seq<Source>)
    | AppendRow(record: Record)
    | AddGap(gap: Gap)
    | Progressed(progress: Progress)
    | Reference(payload: seq<u8>)
    | Publish(now: u64)
    | Drain
    | Seal(reason: StopReason, finalizedReceiveNs: i64, committedNow: u64)

  ghost predicate Ready(s: State) {
    Shape(s) && Positioned(s) && |s.segments| == s.config.shardCount <= MAXIMUM_SHARDS
  }

  function Apply(c: Codec, l: Layout, s: State, step: Step): Outcome
    requires Ready(s)
  {
    match step
    case Register(sources) => RegisterSources(s, sources)
    case AppendRow(r) => Append(c, s, r)
    case AddGap(g) => AppendGap(s, g)
    case Progressed(p) => UpdateProgress(s, p)
    case Reference(payload) => SetReferencePayload(s, payload)
    case Publish(now) => PublishCut(c, s, now)
    case Drain => BeginFinalDrain(s)
    case Seal(reason, at, now) => Finalize(c, l, s, reason, at, now)
  }

  /** The rows a step adds to the history. */
  function NewRows(step: Step, o: Outcome): seq<Record> {
    if step.AppendRow? && o.Done? && o.status == Ok then [step.record] else []
  }

  // --- Each kind of step keeps the invariant --------------------------------------------------------

  lemma {:induction false} AddSourcesInactive(s: State, incoming: seq<Source>, base: State, count: nat)
    requires |base.sources| <= |s.sources| == count == |s.sourceStates| && RegisteredCount(base, incoming, count).Some?
    ensures var t := AddSources(s, incoming);
            && |t.sources| == |t.sourceStates| && s.sources <= t.sources && s.sourceStates <= t.sourceStates
            && forall i :: count <= i < |t.sources| ==>
                t.sourceStates[i] == SS.Initial(t.sources[i]) && ValidSource(t.sources[i], i)
    decreases |incoming|
  {
    if incoming != [] {
      var x := incoming[0];
      if x.sourceId <= |base.sources| {
        AddSourcesInactive(s, incoming[1..], base, count);
      } else {
        var u := s.(sources := s.sources + [Inactive(x)], sourceStates := s.sourceStates + [SS.Initial(Inactive(x))]);
        AddSourcesInactive(u, incoming[1..], base, count + 1);
        assert ValidSource(Inactive(x), count);
      }
    }
  }

  /** Nothing but the catalog and its reservations has changed. */
  ghost predicate OnlySources(s: State, t: State) {
    t == s.(sources := t.sources, sourceStates := t.sourceStates, projectedBytes := t.projectedBytes,
            cutReservedBytes := t.cutReservedBytes, quotaReached := t.quotaReached,
            maximumGapRecords := t.maximumGapRecords, manifest := s.manifest.(sourceCount := t.manifest.sourceCount))
  }

  lemma {:induction false} RegisterFrame(s: State, incoming: seq<Source>)
    ensures OnlySources(s, RegisterSources(s, incoming).state)
  {
    if RegisterSources(s, incoming).status == Ok {
      var added := RegisteredCount(s, incoming, |s.sources|).value - |s.sources|;
      var u := s.(projectedBytes := s.projectedBytes + added * SOURCE_RESERVATION,
                  cutReservedBytes := s.cutReservedBytes + added * (2 * SOURCE_STORAGE));
      AddSourcesFrame(u, incoming, s, |s.sources|);
    }
  }

  lemma {:induction false} RegisterQuiet(c: Codec, s: State, incoming: seq<Source>)
    requires StoreOk(c, s)
    ensures var t := RegisterSources(s, incoming).state;
            && RegisterSources(s, incoming).Done? && SameStore(s, t) && Quiet(c, s, t)
            && (forall i :: |s.sources| <= i < |t.sources| ==> ValidSource(t.sources[i], i))
            && OnlySources(s, t)
            && (|s.sources| <= MAXIMUM_SOURCES ==> |t.sources| <= MAXIMUM_SOURCES)
  {
    var t := RegisterSources(s, incoming).state;
    if RegisterSources(s, incoming).status == Ok {
      var total := RegisteredCount(s, incoming, |s.sources|).value;
      var added := total - |s.sources|;
      var u := s.(projectedBytes := s.projectedBytes + added * SOURCE_RESERVATION,
                  cutReservedBytes := s.cutReservedBytes + added * (2 * SOURCE_STORAGE));
      AddSourcesFrame(u, incoming, s, |s.sources|);
      AddSourcesInactive(u, incoming, s, |s.sources|);
    }
    RegisterFrame(s, incoming);
    SameStoreKeeps(c, s, t);
  }

  lemma {:induction false} GapsMoreSources(s: State, t: State)
    requires GapsOk(s) && s.sources <= t.sources && |t.segments| == |s.segments| && t.gaps == s.gaps
    requires t.manifest.gapCount == s.manifest.gapCount
    ensures GapsOk(t)
  {
  }

  lemma {:induction false} RegisterKeeps(c: Codec, s: State, H: seq<Record>, incoming: seq<Source>)
    requires Inv(c, s, H)
    ensures RegisterSources(s, incoming).Done? && Inv(c, RegisterSources(s, incoming).state, H)
  {
    var t := RegisterSources(s, incoming).state;
    RegisterQuiet(c, s, incoming);
    RegisterKeepsLedger(c, s, incoming);
    SameStoreKeeps(c, s, t);
    QuietKeepsHistory(c, s, t, H);
    GapsMoreSources(s, t);
    forall i | 0 <= i < |t.sources|
      ensures SourceValidAt(t, i)
    {
      if i < |s.sources| { assert SourceValidAt(s, i); }
    }
    ProgressSame(s, t);
  }

  lemma {:induction false} ProgressSame(s: State, t: State)
    requires |s.segments| == |s.depth| <= MAXIMUM_SHARDS && ProgressOk(s)
    requires t.progress == s.progress && t.depth == s.depth && t.config == s.config && |t.segments| == |s.segments|
    requires forall n :: 0 <= n < |s.segments| ==> t.segments[n].previousSequence == s.segments[n].previousSequence
    ensures ProgressOk(t)
  {
    forall n | 0 <= n < |t.segments|
      ensures ProgressAt(t, n)
    {
      assert ProgressAt(s, n);
    }
  }

  /** Steps that touch neither rows nor sources. */
  ghost predicate Bookkeeping(s: State, t: State) {
    && SameStore(s, t) && t.sources == s.sources && t.sourceStates == s.sourceStates && t.config == s.config
    && t.cutGeneration <= U64_MAX && |t.referencePayload| <= MAXIMUM_REFERENCE_BYTES
    && t.manifest.recordCount == s.manifest.recordCount && t.manifest.segmentCount == s.manifest.segmentCount
    && t.manifest.firstReceiveNs == s.manifest.firstReceiveNs && t.manifest.lastReceiveNs == s.manifest.lastReceiveNs
    && t.manifest.replayAnchorMonotonicNs == s.manifest.replayAnchorMonotonicNs
    && t.manifest.replayAnchorReceiveNs == s.manifest.replayAnchorReceiveNs
    && ManifestFixed(t)
  }

  lemma {:induction false} BookkeepingKeeps(c: Codec, s: State, t: State, H: seq<Record>)
    requires Inv(c, s, H) && Bookkeeping(s, t) && Ledger(c, t) && GapsOk(t) && ProgressOk(t)
    ensures Inv(c, t, H)
  {
    SameStoreKeeps(c, s, t);
    QuietKeepsHistory(c, s, t, H);
    forall i | 0 <= i < |t.sources|
      ensures SourceValidAt(t, i)
    {
      assert SourceValidAt(s, i);
    }
  }

  lemma {:induction false} GapShape(s: State, g: Gap)
    ensures AppendGap(s, g).Done?
    ensures var t :=
            AppendGap(s, g).state; t == s.(gaps := t.gaps, manifest := s.manifest.(gapCount := t.manifest.gapCount))
  {
  }

  lemma {:induction false} TableBookkeeping(s: State, t: State)
    requires ManifestFixed(s) && |s.sourceStates| == |s.sources| && s.cutGeneration <= U64_MAX
    requires |s.referencePayload| <= MAXIMUM_REFERENCE_BYTES
    requires t == s.(gaps := t.gaps, manifest := s.manifest.(gapCount := t.manifest.gapCount))
    ensures Bookkeeping(s, t)
  {
  }

  lemma {:induction false} GapFields(s: State, g: Gap)
    requires ManifestFixed(s) && |s.sourceStates| == |s.sources| && s.cutGeneration <= U64_MAX
    requires |s.referencePayload| <= MAXIMUM_REFERENCE_BYTES
    ensures AppendGap(s, g).Done? && Bookkeeping(s, AppendGap(s, g).state)
    ensures AppendGap(s, g).state == s.(gaps := AppendGap(s, g).state.gaps, manifest := AppendGap(s, g).state.manifest)
  {
    GapShape(s, g);
    TableBookkeeping(s, AppendGap(s, g).state);
  }

  lemma {:induction false} ReferenceFields(s: State, payload: seq<u8>)
    requires ManifestFixed(s) && |s.sourceStates| == |s.sources| && s.cutGeneration <= U64_MAX
    requires |s.referencePayload| <= MAXIMUM_REFERENCE_BYTES
    ensures SetReferencePayload(s, payload).Done? && Bookkeeping(s, SetReferencePayload(s, payload).state)
    ensures var t := SetReferencePayload(s, payload).state;
            t == s.(referencePayload := t.referencePayload, referenceReservedBytes := t.referenceReservedBytes,
                    projectedBytes := t.projectedBytes, cutReservedBytes := t.cutReservedBytes,
                        quotaReached := t.quotaReached)
  {
  }

  /** The rest follows once the changed tables are known to be good. */
  lemma {:induction false} TablesKeep(c: Codec, s: State, t: State, H: seq<Record>)
    requires Inv(c, s, H) && Bookkeeping(s, t) && Ledger(c, t) && GapsOk(t) && t.progress == s.progress
    ensures Inv(c, t, H)
  {
    ProgressSame(s, t);
    BookkeepingKeeps(c, s, t, H);
  }

  lemma {:induction false} GapKeeps(c: Codec, s: State, H: seq<Record>, g: Gap)
    requires Inv(c, s, H)
    ensures AppendGap(s, g).Done? && AppendGap(s, g).status != OutOfRange && Inv(c, AppendGap(s, g).state, H)
  {
    GapTableNeverFull(c, s, g);
    GapFields(s, g);
    TablesKeep(c, s, AppendGap(s, g).state, H);
  }

  lemma {:induction false} ProgressKeeps(c: Codec, s: State, H: seq<Record>, p: Progress)
    requires Inv(c, s, H)
    ensures UpdateProgress(s, p).Done? && Inv(c, UpdateProgress(s, p).state, H)
  {
    var t := UpdateProgress(s, p).state;
    if UpdateProgress(s, p).status == Ok {
      forall n | 0 <= n < |t.segments|
        ensures ProgressAt(t, n)
      {
        assert ProgressAllowed(s, p, n);
      }
    }
    BookkeepingKeeps(c, s, t, H);
  }

  lemma {:induction false} ReferenceKeeps(c: Codec, s: State, H: seq<Record>, payload: seq<u8>)
    requires Inv(c, s, H)
    ensures SetReferencePayload(s, payload).Done? && Inv(c, SetReferencePayload(s, payload).state, H)
  {
    ReferenceKeepsLedger(c, s, payload);
    ReferenceFields(s, payload);
    GapsMoreSources(s, SetReferencePayload(s, payload).state);
    TablesKeep(c, s, SetReferencePayload(s, payload).state, H);
  }

  lemma {:induction false} DrainKeeps(c: Codec, s: State, H: seq<Record>)
    requires Inv(c, s, H)
    ensures BeginFinalDrain(s).Done? && Inv(c, BeginFinalDrain(s).state, H)
  {
    ProgressSame(s, BeginFinalDrain(s).state);
    BookkeepingKeeps(c, s, BeginFinalDrain(s).state, H);
  }

  // --- Appending ----------------------------------------------------------------------------------

  lemma {:induction false} SealCounters(c: Codec, s: State, n: nat)
    requires n < |s.segments| <= 0x1_0000 && SealSegment(c, s, n).Some?
    ensures SealSegment(c, s, n).value.nextSegmentNumber == s.nextSegmentNumber
    ensures SealSegment(c, s, n).value.index == s.index
  {
    SealFrame(c, s, n);
  }

  lemma {:induction false} SeatCounters(c: Codec, s: State, n: nat, rotate: bool, openNeeded: bool)
    requires Shape(s) && |s.segments| <= 0x1_0000 && PositionedAt(s, n) && (rotate ==> openNeeded)
    requires SeatRow(c, s, n, rotate, openNeeded).Some?
    ensures var t := SeatRow(c, s, n, rotate, openNeeded).value;
            t.index == s.index && t.nextSegmentNumber == s.nextSegmentNumber + (if openNeeded then 1 else 0)
  {
    if rotate { SealCounters(c, s, n); }
  }

  lemma {:induction false} TakeCounters(c: Codec, s: State, r: Record, v: Verdict)
    requires Shape(s) && v.Accept? && r.shardIndex < |s.segments| && 0 < r.sourceId <= |s.sources|
    requires PositionedAt(s, r.shardIndex)
    ensures |TakeRow(c, s, r, v).index| == |s.index| + (if KeyOf(r) in s.segments[r.shardIndex].positions then 0 else 1)
    ensures TakeRow(c, s, r, v).nextSegmentNumber == s.nextSegmentNumber
  {
  }

  lemma {:induction false} CommitCounters(c: Codec, s: State, r: Record, v: Verdict, p: Plan)
    requires Shape(s) && Positioned(s) && |s.segments| <= 0x1_0000 && Admitted(s, r, v) && (p.rotate ==> p.openNeeded)
    requires CommitRow(c, s, r, v, p).Done? && |s.index| <= U32_MAX
    requires s.nextSegmentNumber <= U32_MAX && (p.openNeeded ==> s.nextSegmentNumber != U32_MAX)
    ensures CommitRow(c, s, r, v, p).state.nextSegmentNumber <= U32_MAX
    ensures |CommitRow(c, s, r, v, p).state.index| <= U32_MAX
  {
    var a, b, d := CommitStages(c, s, r, v, p);
    SeatCounters(c, a, r.shardIndex, p.rotate, p.openNeeded);
    AddSourceFields(b, v.added, v.source);
    TakeCounters(c, d, r, v);
    assert PrepareRow(c, s, r, v, p) == Some(d);
  }

  lemma {:induction false} ReserveRowCounters(c: Codec, s: State, r: Record, v: Verdict)
    requires Shape(s) && Positioned(s) && |s.segments| <= 0x1_0000 && Admitted(s, r, v) && ReserveRow(c, s, r, v).Done?
    requires s.nextSegmentNumber <= U32_MAX && |s.index| <= U32_MAX
    ensures ReserveRow(c, s, r, v).state.nextSegmentNumber <= U32_MAX && |ReserveRow(c, s, r, v).state.index| <= U32_MAX
  {
    var p := PlanOf(c, s, r);
    var required := RequiredBytes(c, p, v.added.Some?);
    if Unrepresentable(c, s, p, v.added.Some?) {
    } else if AddWithin(s.projectedBytes, required, s.writeLimitBytes) {
      CommitCounters(c, s, r, v, p);
    } else {
      var f := FlushAll(c, s, |s.segments|).value;
      FlushAllFrame(c, s, |s.segments|);
      if AddWithin(f.projectedBytes, required, s.writeLimitBytes) { CommitCounters(c, f, r, v, p); }
    }
  }

  lemma {:induction false} AppendCounters(c: Codec, s: State, r: Record)
    requires Ready(s) && Append(c, s, r).Done? && s.nextSegmentNumber <= U32_MAX && |s.index| <= U32_MAX
    ensures Append(c, s, r).state.nextSegmentNumber <= U32_MAX && |Append(c, s, r).state.index| <= U32_MAX
  {
    var v := Judge(s, r);
    if v.Accept? {
      JudgeAdmits(s, r);
      if MustFlush(s.segments[r.shardIndex], r) {
        FlushBlockFrame(c, s, r.shardIndex);
        ReserveRowCounters(c, FlushBlock(c, s, r.shardIndex).value, r, v);
      } else {
        ReserveRowCounters(c, s, r, v);
      }
    }
  }

  lemma {:induction false} RowProgress(s: State, t: State, r: Record, v: Verdict)
    requires Shape(s) && |s.segments| <= MAXIMUM_SHARDS && ProgressOk(s) && RowFields(s, t, r, v) && Judged(s, r, v)
    requires |t.depth| == |t.segments|
    ensures ProgressOk(t)
  {
    forall n | 0 <= n < |t.segments|
      ensures ProgressAt(t, n)
    {
      assert ProgressAt(s, n);
      if n == r.shardIndex && v.transaction.Open? { DT.AdvanceKeepsIdentity(r, s.depth[n]); }
    }
  }

  lemma {:induction false} RowSetup(s: State, t: State, r: Record, v: Verdict)
    requires Setup(s) && RowFields(s, t, r, v) && ValidRecord(r)
    requires v.added.Some? ==> |s.sources| < MAXIMUM_SOURCES && ValidSource(v.added.value, |s.sources|)
    requires t.nextSegmentNumber <= U32_MAX && |t.index| <= U32_MAX
    ensures Setup(t)
  {
    forall i | 0 <= i < |t.sources|
      ensures SourceValidAt(t, i)
    {
      if i < |s.sources| { assert SourceValidAt(s, i); }
    }
  }

  lemma {:induction false} RefusalKeeps(c: Codec, s: State, t: State, H: seq<Record>)
    requires Inv(c, s, H) && Refusal(c, s, t) && Ledger(c, t)
    ensures Inv(c, t, H)
  {
    var u := t.(quotaReached := s.quotaReached);
    assert FlushedFrom(s, u);
    QuietKeepsHistory(c, s, t, H);
    GapsMoreSources(s, t);
    forall i | 0 <= i < |t.sources|
      ensures SourceValidAt(t, i)
    {
      assert SourceValidAt(s, i);
    }
    forall n | 0 <= n < |s.segments|
      ensures t.segments[n].previousSequence == s.segments[n].previousSequence
    {
      assert u.segments[n].previousSequence == s.segments[n].previousSequence;
    }
    ProgressSame(s, t);
  }

  lemma {:induction false} CommittedKeeps(c: Codec, s: State, t: State, H: seq<Record>, r: Record, v: Verdict)
    requires Inv(c, s, H) && Committed(c, s, t, r, v) && Judged(s, r, v) && SourceVerdict(s, r, v) && Ledger(c, t)
    requires v.added.Some? ==> |s.sources| < MAXIMUM_SOURCES && ValidSource(v.added.value, |s.sources|)
    requires t.nextSegmentNumber <= U32_MAX && |t.index| <= U32_MAX
    ensures Inv(c, t, H + [r])
  {
    RowKeepsHistory(c, s, t, H, r, v);
    RowSetup(s, t, r, v);
    RowProgress(s, t, r, v);
    GapsMoreSources(s, t);
  }

  lemma {:induction false} AppendKeeps(c: Codec, s: State, H: seq<Record>, r: Record)
    requires Lawful(c) && Inv(c, s, H) && Ready(s) && Append(c, s, r).Done?
    ensures Inv(c, Append(c, s, r).state, H + NewRows(AppendRow(r), Append(c, s, r)))
  {
    InvClosedEmpty(c, s);
    AppendRefinesStreams(c, s, r);
    AppendKeepsLedger(c, s, r);
    AppendCounters(c, s, r);
    var o := Append(c, s, r);
    if Judge(s, r).Accept? {
      JudgeIsSound(s, r);
      JudgeSourceVerdict(s, r);
      if o.status == Ok { CommittedKeeps(c, s, o.state, H, r, Judge(s, r)); } else { RefusalKeeps(c, s, o.state, H); }
    }
    assert H + [] == H;
  }

  // === Publication, finalization and runs ====================================================================

  lemma {:induction false} FlushAllKeeps(c: Codec, s: State, H: seq<Record>)
    requires Lawful(c) && Inv(c, s, H) && FlushAll(c, s, |s.segments|).Some?
    ensures Inv(c, FlushAll(c, s, |s.segments|).value, H)
    ensures FlushedFrom(s, FlushAll(c, s, |s.segments|).value) && WroteOut(c, s, FlushAll(c, s, |s.segments|).value)
    ensures forall n :: 0 <= n < |s.segments| ==> FlushAll(c, s, |s.segments|).value.segments[n].pending == []
  {
    var f := FlushAll(c, s, |s.segments|).value;
    FlushAllKeepsStore(c, s, |s.segments|);
    FlushAllFrame(c, s, |s.segments|);
    FlushAllKeepsLedger(c, s, |s.segments|);
    FlushedOccupied(s, f);
    assert f.(quotaReached := s.quotaReached) == f;
    RefusalKeeps(c, s, f, H);
    InvClosedEmpty(c, f);
    forall n | 0 <= n < |s.segments|
      ensures f.segments[n].pending == []
    {
      assert f.segments[n].open == s.segments[n].open;
    }
  }

  lemma {:induction false} BlocksNonEmpty(c: Codec, s: State)
    requires StoreOk(c, s)
    ensures forall i :: 0 <= i < |s.blocks| ==> s.blocks[i].header.recordCount >= 1
  {
    forall i | 0 <= i < |s.blocks|
      ensures s.blocks[i].header.recordCount >= 1
    {
      assert BlockOk(c, s.blocks[i], s.log[i]);
    }
  }

  /** The statuses a binder may impose. */
  ghost predicate BinderRefuses(s: State, now: nat, status: Status) {
    s.config.binder.Some? && BindReference(s, now).0 == status != Ok
  }

  lemma {:induction false} CommitFields(s: State, cut: Cut)
    requires ManifestFixed(s) && |s.sourceStates| == |s.sources| && s.cutGeneration < U64_MAX
    requires |s.referencePayload| <= MAXIMUM_REFERENCE_BYTES
    ensures Bookkeeping(s, CommitCut(s, cut)) && CommitCut(s, cut).progress == s.progress
  {
  }

  lemma {:induction false} CommitKeepsTables(c: Codec, s: State, cut: Cut)
    requires Ledger(c, s) && GapsOk(s)
    ensures Ledger(c, CommitCut(s, cut)) && GapsOk(CommitCut(s, cut))
  {
  }

  /** A publication by a reachable writer is refused only for an inactive writer, an exhausted
      generation counter or its binder's word: the byte reservation always covers the cut. */
  lemma {:induction false} PublishOutcome(c: Codec, s: State, H: seq<Record>, now: nat)
    requires Lawful(c) && Inv(c, s, H) && PublishCut(c, s, now).Done?
    ensures var o := PublishCut(c, s, now);
            var f := FlushAll(c, s, |s.segments|);
            if !s.active || s.cutGeneration == U64_MAX then o == Done(InvalidArgument, s)
            else
              && f.Some?
              && if BindReference(f.value, now).0 == Ok
                 then o == Done(Ok, CommitCut(f.value, CutOf(f.value, now, BindReference(f.value, now).1)))
                 else BinderRefuses(f.value, now, o.status) && o.state == f.value
  {
    if s.active && s.cutGeneration != U64_MAX {
      var f := FlushAll(c, s, |s.segments|).value;
      FlushAllKeeps(c, s, H);
      BlocksNonEmpty(c, f);
      CutIsPrepaid(c, f);
    }
  }

  lemma {:induction false} CommitKeeps(c: Codec, f: State, H: seq<Record>, cut: Cut)
    requires Inv(c, f, H) && f.cutGeneration < U64_MAX
    ensures Inv(c, CommitCut(f, cut), H)
  {
    CommitFields(f, cut);
    CommitKeepsTables(c, f, cut);
    TablesKeep(c, f, CommitCut(f, cut), H);
  }

  lemma {:induction false} PublishKeeps(c: Codec, s: State, H: seq<Record>, now: nat)
    requires Lawful(c) && Inv(c, s, H) && PublishCut(c, s, now).Done?
    ensures Inv(c, PublishCut(c, s, now).state, H)
  {
    PublishOutcome(c, s, H, now);
    if s.active && s.cutGeneration != U64_MAX {
      var f := FlushAll(c, s, |s.segments|).value;
      FlushAllKeeps(c, s, H);
      if BindReference(f, now).0 == Ok { CommitKeeps(c, f, H, CutOf(f, now, BindReference(f, now).1)); }
    }
  }

  // --- Finalization -------------------------------------------------------------------------------

  ghost predicate SealFields(s: State, t: State) {
    && |t.segments| == |s.segments| && t.manifest == s.manifest.(segmentCount := t.manifest.segmentCount)
    && (forall n :: 0 <= n < |s.segments| ==> t.segments[n].previousSequence == s.segments[n].previousSequence)
    && t == s.(blocks := t.blocks, log := t.log, cache := t.cache, projectedBytes := t.projectedBytes,
               segments := t.segments, files := t.files, manifest := t.manifest)
  }

  lemma {:induction false} SealOneFields(c: Codec, s: State, n: nat)
    requires n < |s.segments| <= 0x1_0000 && SealSegment(c, s, n).Some?
    ensures SealFields(s, SealSegment(c, s, n).value)
  {
    if s.segments[n].open { FlushBlockFrame(c, s, n); }
  }

  lemma {:induction false} SealFieldsTransitive(s: State, t: State, u: State)
    requires SealFields(s, t) && SealFields(t, u)
    ensures SealFields(s, u)
  {
    forall n | 0 <= n < |s.segments|
      ensures u.segments[n].previousSequence == s.segments[n].previousSequence
    {
      assert t.segments[n].previousSequence == s.segments[n].previousSequence;
    }
  }

  lemma {:induction false} SealAllFields(c: Codec, s: State, k: nat)
    requires k <= |s.segments| <= 0x1_0000 && SealAll(c, s, k).Some?
    ensures SealFields(s, SealAll(c, s, k).value)
    decreases k
  {
    if k > 0 {
      SealAllFields(c, s, k - 1);
      SealOneFields(c, SealAll(c, s, k - 1).value, k - 1);
      SealFieldsTransitive(s, SealAll(c, s, k - 1).value, SealAll(c, s, k).value);
    }
  }

  lemma {:induction false} SealedInv(c: Codec, s: State, t: State, H: seq<Record>)
    requires Inv(c, s, H) && SealFields(s, t) && StoreOk(c, t) && Occupied(t) && Ledger(c, t) && WroteOut(c, s, t)
    requires |t.files| - |s.files| == t.manifest.segmentCount - s.manifest.segmentCount
    ensures Inv(c, t, H)
  {
    QuietKeepsHistory(c, s, t, H);
    GapsMoreSources(s, t);
    ProgressSame(s, t);
    forall i | 0 <= i < |t.sources|
      ensures SourceValidAt(t, i)
    {
      assert SourceValidAt(s, i);
    }
  }

  lemma {:induction false} SealAllKeeps(c: Codec, s: State, H: seq<Record>)
    requires Lawful(c) && Inv(c, s, H) && SealAll(c, s, |s.segments|).Some?
    ensures Inv(c, SealAll(c, s, |s.segments|).value, H)
    ensures forall n :: 0 <= n < |s.segments| ==> !SealAll(c, s, |s.segments|).value.segments[n].open
    ensures SealFields(s, SealAll(c, s, |s.segments|).value) && WroteOut(c, s, SealAll(c, s, |s.segments|).value)
  {
    var t := SealAll(c, s, |s.segments|).value;
    SealAllKeepsStore(c, s, |s.segments|);
    SealAllKeepsLedger(c, s, |s.segments|);
    SealAllFields(c, s, |s.segments|);
    SealedInv(c, s, t, H);
  }

  lemma {:induction false} FinalManifestFields(c: Codec, l: Layout, s: State, reason: StopReason, at: i64)
    requires ManifestFixed(s) && ValidConfig(s.config) && |s.sourceStates| == |s.sources| && s.cutGeneration <= U64_MAX
    requires at > 0
    requires |s.referencePayload| <= MAXIMUM_REFERENCE_BYTES && |s.index| <= U32_MAX
    ensures Bookkeeping(s, s.(manifest := FinalManifest(c, l, s, reason, at)))
    ensures s.manifest.gapCount == FinalManifest(c, l, s, reason, at).gapCount
    ensures s.manifest.sourceCount == FinalManifest(c, l, s, reason, at).sourceCount
    ensures FinalManifest(c, l, s, reason, at).finalizedReceiveNs > 0
  {
  }

  lemma {:induction false} ManifestTables(c: Codec, s: State, m: Manifest)
    requires Ledger(c, s) && GapsOk(s)
    requires m.recordCount == s.manifest.recordCount && m.gapCount == s.manifest.gapCount
    requires m.sourceCount == s.manifest.sourceCount
    ensures Ledger(c, s.(manifest := m)) && GapsOk(s.(manifest := m))
  {
  }

  lemma {:induction false} ManifestKeeps(c: Codec, l: Layout, s: State, H: seq<Record>, reason: StopReason, at: i64)
    requires Inv(c, s, H) && at > 0
    ensures Inv(c, s.(manifest := FinalManifest(c, l, s, reason, at)), H)
  {
    FinalManifestFields(c, l, s, reason, at);
    ManifestTables(c, s, FinalManifest(c, l, s, reason, at));
    TablesKeep(c, s, s.(manifest := FinalManifest(c, l, s, reason, at)), H);
  }

  lemma {:induction false} CloseOutKeeps(c: Codec, s: State, H: seq<Record>)
    requires Inv(c, s, H)
    ensures Inv(c, s.(manifest := s.manifest.(projectedBytes := s.projectedBytes), active := false), H)
  {
    var t := s.(manifest := s.manifest.(projectedBytes := s.projectedBytes), active := false);
    assert Ledger(c, t) && GapsOk(t);
    TablesKeep(c, s, t, H);
  }

  lemma {:induction false} FinalizeKeeps(
      c: Codec, l: Layout, s: State, H: seq<Record>, reason: StopReason, at: i64, now: nat)
    requires Lawful(c) && Inv(c, s, H) && Finalize(c, l, s, reason, at, now).Done?
    ensures Inv(c, Finalize(c, l, s, reason, at, now).state, H)
  {
    if s.active && at > 0 && !exists n :: 0 <= n < |s.depth| && s.depth[n].Open? {
      var sealed := SealAll(c, s, |s.segments|).value;
      SealAllKeeps(c, s, H);
      ManifestKeeps(c, l, sealed, H, reason, at);
      var t := sealed.(manifest := FinalManifest(c, l, sealed, reason, at));
      PublishKeeps(c, t, H, now);
      if PublishCut(c, t, now).status == Ok { CloseOutKeeps(c, PublishCut(c, t, now).state, H); }
    }
  }

  // --- Runs ---------------------------------------------------------------------------------------

  /** Every step of a run keeps the invariant; the history grows by the row the step accepted. */
  lemma {:induction false} StepKeeps(c: Codec, l: Layout, s: State, H: seq<Record>, step: Step)
    requires Lawful(c) && Inv(c, s, H) && Ready(s) && Apply(c, l, s, step).Done?
    ensures Inv(c, Apply(c, l, s, step).state, H + NewRows(step, Apply(c, l, s, step)))
  {
    assert H + [] == H;
    match step
    case Register(sources) => RegisterKeeps(c, s, H, sources);
    case AppendRow(r) => AppendKeeps(c, s, H, r);
    case AddGap(g) => GapKeeps(c, s, H, g);
    case Progressed(p) => ProgressKeeps(c, s, H, p);
    case Reference(payload) => ReferenceKeeps(c, s, H, payload);
    case Publish(now) => PublishKeeps(c, s, H, now);
    case Drain => DrainKeeps(c, s, H);
    case Seal(reason, at, now) => FinalizeKeeps(c, l, s, H, reason, at, now);
  }

  /** A moment of a run: the writer, the rows it has accepted and the cuts it has published. */
  datatype Moment = Moment(state: State, accepted: seq<Record>, cuts: seq<Cut>)

  /** The cut a step published. */
  ghost function NewCuts(step: Step, o: Outcome): seq<Cut> {
    if (step.Publish? || step.Seal?) && o.Done? && o.status == Ok && o.state.latest.Some? then [o.state.latest.value]
    else []
  }

  /** One step of a run that the writer survives. */
  ghost predicate StepTo(c: Codec, l: Layout, m: Moment, step: Step, m': Moment) {
    && Ready(m.state) && Apply(c, l, m.state, step).Done?
    && m' == Moment(Apply(c, l, m.state, step).state,
                    m.accepted + NewRows(step, Apply(c, l, m.state, step)),
                    m.cuts + NewCuts(step, Apply(c, l, m.state, step)))
  }

  lemma {:induction false} StepToKeeps(c: Codec, l: Layout, m: Moment, step: Step, m': Moment)
    requires Lawful(c) && Inv(c, m.state, m.accepted) && StepTo(c, l, m, step, m')
    ensures Inv(c, m'.state, m'.accepted)
  {
    StepKeeps(c, l, m.state, m.accepted, step);
  }

  /** The invariant at a moment. */
  ghost predicate MomentOk(c: Codec, m: Moment) { Inv(c, m.state, m.accepted) }

  ghost predicate Begins(c: Codec, g: Config, m: Moment) {
    Start(c, g) == Started(m.state) && m.accepted == [] && m.cuts == []
  }

  lemma {:induction false} BeginsOk(c: Codec, g: Config, m: Moment)
    requires Begins(c, g, m)
    ensures MomentOk(c, m)
  {
    StartInv(c, g);
  }

  lemma {:induction false} StepToOk(c: Codec, l: Layout, m: Moment, step: Step, m': Moment)
    requires Lawful(c) && MomentOk(c, m) && StepTo(c, l, m, step, m')
    ensures MomentOk(c, m')
  {
    StepToKeeps(c, l, m, step, m');
  }

  ghost predicate StepAt(c: Codec, l: Layout, ms: seq<Moment>, steps: seq<Step>, i: int) {
    0 <= i < |steps| && i + 1 < |ms| && StepTo(c, l, ms[i], steps[i], ms[i + 1])
  }

  lemma {:induction false} StepAtOk(c: Codec, l: Layout, ms: seq<Moment>, steps: seq<Step>, i: int)
    requires Lawful(c) && StepAt(c, l, ms, steps, i) && MomentOk(c, ms[i])
    ensures MomentOk(c, ms[i + 1])
  {
    StepToOk(c, l, ms[i], steps[i], ms[i + 1]);
  }

  /** ms[0] has just started and each next moment is one step further. */
  ghost predicate IsRun(c: Codec, l: Layout, g: Config, ms: seq<Moment>, steps: seq<Step>) {
    && |ms| == |steps| + 1 && Begins(c, g, ms[0])
    && forall i {:trigger StepAt(c, l, ms, steps, i)} :: 0 <= i < |steps| ==> StepAt(c, l, ms, steps, i)
  }

  /** In every reachable writer state the store, the ledger, the gap table, the progress and the
      history agree, where the history is exactly the rows accepted so far. */
  lemma {:induction false} RunInv(c: Codec, l: Layout, g: Config, ms: seq<Moment>, steps: seq<Step>, n: nat)
    requires Lawful(c) && IsRun(c, l, g, ms, steps) && n <= |steps|
    ensures MomentOk(c, ms[n])
    decreases n
  {
    if n == 0 {
      BeginsOk(c, g, ms[0]);
    } else {
      RunInv(c, l, g, ms, steps, n - 1);
      assert StepAt(c, l, ms, steps, n - 1);
      StepAtOk(c, l, ms, steps, n - 1);
    }
  }
}
