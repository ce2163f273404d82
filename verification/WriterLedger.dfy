/** The quota ledger: every byte the writer has projected is owed to one fixed, stored, pending or
    reserved item, and the reservations made at admission cover every later publication. */
module WriterLedger {
  import opened Numbers
  import opened Records
  import opened Storage
  import opened Formats
  import opened Index
  import opened Writer
  import SS = SourceState

  function TotalPending(gs: seq<Segment>): nat {
    if gs == [] then 0 else TotalPending(gs[..|gs| - 1]) + |gs[|gs| - 1].pending|
  }

  lemma {:induction false} TotalPendingUpdate(gs: seq<Segment>, n: nat, g: Segment)
    requires n < |gs|
    ensures TotalPending(gs[n := g]) == TotalPending(gs) - |gs[n].pending| + |g.pending|
    decreases |gs|
  {
    var m := |gs| - 1;
    if n == m {
      assert gs[n := g][..m] == gs[..m];
    } else {
      assert gs[n := g][..m] == gs[..m][n := g];
      TotalPendingUpdate(gs[..m], n, g);
    }
  }

  lemma {:induction false} NoPending(gs: seq<Segment>)
    requires forall i :: 0 <= i < |gs| ==> gs[i].pending == []
    ensures TotalPending(gs) == 0
    decreases |gs|
  {
    if gs != [] { NoPending(gs[..|gs| - 1]); }
  }

  /** What the cut reservation must amount to: header, source and gap tables, one reference for
      every row ever accepted and the largest reference payload, all twice. */
  function CutSum(s: State): int {
    InitialCutReserve(|s.sources|) + RECORD_CUT_RESERVATION * s.manifest.recordCount + 2 * s.referenceReservedBytes
  }

  /** What the projection must amount to. */
  function LedgerSum(c: Codec, s: State): int {
    FixedMetadata(|s.sources|) + s.cutReservedBytes + |s.index| * INDEX_ENTRY_BYTES
    + (s.nextSegmentNumber - 1) * SEGMENT_FRAME + SumStored(s.blocks)
    + TotalPending(s.segments) * PendingRecordBytes(c)
  }

  ghost predicate Ledger(c: Codec, s: State) {
    && s.projectedBytes == LedgerSum(c, s)
    && s.cutReservedBytes == CutSum(s)
    && s.manifest.recordCount == SumRecords(s.blocks) + TotalPending(s.segments)
    && |s.referencePayload| <= s.referenceReservedBytes
    && s.projectedBytes <= s.writeLimitBytes <= s.config.maximumBytes
    && s.maximumGapRecords == |s.sources| * STORED_CHANNELS
    && s.manifest.sourceCount == |s.sources|
    && 1 <= s.nextSegmentNumber
  }

  lemma {:induction false} StartLedger(c: Codec, g: Config)
    requires Start(c, g).Started?
    ensures Ledger(c, Start(c, g).state)
  {
    NoPending(Start(c, g).state.segments);
  }

  lemma {:induction false} Released(rows: nat, some: nat, unit: nat)
    requires some <= rows
    ensures (rows - some) * unit == rows * unit - some * unit
  {
  }

  lemma {:induction false} OneMore(rows: nat, unit: nat)
    ensures (rows + 1) * unit == rows * unit + unit
  {
  }

  /** A flush turns reserved bytes into stored bytes and gives the difference back. */
  lemma {:induction false} FlushLedger(c: Codec, s: State, n: nat)
    requires n < |s.segments| <= 0x1_0000 && FlushBlock(c, s, n).Some?
    ensures var t := FlushBlock(c, s, n).value;
            && t.projectedBytes - LedgerSum(c, t) == s.projectedBytes - LedgerSum(c, s)
            && SumRecords(t.blocks) + TotalPending(t.segments) == SumRecords(s.blocks) + TotalPending(s.segments)
  {
    var g := s.segments[n];
    if g.pending != [] {
      var bytes := c.encode(g.pending[0].channel, g.pending).value;
      var t := StoreBlock(c, s, n, bytes);
      TotalPendingUpdate(s.segments, n, t.segments[n]);
      assert t.blocks[..|t.blocks| - 1] == s.blocks;
      Released(TotalPending(s.segments), |g.pending|, PendingRecordBytes(c));
    }
  }

  lemma {:induction false} FlushKeepsLedger(c: Codec, s: State, n: nat)
    requires n < |s.segments| <= 0x1_0000 && FlushBlock(c, s, n).Some? && Ledger(c, s)
    ensures Ledger(c, FlushBlock(c, s, n).value)
  {
    FlushLedger(c, s, n);
    FlushBlockFrame(c, s, n);
  }

  lemma {:induction false} FlushAllKeepsLedger(c: Codec, s: State, k: nat)
    requires k <= |s.segments| <= 0x1_0000 && FlushAll(c, s, k).Some? && Ledger(c, s)
    ensures Ledger(c, FlushAll(c, s, k).value)
    decreases k
  {
    if k > 0 {
      FlushAllKeepsLedger(c, s, k - 1);
      var t := FlushAll(c, s, k - 1).value;
      if t.segments[k - 1].open { FlushKeepsLedger(c, t, k - 1); }
    }
  }

  /** Sealing moves nothing but what its flush moves. */
  lemma {:induction false} SealLedger(c: Codec, s: State, n: nat)
    requires n < |s.segments| <= 0x1_0000 && SealSegment(c, s, n).Some?
    ensures var t := SealSegment(c, s, n).value;
            && t.projectedBytes - LedgerSum(c, t) == s.projectedBytes - LedgerSum(c, s)
            && SumRecords(t.blocks) + TotalPending(t.segments) == SumRecords(s.blocks) + TotalPending(s.segments)
            && t == s.(blocks := t.blocks, log := t.log, cache := t.cache, projectedBytes := t.projectedBytes,
                       segments := t.segments, files := t.files,
                           manifest := s.manifest.(segmentCount := t.manifest.segmentCount))
            && t.projectedBytes <= s.projectedBytes
            && (s.segments[n].open ==> t.segments[n].pending == [])
  {
    if s.segments[n].open {
      FlushLedger(c, s, n);
      FlushBlockFrame(c, s, n);
      var f := FlushBlock(c, s, n).value;
      TotalPendingUpdate(f.segments, n, CloseSegment(f, n).segments[n]);
    }
  }

  lemma {:induction false} SealAllKeepsLedger(c: Codec, s: State, k: nat)
    requires k <= |s.segments| <= 0x1_0000 && SealAll(c, s, k).Some? && Ledger(c, s)
    ensures Ledger(c, SealAll(c, s, k).value)
    decreases k
  {
    if k > 0 {
      SealAllKeepsLedger(c, s, k - 1);
      SealLedger(c, SealAll(c, s, k - 1).value, k - 1);
    }
  }

  /** Seating a row spends exactly the segment frame the plan reserved. */
  lemma {:induction false} SeatLedger(c: Codec, s: State, n: nat, rotate: bool, openNeeded: bool)
    requires Shape(s) && |s.segments| <= 0x1_0000 && PositionedAt(s, n) && (rotate ==> openNeeded)
    requires openNeeded ==> s.segments[n].pending == []
    requires SeatRow(c, s, n, rotate, openNeeded).Some?
    ensures var t := SeatRow(c, s, n, rotate, openNeeded).value;
            && t.projectedBytes - LedgerSum(c, t) ==
                 s.projectedBytes - LedgerSum(c, s) - (if openNeeded then SEGMENT_FRAME else 0)
            && SumRecords(t.blocks) + TotalPending(t.segments) == SumRecords(s.blocks) + TotalPending(s.segments)
            && t == s.(blocks := t.blocks, log := t.log, cache := t.cache, projectedBytes := t.projectedBytes,
                       segments := t.segments, files := t.files, nextSegmentNumber := t.nextSegmentNumber,
                       manifest := s.manifest.(segmentCount := t.manifest.segmentCount))
            && t.projectedBytes <= s.projectedBytes && s.nextSegmentNumber <= t.nextSegmentNumber
            && (openNeeded ==> t.segments[n].positions == map[])
            && (!openNeeded ==> t == s)
  {
    var u := s;
    if rotate { SealLedger(c, s, n); u := SealSegment(c, s, n).value; }
    if openNeeded {
      assert u.segments[n].pending == [];
      TotalPendingUpdate(u.segments, n, OpenSegment(u, n).segments[n]);
    }
  }

  /** Taking the row spends its own block, its index entry and its cut references. */
  lemma {:induction false} TakeLedger(c: Codec, s: State, r: Record, v: Verdict)
    requires Shape(s) && v.Accept? && r.shardIndex < |s.segments| && 0 < r.sourceId <= |s.sources|
    requires PositionedAt(s, r.shardIndex)
    ensures var t := TakeRow(c, s, r, v);
            var novel := KeyOf(r) !in s.segments[r.shardIndex].positions;
            && LedgerSum(c, t) == LedgerSum(c, s) + PendingRecordBytes(c) + (if novel then INDEX_ENTRY_BYTES else 0)
            && CutSum(t) == CutSum(s) + RECORD_CUT_RESERVATION
            && t.manifest.recordCount == s.manifest.recordCount + 1
            && SumRecords(t.blocks) + TotalPending(t.segments) == SumRecords(s.blocks) + TotalPending(s.segments) + 1
            && t.projectedBytes == s.projectedBytes && t.cutReservedBytes == s.cutReservedBytes
            && |t.index| == |s.index| + (if novel then 1 else 0)
            && |t.sources| == |s.sources| && t.blocks == s.blocks
            && t == s.(index := t.index, segments := t.segments, sourceStates := t.sourceStates, depth := t.depth,
                       manifest := t.manifest)
            && t.manifest.sourceCount == s.manifest.sourceCount
  {
    TakeFrame(c, s, r, v);
    TakePending(c, s, r, v);
    RowSums(c, s, TakeRow(c, s, r, v), KeyOf(r) !in s.segments[r.shardIndex].positions);
  }

  lemma {:induction false} TakeFrame(c: Codec, s: State, r: Record, v: Verdict)
    requires Shape(s) && v.Accept? && r.shardIndex < |s.segments| && 0 < r.sourceId <= |s.sources|
    requires PositionedAt(s, r.shardIndex)
    ensures var t := TakeRow(c, s, r, v);
            && |t.index| == |s.index| + (if KeyOf(r) !in s.segments[r.shardIndex].positions then 1 else 0)
            && t.manifest.recordCount == s.manifest.recordCount + 1 && t.manifest.sourceCount == s.manifest.sourceCount
            && t == s.(index := t.index, segments := t.segments, sourceStates := t.sourceStates, depth := t.depth,
                       manifest := t.manifest)
  {
  }

  lemma {:induction false} TakePending(c: Codec, s: State, r: Record, v: Verdict)
    requires Shape(s) && v.Accept? && r.shardIndex < |s.segments| && 0 < r.sourceId <= |s.sources|
    requires PositionedAt(s, r.shardIndex)
    ensures TotalPending(TakeRow(c, s, r, v).segments) == TotalPending(s.segments) + 1
  {
    var n := r.shardIndex as nat;
    var i := IndexRow(s, n, r);
    TotalPendingUpdate(s.segments, n, i.segments[n]);
    TotalPendingUpdate(i.segments, n, BufferRow(c, i, n, r).segments[n]);
    assert s.segments[n := s.segments[n]] == s.segments;
  }

  lemma {:induction false} RowSums(c: Codec, s: State, t: State, novel: bool)
    requires |t.sources| == |s.sources| && t.cutReservedBytes == s.cutReservedBytes
    requires t.nextSegmentNumber == s.nextSegmentNumber
    requires t.blocks == s.blocks && t.referenceReservedBytes == s.referenceReservedBytes
    requires |t.index| == |s.index| + (if novel then 1 else 0) && t.manifest.recordCount == s.manifest.recordCount + 1
    requires TotalPending(t.segments) == TotalPending(s.segments) + 1
    ensures LedgerSum(c, t) == LedgerSum(c, s) + PendingRecordBytes(c) + (if novel then INDEX_ENTRY_BYTES else 0)
    ensures CutSum(t) == CutSum(s) + RECORD_CUT_RESERVATION
  {
    OneMore(TotalPending(s.segments), PendingRecordBytes(c));
  }

  /** The facts about a prepared writer that the ledger needs. */
  ghost predicate Prepared(c: Codec, s: State, d: State, p: Plan, newSource: bool) {
    && d.projectedBytes - LedgerSum(c, d) ==
         s.projectedBytes - LedgerSum(c, s) + RequiredBytes(c, p, newSource) - CutGrowth(newSource)
         - (if p.openNeeded then SEGMENT_FRAME else 0) - (if newSource then SOURCE_STORAGE else 0)
    && d.cutReservedBytes == s.cutReservedBytes + CutGrowth(newSource)
    && CutSum(d) == CutSum(s) + (if newSource then 2 * SOURCE_STORAGE else 0)
    && SumRecords(d.blocks) + TotalPending(d.segments) == SumRecords(s.blocks) + TotalPending(s.segments)
    && d.manifest.recordCount == s.manifest.recordCount
    && d.projectedBytes <= s.projectedBytes + RequiredBytes(c, p, newSource)
    && s.nextSegmentNumber <= d.nextSegmentNumber
    && d.referencePayload == s.referencePayload && d.referenceReservedBytes == s.referenceReservedBytes
    && d.writeLimitBytes == s.writeLimitBytes && d.config == s.config && d.index == s.index
    && |d.sources| == |s.sources| + (if newSource then 1 else 0)
    && d.maximumGapRecords == s.maximumGapRecords + (if newSource then STORED_CHANNELS else 0)
    && d.manifest.sourceCount == s.manifest.sourceCount + (if newSource then 1 else 0)
  }

  lemma {:induction false} AddSourceLedger(c: Codec, s: State, added: Option<Source>, source: SS.State)
    ensures var d := AddSource(s, added, source);
            && LedgerSum(c, d) == LedgerSum(c, s) + (if added.Some? then SOURCE_STORAGE else 0)
            && CutSum(d) == CutSum(s) + (if added.Some? then 2 * SOURCE_STORAGE else 0)
            && d == s.(sources := d.sources, sourceStates := d.sourceStates, maximumGapRecords := d.maximumGapRecords,
                       manifest := s.manifest.(sourceCount := d.manifest.sourceCount))
            && |d.sources| == |s.sources| + (if added.Some? then 1 else 0)
            && d.maximumGapRecords == s.maximumGapRecords + (if added.Some? then STORED_CHANNELS else 0)
            && d.manifest.sourceCount == s.manifest.sourceCount + (if added.Some? then 1 else 0)
  {
  }

  lemma {:induction false} ReserveLedger(c: Codec, s: State, p: Plan, newSource: bool)
    ensures var a := Reserve(c, s, p, newSource);
            && a.projectedBytes - LedgerSum(c, a) ==
                 s.projectedBytes - LedgerSum(c, s) + RequiredBytes(c, p, newSource) - CutGrowth(newSource)
            && CutSum(a) == CutSum(s) && a.cutReservedBytes == s.cutReservedBytes + CutGrowth(newSource)
  {
  }

  lemma {:induction false} PrepareLedger(c: Codec, s: State, r: Record, v: Verdict, p: Plan)
    requires Shape(s) && Positioned(s) && |s.segments| <= 0x1_0000 && Admitted(s, r, v)
    requires p.rotate ==> p.openNeeded
    requires p.openNeeded ==> s.segments[r.shardIndex].pending == []
    requires PrepareRow(c, s, r, v, p).Some?
    ensures Prepared(c, s, PrepareRow(c, s, r, v, p).value, p, v.added.Some?)
    ensures p.openNeeded ==> PrepareRow(c, s, r, v, p).value.segments[r.shardIndex].positions == map[]
    ensures !p.openNeeded ==> PrepareRow(c, s, r, v, p).value.segments == s.segments
  {
    var a := Reserve(c, s, p, v.added.Some?);
    ReserveLedger(c, s, p, v.added.Some?);
    SeatLedger(c, a, r.shardIndex, p.rotate, p.openNeeded);
    var b := SeatRow(c, a, r.shardIndex, p.rotate, p.openNeeded).value;
    AddSourceLedger(c, b, v.added, v.source);
  }

  lemma {:induction false} LedgerFromPrepared(
      c: Codec, s: State, d: State, t: State, p: Plan, newSource: bool, novel: bool)
    requires Ledger(c, s) && Prepared(c, s, d, p, newSource) && (p.indexNeeded <==> novel)
    requires LedgerSum(c, t) == LedgerSum(c, d) + PendingRecordBytes(c) + (if novel then INDEX_ENTRY_BYTES else 0)
    requires CutSum(t) == CutSum(d) + RECORD_CUT_RESERVATION
    requires t.manifest.recordCount == d.manifest.recordCount + 1
    requires SumRecords(t.blocks) + TotalPending(t.segments) == SumRecords(d.blocks) + TotalPending(d.segments) + 1
    requires t == d.(index := t.index, segments := t.segments, sourceStates := t.sourceStates, depth := t.depth,
              manifest := t.manifest)
    requires t.manifest.sourceCount == d.manifest.sourceCount
    requires s.projectedBytes + RequiredBytes(c, p, newSource) <= s.writeLimitBytes
    ensures Ledger(c, t)
  {
  }

  /** A row taken after its reservation leaves the ledger exact: nothing was over- or
      under-reserved. */
  lemma {:induction false} CommitKeepsLedger(c: Codec, s: State, r: Record, v: Verdict, p: Plan)
    requires Shape(s) && Positioned(s) && |s.segments| <= 0x1_0000 && Admitted(s, r, v) && Ledger(c, s)
    requires p.rotate ==> p.openNeeded
    requires p.openNeeded ==> s.segments[r.shardIndex].pending == []
    requires p.indexNeeded <==> p.openNeeded || KeyOf(r) !in s.segments[r.shardIndex].positions
    requires s.projectedBytes + RequiredBytes(c, p, v.added.Some?) <= s.writeLimitBytes
    requires CommitRow(c, s, r, v, p).Done?
    ensures CommitRow(c, s, r, v, p).status == Ok && Ledger(c, CommitRow(c, s, r, v, p).state)
    ensures CommitRow(c, s, r, v, p).state.projectedBytes <= s.projectedBytes + RequiredBytes(c, p, v.added.Some?)
    ensures |CommitRow(c, s, r, v, p).state.sources| == |s.sources| + (if v.added.Some? then 1 else 0)
  {
    PrepareLedger(c, s, r, v, p);
    var d := PrepareRow(c, s, r, v, p).value;
    TakeLedger(c, d, r, v);
    LedgerFromPrepared(c, s, d, TakeRow(c, d, r, v), p, v.added.Some?, KeyOf(r) !in d.segments[r.shardIndex].positions);
  }

  lemma {:induction false} QuotaBoundsIndex(entries: nat, maximum: nat)
    requires entries * INDEX_ENTRY_BYTES + INDEX_ENTRY_BYTES <= maximum
    ensures entries < maximum / INDEX_ENTRY_BYTES
  {
  }

  /** The table bound in `ensureIndex` that comes from the quota never refuses an entry whose bytes
      were reserved; only the 32-bit entry count can. */
  lemma {:induction false} IndexBoundUnreachable(c: Codec, s: State, r: Record, v: Verdict, p: Plan)
    requires Shape(s) && Positioned(s) && |s.segments| <= 0x1_0000 && Admitted(s, r, v) && Ledger(c, s)
    requires p.rotate ==> p.openNeeded
    requires p.openNeeded ==> s.segments[r.shardIndex].pending == []
    requires p.indexNeeded
    requires s.projectedBytes + RequiredBytes(c, p, v.added.Some?) <= s.writeLimitBytes
    requires PrepareRow(c, s, r, v, p).Some?
    ensures IndexFull(PrepareRow(c, s, r, v, p).value) <==> |s.index| >= U32_MAX
  {
    PrepareLedger(c, s, r, v, p);
    PreparedIndex(c, s, PrepareRow(c, s, r, v, p).value, p, v.added.Some?);
  }

  lemma {:induction false} IndexShare(c: Codec, s: State)
    requires Ledger(c, s)
    ensures |s.index| * INDEX_ENTRY_BYTES <= s.projectedBytes
  {
    assert 0 <= TotalPending(s.segments) * PendingRecordBytes(c);
  }

  lemma {:induction false} IndexCosts(c: Codec, p: Plan, newSource: bool)
    requires p.indexNeeded
    ensures RequiredBytes(c, p, newSource) >= INDEX_ENTRY_BYTES
  {
  }

  lemma {:induction false} PreparedIndex(c: Codec, s: State, d: State, p: Plan, newSource: bool)
    requires Ledger(c, s) && d.config == s.config && d.index == s.index && p.indexNeeded
    requires s.projectedBytes + RequiredBytes(c, p, newSource) <= s.writeLimitBytes
    ensures IndexFull(d) <==> |s.index| >= U32_MAX
  {
    IndexShare(c, s);
    IndexCosts(c, p, newSource);
    QuotaBoundsIndex(|s.index|, s.config.maximumBytes);
  }

  // --- Appending, registering and referencing ------------------------------------------------------

  /** A closed segment buffers nothing and indexes nothing. */
  ghost predicate ClosedEmpty(s: State) {
    forall n :: 0 <= n < |s.segments| && !s.segments[n].open ==>
        s.segments[n].pending == [] && s.segments[n].positions == map[]
  }

  /** The room an append may take at most. */
  function MostBytes(c: Codec, newSource: bool): nat {
    WorstRecordBytes(c) + (if newSource then SOURCE_RESERVATION else 0)
  }

  /** What appending may do to the ledger, whatever its outcome. */
  ghost predicate Spent(c: Codec, s: State, t: State, ok: bool, newSource: bool) {
    && Ledger(c, t)
    && (ok ==> |t.sources| == |s.sources| + (if newSource then 1 else 0)
               && t.projectedBytes <= s.projectedBytes + MostBytes(c, newSource))
    && (!ok ==> |t.sources| == |s.sources| && t.projectedBytes <= s.projectedBytes)
  }

  lemma {:induction false} CommitSpends(c: Codec, s: State, t: State, r: Record, v: Verdict)
    requires Shape(s) && |s.segments| <= 0x1_0000 && Admitted(s, r, v) && ClosedEmpty(s)
    requires FlushedFrom(s, t) && Positioned(t) && Ledger(c, t)
    requires t.projectedBytes + RequiredBytes(c, PlanOf(c, s, r), v.added.Some?) <= t.writeLimitBytes
    requires CommitRow(c, t, r, v, PlanOf(c, s, r)).Done?
    ensures CommitRow(c, t, r, v, PlanOf(c, s, r)).status == Ok
    ensures Spent(c, s, CommitRow(c, t, r, v, PlanOf(c, s, r)).state, true, v.added.Some?)
  {
    var p := PlanOf(c, s, r);
    assert t.segments[r.shardIndex].positions == s.segments[r.shardIndex].positions;
    assert p.openNeeded ==> t.segments[r.shardIndex].pending == [];
    CommitKeepsLedger(c, t, r, v, p);
  }

  lemma {:induction false} FlushedReflexive(s: State)
    ensures FlushedFrom(s, s)
  {
  }

  lemma {:induction false} ReserveRowKeepsLedger(c: Codec, s: State, r: Record, v: Verdict)
    requires Shape(s) && Positioned(s) && |s.segments| <= 0x1_0000 && Admitted(s, r, v) && Ledger(c, s)
    requires ClosedEmpty(s)
    requires ReserveRow(c, s, r, v).Done?
    ensures Spent(c, s, ReserveRow(c, s, r, v).state, ReserveRow(c, s, r, v).status == Ok, v.added.Some?)
  {
    var p := PlanOf(c, s, r);
    if Unrepresentable(c, s, p, v.added.Some?) {
    } else if AddWithin(s.projectedBytes, RequiredBytes(c, p, v.added.Some?), s.writeLimitBytes) {
      FlushedReflexive(s);
      CommitSpends(c, s, s, r, v);
    } else {
      var t := FlushAll(c, s, |s.segments|).value;
      FlushAllKeepsLedger(c, s, |s.segments|);
      FlushAllFrame(c, s, |s.segments|);
      FlushedPositioned(s, t);
      if AddWithin(t.projectedBytes, RequiredBytes(c, p, v.added.Some?), s.writeLimitBytes) {
        CommitSpends(c, s, t, r, v);
      } else {
        LedgerMark(c, t, true);
      }
    }
  }

  lemma {:induction false} FlushedPositioned(s: State, t: State)
    requires FlushedFrom(s, t) && Positioned(s)
    ensures Positioned(t)
  {
    forall n, key | 0 <= n < |t.segments| && key in t.segments[n].positions
      ensures t.segments[n].positions[key] < |t.index|
    {
      assert t.segments[n].positions == s.segments[n].positions;
    }
  }

  lemma {:induction false} LedgerMark(c: Codec, s: State, q: bool)
    requires Ledger(c, s)
    ensures Ledger(c, s.(quotaReached := q))
  {
  }

  /** The quota refuses a row exactly when the row's bytes do not fit even after every pending
      block has been flushed. */
  lemma {:induction false} QuotaRefusal(c: Codec, s: State, r: Record, v: Verdict)
    requires Shape(s) && Positioned(s) && |s.segments| <= 0x1_0000 && Admitted(s, r, v) && Ledger(c, s)
    requires ClosedEmpty(s)
    requires ReserveRow(c, s, r, v).Done? && !Unrepresentable(c, s, PlanOf(c, s, r), v.added.Some?)
    ensures ReserveRow(c, s, r, v).status == Ok || ReserveRow(c, s, r, v).status == OutOfRange
    ensures s.projectedBytes + MostBytes(c, v.added.Some?) <= s.writeLimitBytes ==> ReserveRow(c, s, r, v).status == Ok
  {
  }

  lemma {:induction false} JudgeAdmits(s: State, r: Record)
    requires Shape(s) && Judge(s, r).Accept?
    ensures Admitted(s, r, Judge(s, r))
    ensures Judge(s, r).added.Some? <==> r.sourceId == |s.sources| + 1
    ensures |s.sources| + (if Judge(s, r).added.Some? then 1 else 0) <= Max(|s.sources|, MAXIMUM_SOURCES)
    ensures s.active
  {
  }

  lemma {:induction false} AppendKeepsLedger(c: Codec, s: State, r: Record)
    requires Shape(s) && Positioned(s) && |s.segments| <= 0x1_0000 && Ledger(c, s) && ClosedEmpty(s)
    requires Append(c, s, r).Done?
    ensures var t := Append(c, s, r).state;
            && Ledger(c, t)
            && |s.sources| <= |t.sources| <= |s.sources| + 1
            && t.projectedBytes <= s.projectedBytes + MostBytes(c, |t.sources| != |s.sources|)
            && (Append(c, s, r).status != Ok ==> |t.sources| == |s.sources| && t.projectedBytes <= s.projectedBytes)
  {
    var v := Judge(s, r);
    if v.Accept? {
      JudgeAdmits(s, r);
      if MustFlush(s.segments[r.shardIndex], r) {
        FlushKeepsLedger(c, s, r.shardIndex);
        FlushBlockFrame(c, s, r.shardIndex);
        ReserveRowKeepsLedger(c, FlushBlock(c, s, r.shardIndex as nat).value, r, v);
      } else {
        ReserveRowKeepsLedger(c, s, r, v);
      }
    }
  }

  lemma {:induction false} AddSourcesFrame(s: State, incoming: seq<Source>, base: State, count: nat)
    requires |base.sources| <= |s.sources| == count && RegisteredCount(base, incoming, count).Some?
    ensures var t := AddSources(s, incoming);
            && t == s.(sources := t.sources, sourceStates := t.sourceStates)
            && |t.sources| == RegisteredCount(base, incoming, count).value
            && s.sources <= t.sources
            && (|s.sourceStates| == |s.sources| ==> |t.sourceStates| == |t.sources|)
            && (|s.sourceStates| == |s.sources| ==> s.sourceStates <= t.sourceStates)
    decreases |incoming|
  {
    if incoming != [] {
      var x := incoming[0];
      if x.sourceId <= |base.sources| {
        AddSourcesFrame(s, incoming[1..], base, count);
      } else {
        var u := s.(sources := s.sources + [Inactive(x)], sourceStates := s.sourceStates + [SS.Initial(Inactive(x))]);
        AddSourcesFrame(u, incoming[1..], base, count + 1);
      }
    }
  }

  lemma {:induction false} RegisterKeepsLedger(c: Codec, s: State, incoming: seq<Source>)
    requires Ledger(c, s)
    ensures RegisterSources(s, incoming).Done? && Ledger(c, RegisterSources(s, incoming).state)
    ensures var t := RegisterSources(s, incoming).state;
            t.projectedBytes == s.projectedBytes + (|t.sources| - |s.sources|) * SOURCE_RESERVATION
  {
    if RegisterSources(s, incoming).status == Ok {
      var total := RegisteredCount(s, incoming, |s.sources|).value;
      var added := total - |s.sources|;
      AddSourcesFrame(s.(projectedBytes := s.projectedBytes + added * SOURCE_RESERVATION,
                         cutReservedBytes := s.cutReservedBytes + added * (2 * SOURCE_STORAGE)), incoming, s,
                             |s.sources|);
      SourcesAdded(c, s, RegisterSources(s, incoming).state, added);
    }
  }

  lemma {:induction false} SourcesAdded(c: Codec, s: State, t: State, added: nat)
    requires Ledger(c, s) && |t.sources| == |s.sources| + added
    requires t == s.(sources := t.sources, sourceStates := t.sourceStates,
              projectedBytes := s.projectedBytes + added * SOURCE_RESERVATION,
                     cutReservedBytes := s.cutReservedBytes + added * (2 * SOURCE_STORAGE),
                     manifest := s.manifest.(sourceCount := |t.sources|),
                         maximumGapRecords := |t.sources| * STORED_CHANNELS)
    requires t.projectedBytes <= t.writeLimitBytes
    ensures Ledger(c, t)
  {
  }

  lemma {:induction false} ReferenceKeepsLedger(c: Codec, s: State, payload: seq<u8>)
    requires Ledger(c, s)
    ensures SetReferencePayload(s, payload).Done? && Ledger(c, SetReferencePayload(s, payload).state)
  {
  }

  // --- The bounds that never fire -------------------------------------------------------------------

  ghost predicate GapsOk(s: State) {
    && UniqueCells(s.gaps) && s.manifest.gapCount == |s.gaps|
    && forall i :: 0 <= i < |s.gaps| ==>
         ValidGap(s.gaps[i], |s.sources|, |s.segments|) &&
             s.gaps[i].sourceGeneration >= s.sources[s.gaps[i].sourceId - 1].initialGeneration
  }

  function Cells(n: nat): (s: set<int>)
    ensures |s| == n
    ensures forall x :: x in s <==> 0 <= x < n
    decreases n
  {
    if n == 0 then {} else Cells(n - 1) + {n - 1}
  }

  function UsedCells(gs: seq<Gap>): set<int> {
    if gs == [] then {} else UsedCells(gs[..|gs| - 1]) + {CellOf(gs[|gs| - 1])}
  }

  lemma {:induction false} UsedCellsMember(gs: seq<Gap>, x: int)
    requires x in UsedCells(gs)
    ensures exists i :: 0 <= i < |gs| && CellOf(gs[i]) == x
    decreases |gs|
  {
    var m := |gs| - 1;
    if x != CellOf(gs[m]) {
      UsedCellsMember(gs[..m], x);
      var i :| 0 <= i < m && CellOf(gs[..m][i]) == x;
      assert CellOf(gs[i]) == x;
    }
  }

  lemma {:induction false} DistinctCells(gs: seq<Gap>)
    requires UniqueCells(gs)
    ensures |UsedCells(gs)| == |gs|
    decreases |gs|
  {
    if gs != [] {
      var m := |gs| - 1;
      DistinctCells(gs[..m]);
      if CellOf(gs[m]) in UsedCells(gs[..m]) {
        UsedCellsMember(gs[..m], CellOf(gs[m]));
        var i :| 0 <= i < m && CellOf(gs[..m][i]) == CellOf(gs[m]);
        CellInjective(gs[i], gs[m]);
      }
    }
  }

  lemma {:induction false} SubsetCount(a: set<int>, b: set<int>)
    requires a <= b
    ensures |a| <= |b|
  {
    assert b == a + (b - a);
  }

  /** A source has at most one gap cell for each stored channel. */
  lemma {:induction false} GapsBounded(gs: seq<Gap>, sources: nat, shards: nat)
    requires UniqueCells(gs) && forall i :: 0 <= i < |gs| ==> ValidGap(gs[i], sources, shards)
    ensures |gs| <= sources * STORED_CHANNELS
  {
    DistinctCells(gs);
    forall x | x in UsedCells(gs)
      ensures x in Cells(sources * STORED_CHANNELS)
    {
      UsedCellsMember(gs, x);
      var i :| 0 <= i < |gs| && CellOf(gs[i]) == x;
      assert ValidGap(gs[i], sources, shards);
    }
    SubsetCount(UsedCells(gs), Cells(sources * STORED_CHANNELS));
  }

  lemma {:induction false} CellAdded(gs: seq<Gap>, g: Gap)
    requires UniqueCells(gs) && FindCell(gs, g) == |gs|
    ensures UniqueCells(gs + [g])
  {
  }

  lemma {:induction false} CellReplaced(gs: seq<Gap>, g: Gap)
    requires UniqueCells(gs) && FindCell(gs, g) < |gs|
    ensures UniqueCells(gs[FindCell(gs, g) := g])
  {
  }

  lemma {:induction false} LedgerIgnoresGaps(c: Codec, s: State, t: State)
    requires Ledger(c, s) && t == s.(gaps := t.gaps, manifest := s.manifest.(gapCount := t.manifest.gapCount))
    ensures Ledger(c, t)
  {
  }

  ghost predicate GapAllowed(s: State, g: Gap) {
    ValidGap(g, |s.sources|, |s.segments|) && g.sourceGeneration >= s.sources[g.sourceId - 1].initialGeneration
  }

  lemma {:induction false} GapAdded(s: State, g: Gap)
    requires GapsOk(s) && GapAllowed(s, g) && FindCell(s.gaps, g) == |s.gaps|
    ensures GapsOk(s.(gaps := s.gaps + [g], manifest := s.manifest.(gapCount := s.manifest.gapCount + 1)))
    ensures |s.gaps| < |s.sources| * STORED_CHANNELS
  {
    CellAdded(s.gaps, g);
    GapsBounded(s.gaps + [g], |s.sources|, |s.segments|);
  }

  lemma {:induction false} GapReplaced(s: State, g: Gap)
    requires GapsOk(s) && GapAllowed(s, g) && FindCell(s.gaps, g) < |s.gaps|
    ensures GapsOk(s.(gaps := s.gaps[FindCell(s.gaps, g) := g]))
  {
    CellReplaced(s.gaps, g);
  }

  /** The gap table of a writer never fills: a valid gap is refused only for its own contents or
      for an epoch that goes back. */
  lemma {:induction false} GapTableNeverFull(c: Codec, s: State, g: Gap)
    requires Ledger(c, s) && GapsOk(s)
    ensures AppendGap(s, g).Done? && AppendGap(s, g).status != OutOfRange
    ensures GapsOk(AppendGap(s, g).state) && Ledger(c, AppendGap(s, g).state)
  {
    var i := FindCell(s.gaps, g);
    if s.active && GapAllowed(s, g) {
      if i == |s.gaps| {
        GapAdded(s, g);
        LedgerIgnoresGaps(c, s, s.(gaps := s.gaps + [g], manifest := s.manifest.(gapCount := s.manifest.gapCount + 1)));
      } else {
        GapReplaced(s, g);
        LedgerIgnoresGaps(c, s, s.(gaps := s.gaps[i := g]));
      }
    }
  }

  lemma {:induction false} BlocksWithinRecords(bs: seq<BlockRange>)
    requires forall i :: 0 <= i < |bs| ==> bs[i].header.recordCount >= 1
    ensures |bs| <= SumRecords(bs)
    decreases |bs|
  {
    if bs != [] { BlocksWithinRecords(bs[..|bs| - 1]); }
  }

  lemma {:induction false} CutArithmetic(
      sources: nat, gaps: nat, blocks: nat, records: nat, reference: nat, reserved: nat)
    requires gaps <= sources * STORED_CHANNELS && blocks <= records && reference <= reserved
    ensures 2 * (CUT_HEADER_RESERVE + sources * SOURCE_BYTES + gaps * GAP_BYTES + blocks * RANGE_BYTES + reference) <=
            InitialCutReserve(sources) + RECORD_CUT_RESERVATION * records + 2 * reserved
  {
  }

  lemma {:induction false} CutWithinProjection(c: Codec, s: State)
    requires Ledger(c, s)
    ensures s.cutReservedBytes <= s.projectedBytes <= U64_MAX
  {
    assert 0 <= TotalPending(s.segments) * PendingRecordBytes(c);
  }

  /** The reservation check of a publication never fails: what was paid row by row, source by source
      and reference by reference covers both copies of any cut. */
  lemma {:induction false} CutIsPrepaid(c: Codec, s: State)
    requires Ledger(c, s) && GapsOk(s)
    requires forall i :: 0 <= i < |s.blocks| ==> s.blocks[i].header.recordCount >= 1
    ensures var required := CutReservation(|s.sources|, |s.gaps|, |s.blocks|, |s.referencePayload|);
            required.Some? && required.value <= s.cutReservedBytes
  {
    BlocksWithinRecords(s.blocks);
    GapsBounded(s.gaps, |s.sources|, |s.segments|);
    CutArithmetic(|s.sources|, |s.gaps|, |s.blocks|, s.manifest.recordCount, |s.referencePayload|,
        s.referenceReservedBytes);
    CutWithinProjection(c, s);
  }

  /** Bytes on disk at any moment: manifest and its pending copy, the three tables, both cut files,
      every segment file with its frame. */
  function PhysicalBytes(s: State): int {
    2 * MANIFEST_BYTES + 3 * TABLE_HEADER_BYTES + |s.sources| * SOURCE_BYTES + |s.index| * INDEX_ENTRY_BYTES
    + |s.gaps| * GAP_BYTES + (s.nextSegmentNumber - 1) * SEGMENT_FRAME + SumStored(s.blocks)
    + 2 * (CUT_HEADER_BYTES + |s.sources| * SOURCE_BYTES + |s.gaps| * GAP_BYTES + |s.blocks| * RANGE_BYTES +
        |s.referencePayload|)
  }

  lemma {:induction false} DiskArithmetic(
      sources: nat, gaps: nat, blocks: nat, records: nat, reference: nat, reserved: nat)
    requires gaps <= sources * STORED_CHANNELS && blocks <= records && reference <= reserved
    ensures 2 * MANIFEST_BYTES + 3 * TABLE_HEADER_BYTES + sources * SOURCE_BYTES + gaps * GAP_BYTES
            + 2 * (CUT_HEADER_BYTES + sources * SOURCE_BYTES + gaps * GAP_BYTES + blocks * RANGE_BYTES + reference)
            <= FixedMetadata(sources) + InitialCutReserve(sources) + RECORD_CUT_RESERVATION * records + 2 * reserved
  {
  }

  /** The projection covers the disk. */
  lemma {:induction false} ProjectionCoversDisk(c: Codec, s: State)
    requires Ledger(c, s) && GapsOk(s)
    requires forall i :: 0 <= i < |s.blocks| ==> s.blocks[i].header.recordCount >= 1
    ensures PhysicalBytes(s) <= s.projectedBytes <= s.writeLimitBytes <= s.config.maximumBytes
  {
    BlocksWithinRecords(s.blocks);
    GapsBounded(s.gaps, |s.sources|, |s.segments|);
    DiskArithmetic(|s.sources|, |s.gaps|, |s.blocks|, s.manifest.recordCount, |s.referencePayload|,
        s.referenceReservedBytes);
    assert 0 <= TotalPending(s.segments) * PendingRecordBytes(c);
  }
}
