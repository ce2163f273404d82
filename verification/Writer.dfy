/** The corpus writer as a function of its state
    (src/Runtime/src/Corpus/BinaryMarketCorpusWriter.cpp).  Every operation below says what the
    method of the same name in module WriterObject computes; the theorems are stated about these
    functions.  Operating-system calls succeed: a failed one ends the run. */
module Writer {
  import opened Numbers
  import opened Records
  import opened Storage
  import opened Formats
  import opened Publication
  import opened Index
  import SS = SourceState
  import DT = DepthTransaction

  const CUT_HEADER_RESERVE: nat := 4096
  const SOURCE_STORAGE: nat := SOURCE_BYTES + STORED_CHANNELS * GAP_BYTES
  const SOURCE_RESERVATION: nat := 3 * SOURCE_STORAGE
  const RECORD_CUT_RESERVATION: nat := 2 * RANGE_BYTES
  const SEGMENT_FRAME: nat := SEGMENT_HEADER_BYTES + SEGMENT_FOOTER_BYTES

  /** Rewrites the reference payload of a cut in place: payload, previous payload, generation,
      commit time to status and payload. */
  type Binder = (seq<u8>, seq<u8>, nat, nat) -> (Status, seq<u8>)

  datatype Config = Config(
    sources: seq<Source>, producerEpoch: u64, maximumBytes: u64, segmentTargetBytes: u64,
    targetDurationNs: u64, startedReceiveNs: i64, startedMonotonicNs: u64, ringCapacity: u32, shardCount: u16,
    binder: Option<Binder>, maximumReferenceBytes: u64, retainedCompressedBytes: u64, pendingRecordCapacity: u64)

  datatype Segment = Segment(
    open: bool, number: nat, recordCount: nat, blockCount: nat, storedBytes: nat, projectedBytes: int,
    pending: seq<Record>, positions: map<Key, nat>, recordsCrc: u32, firstReceiveNs: int, lastReceiveNs: int,
    previousSequence: nat, previousMonotonicNs: nat)

  const NO_SEGMENT: Segment := Segment(false, 0, 0, 0, 0, 0, [], map[], 0, 0, 0, 0, 0)

  /** The header a sealed segment file carries; its footer repeats the last four totals. */
  datatype SegmentHeader = SegmentHeader(
    number: nat, producerEpoch: nat, shardIndex: nat, recordCount: nat, blockCount: nat, storedBytes: nat,
    recordsCrc: u32, firstReceiveNs: int, lastReceiveNs: int)

  /** `log` and `files` are the disk: the payload of every stored block, parallel to `blocks`, and
      the headers of the sealed segment files.  `cache` is the published block cache. */
  datatype State = State(
    config: Config, manifest: Manifest, sources: seq<Source>, sourceStates: seq<SS.State>,
    index: seq<Entry>, gaps: seq<Gap>, segments: seq<Segment>, depth: seq<DT.Transaction>,
    projectedBytes: int, writeLimitBytes: int, maximumGapRecords: nat, nextSegmentNumber: nat,
    active: bool, quotaReached: bool, progress: Progress, blocks: seq<BlockRange>, log: seq<seq<u8>>,
    cache: seq<Cached>, files: map<nat, SegmentHeader>, referencePayload: seq<u8>, latest: Option<Cut>,
    cutGeneration: nat, cutReservedBytes: int, referenceReservedBytes: nat, replayAnchorFrozen: bool)

  /** `Broken` is a failure the run does not survive: an unencodable block or a full index table. */
  datatype Outcome = Done(status: Status, state: State) | Broken(status: Status)

  ghost predicate Shape(s: State) { |s.sourceStates| == |s.sources| && |s.depth| == |s.segments| }

  // --- Reservations -----------------------------------------------------------------------------

  predicate AddWithin(current: int, amount: int, limit: int) {
    amount <= U64_MAX - current && current + amount <= limit
  }

  lemma {:induction false} DivisionGuard(count: nat, room: nat, unit: nat)
    requires unit > 0
    ensures count > room / unit <==> count * unit > room
  {
    var q := room / unit;
    assert room == q * unit + room % unit;
    if count > q {
      assert count * unit >= (q + 1) * unit;
    } else {
      assert count * unit <= q * unit;
    }
  }

  /** bytes + count * unit in unsigned 64-bit arithmetic, refusing to wrap. */
  function AddProduct(bytes: nat, count: nat, unit: nat): (sum: Option<nat>)
    requires bytes <= U64_MAX
    ensures sum == if bytes + count * unit <= U64_MAX then Some(bytes + count * unit) else None
  {
    if unit == 0 then Some(bytes)
    else
      DivisionGuard(count, U64_MAX - bytes, unit);
      if count > (U64_MAX - bytes) / unit then None else Some(bytes + count * unit)
  }

  /** Both copies of a cut with these section counts. */
  function CutReservation(sources: nat, gaps: nat, blocks: nat, referenceBytes: nat): (bytes: Option<nat>)
    ensures var once := CUT_HEADER_RESERVE + sources * SOURCE_BYTES + gaps * GAP_BYTES + blocks * RANGE_BYTES +
            referenceBytes;
            bytes == if 2 * once <= U64_MAX then Some(2 * once) else None
  {
    var a := AddProduct(CUT_HEADER_RESERVE, sources, SOURCE_BYTES);
    if a.None? then None else
    var b := AddProduct(a.value, gaps, GAP_BYTES);
    if b.None? then None else
    var d := AddProduct(b.value, blocks, RANGE_BYTES);
    if d.None? then None else
    var e := AddProduct(d.value, referenceBytes, 1);
    if e.None? || e.value > U64_MAX / 2 then None else Some(2 * e.value)
  }

  function WorstRecordBytes(c: Codec): nat {
    PendingRecordBytes(c) + RECORD_CUT_RESERVATION + INDEX_ENTRY_BYTES + SEGMENT_FRAME
  }

  // --- Starting -----------------------------------------------------------------------------------

  predicate ValidConfig(g: Config) {
    && g.sources != [] && |g.sources| <= MAXIMUM_SOURCES
    && g.producerEpoch != 0 && g.maximumBytes != 0 && 0 < g.shardCount <= MAXIMUM_SHARDS
    && g.ringCapacity != 0 && g.startedReceiveNs > 0 && g.startedMonotonicNs != 0 && g.targetDurationNs != 0
    && g.segmentTargetBytes >= SEGMENT_FRAME + RECORD_BYTES
    && forall i :: 0 <= i < |g.sources| ==> ValidSource(g.sources[i], i)
  }

  /** Rows that can still arrive once publication is frozen. */
  function DrainRecords(g: Config): nat { g.shardCount * g.ringCapacity + g.pendingRecordCapacity }

  function InitialCutReserve(sources: nat): nat { 2 * (CUT_HEADER_RESERVE + sources * SOURCE_STORAGE) }

  function FixedMetadata(sources: nat): nat {
    CUT_HEADER_RESERVE + 2 * MANIFEST_BYTES + 3 * TABLE_HEADER_BYTES + sources * SOURCE_STORAGE
  }

  function DrainReserve(c: Codec, records: nat, sources: nat): nat
    requires sources <= MAXIMUM_SOURCES
  {
    records * WorstRecordBytes(c) + Min(records, MAXIMUM_SOURCES - sources) * SOURCE_RESERVATION
  }

  /** The bytes set aside before the first row, or None when the quota cannot hold them and a row. */
  function StartReserve(c: Codec, g: Config): (drain: Option<nat>)
    requires ValidConfig(g)
    ensures drain.Some? ==>
              && drain.value == DrainReserve(c, DrainRecords(g), |g.sources|)
              && FixedMetadata(|g.sources|) + InitialCutReserve(|g.sources|) + drain.value +
                  WorstRecordBytes(c) <= g.maximumBytes
  {
    var n := |g.sources|;
    var fixed := FixedMetadata(n) + InitialCutReserve(n);
    if DrainRecords(g) > U64_MAX then None else
    var a := AddProduct(0, DrainRecords(g), WorstRecordBytes(c));
    if a.None? then None else
    var b := AddProduct(a.value, Min(DrainRecords(g), MAXIMUM_SOURCES - n), SOURCE_RESERVATION);
    if b.None? || fixed + b.value + WorstRecordBytes(c) > U64_MAX
       || fixed + b.value + WorstRecordBytes(c) > g.maximumBytes then None
    else b
  }

  datatype Started = Started(state: State) | Refused(status: Status)

  function FirstProgress(g: Config): Progress {
    Progress(g.producerEpoch, 0, 0, 0, seq(MAXIMUM_SHARDS, _ => 0), g.shardCount)
  }

  function Start(c: Codec, g: Config): Started {
    if !ValidConfig(g) then Refused(InvalidArgument)
    else
      var drain := StartReserve(c, g);
      if drain.None? then Refused(OutOfRange)
      else
        var n := |g.sources|;
        Started(State(
          g,
          Manifest(MANIFEST_MAGIC, MANIFEST_BYTES, g.producerEpoch, g.startedReceiveNs, g.startedReceiveNs,
                   g.startedMonotonicNs, 0, 0, 0, g.maximumBytes, g.segmentTargetBytes, 0, 0, 0, n, 0, 0,
                   g.shardCount, Requested, 0, 0, 0, 0, 0),
          g.sources, seq(n, i requires 0 <= i < n => SS.Initial(g.sources[i])),
          [], [], seq(g.shardCount, _ => NO_SEGMENT), seq(g.shardCount, _ => DT.Idle),
          FixedMetadata(n) + InitialCutReserve(n), g.maximumBytes - drain.value, n * STORED_CHANNELS, 1,
          true, false, FirstProgress(g), [], [], [], map[],
          [], None, 0, InitialCutReserve(n), 0, false))
  }

  // --- Blocks and segments ------------------------------------------------------------------------

  function CacheCapacity(g: Config): nat { Min(g.retainedCompressedBytes, g.maximumBytes) }

  /** The reference to the block that shard n's pending rows would become. */
  function PendingBlock(c: Codec, s: State, n: nat, bytes: seq<u8>): BlockRange
    requires n < |s.segments| && n <= 0xFFFF && s.segments[n].pending != []
  {
    var g := s.segments[n];
    var last := g.pending[|g.pending| - 1];
    BlockRange(
      SEGMENT_HEADER_BYTES + g.storedBytes, g.pending[0].receiveMonotonicNs, last.receiveMonotonicNs, g.number, n,
      Sealed(c, BlockHeader(
        g.blockCount + 1, |g.pending|, |g.pending| * RECORD_BYTES, |bytes|, c.crcRows(0, g.pending), c.crc(bytes),
        g.pending[0].shardSequence, last.shardSequence, 0, g.pending[0].channel)))
  }

  /** Store the pending rows of shard n as one block and give back what they over-reserved. */
  function StoreBlock(c: Codec, s: State, n: nat, bytes: seq<u8>): State
    requires n < |s.segments| && n <= 0xFFFF && s.segments[n].pending != []
  {
    var g := s.segments[n];
    var b := PendingBlock(c, s, n, bytes);
    var physical := BLOCK_HEADER_BYTES + |bytes|;
    var released := |g.pending| * PendingRecordBytes(c) - physical;
    s.(blocks := s.blocks + [b], log := s.log + [bytes],
       cache := Retain(CacheCapacity(s.config), s.cache, b, bytes),
       projectedBytes := s.projectedBytes - released,
       segments := s.segments[n := g.(projectedBytes := g.projectedBytes - released,
                                      storedBytes := g.storedBytes + physical,
                                      blockCount := g.blockCount + 1, pending := [])])
  }

  function FlushBlock(c: Codec, s: State, n: nat): Option<State>
    requires n < |s.segments| <= 0x1_0000
  {
    var g := s.segments[n];
    if g.pending == [] then Some(s)
    else
      var bytes := c.encode(g.pending[0].channel, g.pending);
      if || bytes.None? || bytes.value == [] || |bytes.value| > c.bound(Depth, BLOCK_RECORDS)
         || g.blockCount == U32_MAX
         || BLOCK_HEADER_BYTES + |bytes.value| > |g.pending| * PendingRecordBytes(c) then None
      else Some(StoreBlock(c, s, n, bytes.value))
  }

  /** Flush the open ones of the first k segments, in order. */
  function FlushAll(c: Codec, s: State, k: nat): (t: Option<State>)
    requires k <= |s.segments| <= 0x1_0000
    ensures t.Some? ==> |t.value.segments| == |s.segments|
    decreases k
  {
    if k == 0 then Some(s)
    else
      var t := FlushAll(c, s, k - 1);
      if t.None? then None
      else if t.value.segments[k - 1].open then FlushBlock(c, t.value, k - 1)
      else t
  }

  /** All a flush may change: stored bytes, the cache, and the buffered part of the segments. */
  ghost predicate FlushedFrom(s: State, t: State) {
    && t == s.(blocks := t.blocks, log := t.log, cache := t.cache, projectedBytes := t.projectedBytes,
        segments := t.segments)
    && |t.segments| == |s.segments|
    && t.projectedBytes <= s.projectedBytes
    && forall i :: 0 <= i < |s.segments| ==>
         var g, h := s.segments[i], t.segments[i];
         && h == g.(projectedBytes := h.projectedBytes, storedBytes := h.storedBytes, blockCount := h.blockCount,
             pending := h.pending)
         && (h.pending == [] || h == g)
  }

  lemma {:induction false} FlushBlockFrame(c: Codec, s: State, n: nat)
    requires n < |s.segments| <= 0x1_0000 && FlushBlock(c, s, n).Some?
    ensures FlushedFrom(s, FlushBlock(c, s, n).value)
    ensures FlushBlock(c, s, n).value.segments[n].pending == []
    ensures forall i :: 0 <= i < |s.segments| && i != n ==> FlushBlock(c, s, n).value.segments[i] == s.segments[i]
  {
  }

  lemma {:induction false} FlushedTransitive(s: State, t: State, u: State)
    requires FlushedFrom(s, t) && FlushedFrom(t, u)
    ensures FlushedFrom(s, u)
  {
    forall i | 0 <= i < |s.segments|
      ensures var g, h := s.segments[i], u.segments[i];
              && h == g.(projectedBytes := h.projectedBytes, storedBytes := h.storedBytes, blockCount := h.blockCount,
                  pending := h.pending)
              && (h.pending == [] || h == g)
    {
      var m := t.segments[i];
      assert u.segments[i].pending == [] || u.segments[i] == m;
    }
  }

  lemma {:induction false} FlushAllFrame(c: Codec, s: State, k: nat)
    requires k <= |s.segments| <= 0x1_0000 && FlushAll(c, s, k).Some?
    ensures FlushedFrom(s, FlushAll(c, s, k).value)
    ensures forall i :: 0 <= i < k && s.segments[i].open ==> FlushAll(c, s, k).value.segments[i].pending == []
    decreases k
  {
    if k > 0 {
      FlushAllFrame(c, s, k - 1);
      var t := FlushAll(c, s, k - 1).value;
      if t.segments[k - 1].open {
        FlushBlockFrame(c, t, k - 1);
        FlushedTransitive(s, t, FlushBlock(c, t, k - 1).value);
      }
    }
  }

  function HeaderOf(s: State, n: nat): SegmentHeader
    requires n < |s.segments|
  {
    var g := s.segments[n];
    SegmentHeader(g.number, s.config.producerEpoch, n, g.recordCount, g.blockCount, g.storedBytes,
                  g.recordsCrc, g.firstReceiveNs, g.lastReceiveNs)
  }

  /** Write the final header and footer and rename the file to its sealed name. */
  function CloseSegment(s: State, n: nat): State
    requires n < |s.segments|
  {
    s.(files := s.files[s.segments[n].number := HeaderOf(s, n)],
       manifest := s.manifest.(segmentCount := s.manifest.segmentCount + 1),
       segments := s.segments[n := s.segments[n].(open := false, positions := map[])])
  }

  function SealSegment(c: Codec, s: State, n: nat): (t: Option<State>)
    requires n < |s.segments| <= 0x1_0000
    ensures t.Some? ==>
              && |t.value.segments| == |s.segments| && t.value.index == s.index && t.value.depth == s.depth
              && t.value.sources == s.sources && t.value.sourceStates == s.sourceStates
  {
    if !s.segments[n].open then Some(s)
    else
      var t := FlushBlock(c, s, n);
      if t.None? then None else Some(CloseSegment(t.value, n))
  }

  function SealAll(c: Codec, s: State, k: nat): (t: Option<State>)
    requires k <= |s.segments| <= 0x1_0000
    ensures t.Some? ==> |t.value.segments| == |s.segments|
    decreases k
  {
    if k == 0 then Some(s)
    else
      var t := SealAll(c, s, k - 1);
      if t.None? then None else SealSegment(c, t.value, k - 1)
  }

  function OpenSegment(s: State, n: nat): State
    requires n < |s.segments|
  {
    var g := s.segments[n];
    s.(nextSegmentNumber := s.nextSegmentNumber + 1,
       segments := s.segments[n := NO_SEGMENT.(open := true, number := s.nextSegmentNumber,
                                               projectedBytes := SEGMENT_FRAME,
                                               previousSequence := g.previousSequence,
                                               previousMonotonicNs := g.previousMonotonicNs)])
  }

  // --- Sources ------------------------------------------------------------------------------------

  /** The source count after registering `incoming`, or None when an entry is refused. */
  function RegisteredCount(s: State, incoming: seq<Source>, count: nat): (total: Option<nat>)
    ensures total.Some? ==> count <= total.value <= count + |incoming|
    ensures total.Some? && count <= MAXIMUM_SOURCES ==> total.value <= MAXIMUM_SOURCES
    decreases |incoming|
  {
    if incoming == [] then Some(count)
    else
      var x := incoming[0];
      if x.sourceId == 0 || !ValidSource(x, x.sourceId - 1) then None
      else if x.sourceId <= |s.sources| then
        if SS.SameIdentity(s.sources[x.sourceId - 1], x) then RegisteredCount(s, incoming[1..], count) else None
      else if x.sourceId == count + 1 && count < MAXIMUM_SOURCES then RegisteredCount(s, incoming[1..], count + 1)
      else None
  }

  /** A registered source stays inactive until its producer announces it. */
  function Inactive(x: Source): Source { x.(initiallyPresent := false, initialGeneration := 0) }

  function AddSources(s: State, incoming: seq<Source>): State
    decreases |incoming|
  {
    if incoming == [] then s
    else if incoming[0].sourceId <= |s.sources| then AddSources(s, incoming[1..])
    else AddSources(s.(sources := s.sources + [Inactive(incoming[0])],
                       sourceStates := s.sourceStates + [SS.Initial(Inactive(incoming[0]))]), incoming[1..])
  }

  function RegisterSources(s: State, incoming: seq<Source>): Outcome {
    if !s.active || |incoming| > MAXIMUM_SOURCES then Done(InvalidArgument, s)
    else
      var total := RegisteredCount(s, incoming, |s.sources|);
      if total.None? then Done(InvalidArgument, s)
      else
        var added := total.value - |s.sources|;
        if || !AddWithin(s.cutReservedBytes, added * (2 * SOURCE_STORAGE), U64_MAX)
           || !AddWithin(s.projectedBytes, added * SOURCE_RESERVATION, s.writeLimitBytes) then
          Done(OutOfRange, s.(quotaReached := true))
        else
          var t := AddSources(s.(projectedBytes := s.projectedBytes + added * SOURCE_RESERVATION,
                                 cutReservedBytes := s.cutReservedBytes + added * (2 * SOURCE_STORAGE)), incoming);
          Done(Ok, t.(manifest := t.manifest.(sourceCount := |t.sources|),
                      maximumGapRecords := |t.sources| * STORED_CHANNELS))
  }

  // --- Appending a row ----------------------------------------------------------------------------

  /** Everything decided before the writer changes: the source and transaction states the row leads
      to and the source it adds, or the refusal. */
  datatype Verdict =
    | Accept(source: SS.State, transaction: DT.Transaction, added: Option<Source>)
    | Reject(status: Status)

  predicate InOrder(g: Segment, r: Record) {
    && (g.previousSequence == 0 || r.shardSequence > g.previousSequence)
    && (g.previousMonotonicNs == 0 || r.receiveMonotonicNs >= g.previousMonotonicNs)
  }

  function Judge(s: State, r: Record): Verdict
    requires Shape(s)
  {
    var lifecycle := r.channel == SourceLifecycle;
    if !s.active then Reject(InvalidArgument)
    else if s.replayAnchorFrozen && r.receiveMonotonicNs < s.manifest.replayAnchorMonotonicNs then Reject(CorruptData)
    else if || !ValidRecord(r) || r.shardIndex >= |s.segments|
            || r.sourceId > |s.sources| + (if lifecycle then 1 else 0) || !r.tailZero then Reject(InvalidArgument)
    else
      var transaction := DT.Advance(r, s.depth[r.shardIndex]);
      if transaction.None? then Reject(InvalidArgument)
      else if r.sourceId == |s.sources| + 1 then
        var p := r.payload.lifecycle;
        if |s.sources| >= MAXIMUM_SOURCES then Reject(OutOfRange)
        else if p.kind != Added || p.previousGeneration != 0 then Reject(InvalidArgument)
        else
          var added := p.source.(initiallyPresent := false);
          JudgeSource(s, r, SS.Initial(added), transaction.value, Some(added))
      else JudgeSource(s, r, s.sourceStates[r.sourceId - 1], transaction.value, None)
  }

  function JudgeSource(s: State, r: Record, from: SS.State, transaction: DT.Transaction, added: Option<Source>): Verdict
    requires ValidRecord(r) && r.shardIndex < |s.segments|
  {
    var next := SS.Advance(r, from, false);
    if next.None? || !InOrder(s.segments[r.shardIndex], r) then Reject(InvalidArgument)
    else Accept(next.value, transaction, added)
  }

  /** The pending block of the row's segment cannot take it. */
  predicate MustFlush(g: Segment, r: Record) {
    g.open && g.pending != [] && (|g.pending| == BLOCK_RECORDS || g.pending[0].channel != r.channel)
  }

  predicate Rotates(c: Codec, s: State, r: Record)
    requires r.shardIndex < |s.segments|
  {
    var g := s.segments[r.shardIndex];
    && g.open && g.pending == [] && g.recordCount != 0
    && (|| g.projectedBytes > s.config.segmentTargetBytes
        || PendingRecordBytes(c) > s.config.segmentTargetBytes - g.projectedBytes)
  }

  /** What the row needs beside its own bytes, decided before any quota flush. */
  datatype Plan = Plan(rotate: bool, openNeeded: bool, indexNeeded: bool)

  function PlanOf(c: Codec, s: State, r: Record): (p: Plan)
    requires r.shardIndex < |s.segments|
    ensures p.rotate ==> p.openNeeded
    ensures p.openNeeded ==> p.indexNeeded
  {
    var g := s.segments[r.shardIndex];
    var openNeeded := !g.open || Rotates(c, s, r);
    Plan(Rotates(c, s, r), openNeeded, openNeeded || KeyOf(r) !in g.positions)
  }

  /** One row may force its own block, segment and index entry, and always its two cut references. */
  function RequiredBytes(c: Codec, p: Plan, newSource: bool): nat {
    PendingRecordBytes(c) + RECORD_CUT_RESERVATION
    + (if newSource then SOURCE_RESERVATION else 0)
    + (if p.openNeeded then SEGMENT_FRAME else 0)
    + (if p.indexNeeded then INDEX_ENTRY_BYTES else 0)
  }

  function CutGrowth(newSource: bool): nat {
    RECORD_CUT_RESERVATION + (if newSource then 2 * SOURCE_STORAGE else 0)
  }

  function AddSource(s: State, added: Option<Source>, source: SS.State): State {
    match added
    case None => s
    case Some(x) =>
      s.(sources := s.sources + [x], sourceStates := s.sourceStates + [source],
         manifest := s.manifest.(sourceCount := s.manifest.sourceCount + 1),
         maximumGapRecords := s.maximumGapRecords + STORED_CHANNELS)
  }

  predicate IndexFull(s: State) {
    |s.index| >= s.config.maximumBytes / INDEX_ENTRY_BYTES || |s.index| >= U32_MAX
  }

  /** Find or add the row's index entry and touch it. */
  function IndexRow(s: State, n: nat, r: Record): State
    requires n < |s.segments|
    requires KeyOf(r) in s.segments[n].positions ==> s.segments[n].positions[KeyOf(r)] < |s.index|
  {
    var g := s.segments[n];
    if KeyOf(r) in g.positions then
      var at := g.positions[KeyOf(r)];
      s.(index := s.index[at := Touch(s.index[at], r)])
    else
      s.(index := s.index + [Touch(Fresh(g.number, n, KeyOf(r)), r)],
         segments := s.segments[n := g.(positions := g.positions[KeyOf(r) := |s.index|])])
  }

  function BufferRow(c: Codec, s: State, n: nat, r: Record): State
    requires n < |s.segments|
  {
    var g := s.segments[n];
    s.(segments := s.segments[n := g.(
         pending := g.pending + [r], previousSequence := r.shardSequence,
         previousMonotonicNs := r.receiveMonotonicNs, recordsCrc := c.crcRows(g.recordsCrc, [r]),
         recordCount := g.recordCount + 1, projectedBytes := g.projectedBytes + PendingRecordBytes(c),
         firstReceiveNs := MinReceive(g.firstReceiveNs, r), lastReceiveNs := MaxReceive(g.lastReceiveNs, r))])
  }

  function CountRow(m: Manifest, r: Record): Manifest {
    var earlier := r.receiveMonotonicNs < m.replayAnchorMonotonicNs;
    m.(recordCount := m.recordCount + 1,
       replayAnchorMonotonicNs := if earlier then r.receiveMonotonicNs else m.replayAnchorMonotonicNs,
       replayAnchorReceiveNs := if earlier then r.receiveRealtimeNs else m.replayAnchorReceiveNs,
       firstReceiveNs := MinReceive(m.firstReceiveNs, r), lastReceiveNs := MaxReceive(m.lastReceiveNs, r))
  }

  /** Positions of a segment's index entries lie in the table. */
  ghost predicate Positioned(s: State) {
    forall n, key :: 0 <= n < |s.segments| && key in s.segments[n].positions ==>
        s.segments[n].positions[key] < |s.index|
  }

  /** The row's index entry, if its segment has one, lies in the table. */
  ghost predicate PositionedAt(s: State, n: nat) {
    && n < |s.segments|
    && forall key :: key in s.segments[n].positions ==> s.segments[n].positions[key] < |s.index|
  }

  /** Make segment n ready for a row: seal it if it rotates, open a fresh one if one is needed. */
  function SeatRow(c: Codec, s: State, n: nat, rotate: bool, openNeeded: bool): (ready: Option<State>)
    requires Shape(s) && |s.segments| <= 0x1_0000 && PositionedAt(s, n) && (rotate ==> openNeeded)
    ensures ready.Some? ==>
              && Shape(ready.value) && |ready.value.segments| == |s.segments| && PositionedAt(ready.value, n)
              && ready.value.sources == s.sources
  {
    var rotated := if rotate then SealSegment(c, s, n) else Some(s);
    if rotated.None? then None
    else if openNeeded then Some(OpenSegment(rotated.value, n))
    else rotated
  }

  function Reserve(c: Codec, s: State, p: Plan, newSource: bool): State {
    s.(projectedBytes := s.projectedBytes + RequiredBytes(c, p, newSource),
       cutReservedBytes := s.cutReservedBytes + CutGrowth(newSource))
  }

  /** The verdict speaks about this row of this writer. */
  ghost predicate Admitted(s: State, r: Record, v: Verdict) {
    && v.Accept? && r.shardIndex < |s.segments|
    && 0 < r.sourceId <= |s.sources| + (if v.added.Some? then 1 else 0)
  }

  /** Pay for the row, then rotate, open and add what it needs. */
  function PrepareRow(c: Codec, s: State, r: Record, v: Verdict, p: Plan): (ready: Option<State>)
    requires Shape(s) && Positioned(s) && |s.segments| <= 0x1_0000 && Admitted(s, r, v) && (p.rotate ==> p.openNeeded)
    ensures ready.Some? ==>
              && |ready.value.segments| == |s.segments| && Shape(ready.value)
              && |ready.value.sources| == |s.sources| + (if v.added.Some? then 1 else 0)
              && PositionedAt(ready.value, r.shardIndex)
  {
    var seated := SeatRow(c, Reserve(c, s, p, v.added.Some?), r.shardIndex, p.rotate, p.openNeeded);
    if seated.None? then None else Some(AddSource(seated.value, v.added, v.source))
  }

  /** Buffer the row and carry every total over it. */
  function TakeRow(c: Codec, s: State, r: Record, v: Verdict): State
    requires Shape(s) && v.Accept? && r.shardIndex < |s.segments| && 0 < r.sourceId <= |s.sources|
    requires PositionedAt(s, r.shardIndex)
  {
    var n := r.shardIndex as nat;
    var t := BufferRow(c, IndexRow(s, n, r), n, r);
    t.(sourceStates := t.sourceStates[r.sourceId - 1 := v.source], depth := t.depth[n := v.transaction],
       manifest := CountRow(t.manifest, r))
  }

  /** Take an accepted row whose bytes fit. */
  function CommitRow(c: Codec, s: State, r: Record, v: Verdict, p: Plan): Outcome
    requires Shape(s) && Positioned(s) && |s.segments| <= 0x1_0000 && Admitted(s, r, v) && (p.rotate ==> p.openNeeded)
  {
    var prepared := PrepareRow(c, s, r, v, p);
    if prepared.None? then Broken(IoError)
    else if KeyOf(r) !in prepared.value.segments[r.shardIndex].positions && IndexFull(prepared.value) then
      Broken(if s.quotaReached then OutOfRange else IoError)
    else Done(Ok, TakeRow(c, prepared.value, r, v))
  }

  /** The row's needs are beyond what the counters can hold. */
  predicate Unrepresentable(c: Codec, s: State, p: Plan, newSource: bool) {
    || !AddWithin(s.cutReservedBytes, CutGrowth(newSource), U64_MAX)
    || RequiredBytes(c, p, newSource) > U64_MAX
    || (p.openNeeded && s.nextSegmentNumber == U32_MAX)
  }

  /** Reserve the row's bytes, flushing every pending block once before giving up. */
  function ReserveRow(c: Codec, s: State, r: Record, v: Verdict): Outcome
    requires Shape(s) && Positioned(s) && |s.segments| <= 0x1_0000 && Admitted(s, r, v)
  {
    var p := PlanOf(c, s, r);
    var required := RequiredBytes(c, p, v.added.Some?);
    if Unrepresentable(c, s, p, v.added.Some?) then Done(OutOfRange, s)
    else if AddWithin(s.projectedBytes, required, s.writeLimitBytes) then CommitRow(c, s, r, v, p)
    else
      var flushed := FlushAll(c, s, |s.segments|);
      if flushed.None? then Broken(IoError)
      else if AddWithin(flushed.value.projectedBytes, required, s.writeLimitBytes) then
        FlushAllFrame(c, s, |s.segments|);
        CommitRow(c, flushed.value, r, v, p)
      else Done(OutOfRange, flushed.value.(quotaReached := true))
  }

  function Append(c: Codec, s: State, r: Record): Outcome
    requires Shape(s) && Positioned(s) && |s.segments| <= 0x1_0000
  {
    var v := Judge(s, r);
    if v.Reject? then Done(v.status, s)
    else if MustFlush(s.segments[r.shardIndex], r) then
      var flushed := FlushBlock(c, s, r.shardIndex as nat);
      if flushed.None? then Broken(IoError)
      else
        FlushBlockFrame(c, s, r.shardIndex as nat);
        ReserveRow(c, flushed.value, r, v)
    else ReserveRow(c, s, r, v)
  }

  // --- Gaps, progress, references -----------------------------------------------------------------

  /** The first gap of the same source and channel. */
  function FindCell(gaps: seq<Gap>, g: Gap): (i: nat)
    ensures i <= |gaps| && (i < |gaps| ==> SameCell(gaps[i], g))
    ensures forall j :: 0 <= j < i ==> !SameCell(gaps[j], g)
    decreases |gaps|
  {
    if gaps == [] || SameCell(gaps[0], g) then 0
    else
      var i := FindCell(gaps[1..], g);
      assert forall j :: 0 < j < i + 1 ==> gaps[j] == gaps[1..][j - 1];
      i + 1
  }

  function AppendGap(s: State, g: Gap): Outcome {
    if || !s.active || !ValidGap(g, |s.sources|, |s.segments|)
       || g.sourceGeneration < s.sources[g.sourceId - 1].initialGeneration then Done(InvalidArgument, s)
    else
      var i := FindCell(s.gaps, g);
      if i < |s.gaps| then
        if g.gapEpoch < s.gaps[i].gapEpoch then Done(CorruptData, s)
        else Done(Ok, s.(gaps := s.gaps[i := g]))
      else if |s.gaps| >= s.maximumGapRecords then Done(OutOfRange, s)
      else Done(Ok, s.(gaps := s.gaps + [g], manifest := s.manifest.(gapCount := s.manifest.gapCount + 1)))
  }

  /** A shard's share of a progress update names only committed rows outside open transactions. */
  predicate ProgressAllowed(s: State, p: Progress, n: nat)
    requires n < |s.segments| && n < MAXIMUM_SHARDS && n < |s.depth|
  {
    && s.progress.shardSequences[n] <= p.shardSequences[n] <= s.segments[n].previousSequence
    && (s.depth[n].Open? ==>
          p.shardSequences[n] < s.depth[n].firstShardSequence && p.safeMonotonicNs <= s.depth[n].receiveMonotonicNs)
  }

  function UpdateProgress(s: State, p: Progress): Outcome
    requires Shape(s) && |s.segments| == s.config.shardCount <= MAXIMUM_SHARDS
  {
    if || !s.active || p.producerEpoch != s.config.producerEpoch || p.shardCount != s.config.shardCount
       || p.safeMonotonicNs < s.progress.safeMonotonicNs || p.lossEpoch < s.progress.lossEpoch
       || p.directoryRevision < s.progress.directoryRevision
       || exists n :: 0 <= n < |s.segments| && !ProgressAllowed(s, p, n) then Done(InvalidArgument, s)
    else Done(Ok, s.(progress := p))
  }

  function SetReferencePayload(s: State, payload: seq<u8>): Outcome {
    if !s.active || |payload| > s.config.maximumReferenceBytes || |payload| > MAXIMUM_REFERENCE_BYTES then
      Done(InvalidArgument, s)
    else
      var growth := if |payload| > s.referenceReservedBytes then |payload| - s.referenceReservedBytes else 0;
      if || !AddWithin(s.cutReservedBytes, 2 * growth, U64_MAX)
         || !AddWithin(s.projectedBytes, 2 * growth, s.writeLimitBytes) then Done(OutOfRange, s.(quotaReached := true))
      else Done(Ok,
          s.(projectedBytes := s.projectedBytes + 2 * growth, cutReservedBytes := s.cutReservedBytes + 2 * growth,
                       referenceReservedBytes := Max(s.referenceReservedBytes, |payload|), referencePayload := payload))
  }

  function BeginFinalDrain(s: State): Outcome {
    if !s.active then Done(InvalidArgument, s) else Done(Ok, s.(writeLimitBytes := s.config.maximumBytes))
  }

  // --- Publication --------------------------------------------------------------------------------

  function CutOf(s: State, now: nat, reference: seq<u8>): Cut {
    Cut(s.cutGeneration + 1, now, s.progress, s.manifest.(projectedBytes := s.projectedBytes),
        s.sources, s.gaps, s.blocks, reference, s.manifest.finalizedReceiveNs > 0)
  }

  function PreviousReference(s: State): seq<u8> {
    match s.latest case Some(cut) => cut.referencePayload case None => []
  }

  /** The payload the visibility binder lets into the cut, or its refusal. */
  function BindReference(s: State, now: nat): (Status, seq<u8>) {
    match s.config.binder
    case None => (Ok, s.referencePayload)
    case Some(bind) =>
      var (status, payload) := bind(s.referencePayload, PreviousReference(s), s.cutGeneration + 1, now);
      if status != Ok then (status, [])
      else if |payload| > s.config.maximumReferenceBytes || |payload| > MAXIMUM_REFERENCE_BYTES then (OutOfRange, [])
      else if |payload| != |s.referencePayload| then (InvalidArgument, [])
      else (Ok, payload)
  }

  predicate AnchorExecutable(cut: Cut) {
    cut.manifest.recordCount != 0 && cut.progress.safeMonotonicNs > cut.manifest.replayAnchorMonotonicNs
  }

  function CommitCut(s: State, cut: Cut): State {
    s.(replayAnchorFrozen := s.replayAnchorFrozen || AnchorExecutable(cut),
       cutGeneration := s.cutGeneration + 1, latest := Some(cut))
  }

  function PublishCut(c: Codec, s: State, now: nat): Outcome
    requires |s.segments| <= 0x1_0000
  {
    if !s.active || s.cutGeneration == U64_MAX then Done(InvalidArgument, s)
    else
      var flushed := FlushAll(c, s, |s.segments|);
      if flushed.None? then Broken(IoError)
      else
        var t := flushed.value;
        var required := CutReservation(|t.sources|, |t.gaps|, |t.blocks|, |t.referencePayload|);
        if required.None? || required.value > t.cutReservedBytes then Done(CorruptData, t)
        else
          var (status, reference) := BindReference(t, now);
          if status != Ok then Done(status, t) else Done(Ok, CommitCut(t, CutOf(t, now, reference)))
  }

  // --- Finalization -------------------------------------------------------------------------------

  function FinalManifest(c: Codec, l: Layout, s: State, reason: StopReason, finalizedReceiveNs: i64): Manifest {
    var m := s.manifest;
    m.(startedReceiveNs := if m.firstReceiveNs > 0 then Min(s.config.startedReceiveNs, m.firstReceiveNs)
        else s.config.startedReceiveNs,
       finalizedReceiveNs := Max(finalizedReceiveNs, Max(s.config.startedReceiveNs, m.lastReceiveNs)),
       stopReason := reason, complete := if reason == Error then 0 else 1, indexCount := |s.index|,
       sourcesCrc := c.crc(Pack(l.sourceBytes, s.sources)), indexCrc := c.crc(Pack(l.entryBytes, s.index)),
       gapsCrc := c.crc(Pack(l.gapBytes, s.gaps)), projectedBytes := s.projectedBytes)
  }

  /** Seal every segment, write the tables, publish the last cut and only then the manifest. */
  function Finalize(c: Codec, l: Layout, s: State, reason: StopReason, finalizedReceiveNs: i64, now: nat): Outcome
    requires |s.segments| <= 0x1_0000
  {
    if !s.active || finalizedReceiveNs <= 0 then Done(InvalidArgument, s)
    else if exists n :: 0 <= n < |s.depth| && s.depth[n].Open? then Done(CorruptData, s)
    else
      var sealed := SealAll(c, s, |s.segments|);
      if sealed.None? then Broken(IoError)
      else
        var t := sealed.value.(manifest := FinalManifest(c, l, sealed.value, reason, finalizedReceiveNs));
        var commit := PublishCut(c, t, now);
        match commit
        case Broken(status) => commit
        case Done(status, u) =>
          if status != Ok then commit
          else Done(Ok, u.(manifest := u.manifest.(projectedBytes := u.projectedBytes), active := false))
  }
}
