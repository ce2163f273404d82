/** The corpus contract: channels, sources, records and the validators every producer and reader
    shares.  Bit masks are sets; a struct field that no modelled decision reads is either left out
    or folded into one opaque number, and the validator clauses over such fields are summarised by
    the boolean `restValid` carried in the value. */
module Records {
  type u8 = x: int | 0 <= x < 0x100
  type u16 = x: int | 0 <= x < 0x1_0000
  type u32 = x: int | 0 <= x < 0x1_0000_0000
  type u64 = x: int | 0 <= x < 0x1_0000_0000_0000_0000
  type i64 = x: int | -0x8000_0000_0000_0000 <= x < 0x8000_0000_0000_0000

  const U32_MAX: int := 0xFFFF_FFFF
  const U64_MAX: int := 0xFFFF_FFFF_FFFF_FFFF
  const I64_MAX: int := 0x7FFF_FFFF_FFFF_FFFF

  datatype Option<+T> = None | Some(value: T)

  datatype Status = Ok | InvalidArgument | IoError | OutOfRange | CorruptData | Unimplemented | Cancelled | Unknown

  datatype Channel =
    | BookTicker | Trade | Depth | Liquidation | MarkPrice | IndexPrice | Funding | PriceLimit | SourceLifecycle

  const STORED_CHANNELS: nat := 9

  /** Position of a channel in the per-source gap table. */
  function ChannelIndex(c: Channel): (i: nat)
    ensures i < STORED_CHANNELS
  {
    match c
    case BookTicker => 0
    case Trade => 1
    case Depth => 2
    case Liquidation => 3
    case MarkPrice => 4
    case IndexPrice => 5
    case Funding => 6
    case PriceLimit => 7
    case SourceLifecycle => 8
  }

  /** Availability masks have eight bits: a lifecycle row has none. */
  function ChannelBit(c: Channel): set<Channel> {
    if c == SourceLifecycle then {} else {c}
  }

  datatype Compatibility = Unavailable | ExactTraderReplay | RecordedOnly

  /** `identity` and `rules` stand for the fields compared by the identity and the rule comparison. */
  datatype Source = Source(
    sourceId: u32, initialGeneration: u64, initiallyPresent: bool,
    configured: set<Channel>, available: set<Channel>, traderReplay: set<Channel>,
    compatibility: map<Channel, Compatibility>,
    identity: u64, rules: u64, restValid: bool)

  function CompatibilityOf(s: Source, c: Channel): Compatibility {
    if c in s.compatibility then s.compatibility[c] else Unavailable
  }

  predicate ValidSource(s: Source, index: nat) {
    && s.sourceId == index + 1
    && (s.initiallyPresent ==> s.initialGeneration != 0)
    && SourceLifecycle !in s.configured
    && s.available <= s.configured
    && s.traderReplay <= s.available
    && (forall c: Channel :: c != SourceLifecycle ==>
          CompatibilityOf(s, c) ==
          if c !in s.available then Unavailable
          else if c in s.traderReplay then ExactTraderReplay
          else RecordedOnly)
    && s.restValid
  }

  datatype Flag =
    | TraderReplayCompatible | BboFreshnessOnly | DepthSnapshot | DepthDelta | DepthPartial | DepthRebase
    | ExchangeTimestampMissing | GapBoundary | RealtimeRegression | MonotonicNonIncreasing
    | ExchangeAheadOfReceive | DepthStateFlag | LifecycleFlag | DepthCoverage | DepthHasCoverage
    | DepthTransactionEnd | DepthSourcePosition

  datatype SourceFlag = Stale | Degraded | SequenceGap | TimestampMissing | BidPresent | AskPresent

  datatype FrameKind = UnknownFrame | SnapshotFrame | DeltaFrame | StateFrame

  datatype DepthState = EmptyBook | Partial | RebaseInFlight | Healthy | GapState

  /** `evidence` stands for the native sequence, native evidence and source clocks, which a
      transaction only ever compares for equality; `withinPartLimit` says that the part count does
      not exceed the library's bound. */
  datatype DepthChunk = DepthChunk(
    transactionPartIndex: u16, transactionPartCount: u16, partIndex: u16, partCount: u16,
    totalLevelCount: u32, levelOffset: u32, levelCount: u16,
    frameKind: FrameKind, state: DepthState, failure: u8, evidence: u64, snapshotSequenceValid: bool,
    withinPartLimit: bool)

  datatype CoveragePart = CoveragePart(
    totalCoverageCount: u32, partIndex: u16, partCount: u16, transactionPartCount: u16)

  datatype LifecycleKind = Added | Removed | Readded | DirectoryChanged

  datatype Cause = Subscription | NativeStale | NativeDegraded | NativeSequenceGap | NativeRecovered | NativeClosed

  predicate Unhealthy(c: Cause) {
    c == NativeStale || c == NativeDegraded || c == NativeSequenceGap || c == NativeClosed
  }

  datatype Lifecycle = Lifecycle(
    directoryRevision: u64, previousGeneration: u64, before: set<Channel>, after: set<Channel>,
    kind: LifecycleKind, affected: Option<Channel>, cause: Cause, source: Source)

  datatype Payload =
    | MarketRow(body: u64)
    | DepthRow(chunk: DepthChunk)
    | CoverageRow(part: CoveragePart)
    | LifecycleRow(lifecycle: Lifecycle)

  /** `tailZero` says that the payload bytes beyond the declared size are all zero. */
  datatype Record = Record(
    sourceId: u32, sourceGeneration: u64, sessionEpoch: u64, eventSequence: u64, frameSequence: u64,
    eventOrdinal: u16, exchangeTimestampNs: i64, receiveRealtimeNs: i64, receiveMonotonicNs: u64,
    shardSequence: u64, shardIndex: u16, channel: Channel, flags: set<Flag>, sourceFlags: set<SourceFlag>,
    payload: Payload, tailZero: bool, restValid: bool)

  predicate Compatible(r: Record) { TraderReplayCompatible in r.flags }

  /** Clauses of the record validator over the lifecycle payload. */
  predicate ValidLifecycle(r: Record, p: Lifecycle) {
    && p.directoryRevision != 0
    && (p.cause != Subscription ==>
          && p.kind == DirectoryChanged
          && p.before == p.after
          && p.affected.Some?
          && p.affected.value in {BookTicker, Trade, Depth}
          && p.affected.value in p.source.configured)
    && p.source.sourceId == r.sourceId
    && p.source.initialGeneration == r.sourceGeneration
    && p.source.sourceId != 0
    && ValidSource(p.source, p.source.sourceId - 1)
    && SourceLifecycle !in p.before
    && p.after == p.source.available
    && (p.affected.Some? ==> p.affected.value != SourceLifecycle)
    && (p.previousGeneration == 0 ==> p.kind == Added)
    && Compatible(r)
    && r.sourceFlags == {}
  }

  /** The payload shape a channel demands. */
  predicate ValidPayload(r: Record) {
    match r.channel
    case SourceLifecycle => r.payload.LifecycleRow? && ValidLifecycle(r, r.payload.lifecycle)
    case Depth =>
      if DepthCoverage in r.flags then
        && r.payload.CoverageRow?
        && (var c := r.payload.part;
            && c.partIndex < c.partCount
            && r.eventOrdinal == c.partIndex
            && c.transactionPartCount != 0
            && r.flags * {DepthSnapshot, DepthDelta, DepthStateFlag} == {}
            && {DepthHasCoverage, DepthSourcePosition, TraderReplayCompatible} <= r.flags
            && (DepthTransactionEnd in r.flags <==> c.partIndex + 1 == c.partCount))
      else r.payload.DepthRow?
    case _ =>
      && r.payload.MarketRow?
      && r.flags * {DepthCoverage, DepthHasCoverage, DepthTransactionEnd, DepthSourcePosition} == {}
  }

  predicate ValidRecord(r: Record) {
    && ValidPayload(r)
    && r.sourceId != 0 && r.sourceGeneration != 0
    && (r.channel != SourceLifecycle ==> r.sessionEpoch != 0 && r.frameSequence != 0)
    && r.eventSequence != 0
    && (LifecycleFlag in r.flags <==> r.channel == SourceLifecycle)
    && r.exchangeTimestampNs >= 0
    && (ExchangeTimestampMissing in r.flags <==> r.exchangeTimestampNs == 0)
    && r.receiveRealtimeNs > 0 && r.receiveMonotonicNs != 0 && r.shardSequence != 0
    && r.restValid
  }

  /** The explicit composed book cut, as opposed to a native snapshot or rebase. */
  predicate ComposedCut(r: Record) {
    && r.channel == Depth && r.payload.DepthRow?
    && {DepthSnapshot, DepthSourcePosition, DepthHasCoverage} <= r.flags
    && r.flags * {DepthDelta, DepthStateFlag, DepthRebase, DepthCoverage} == {}
    && (var p := r.payload.chunk;
        && p.frameKind == SnapshotFrame && p.transactionPartIndex == 0 && p.transactionPartCount == 1
        && (p.state == Healthy || p.state == Partial || p.state == GapState
            || (p.state == EmptyBook && p.totalLevelCount == 0 && p.levelCount == 0)))
  }

  /** A native availability notification: it never carries market prices. */
  predicate IsSourceHealth(r: Record) {
    if r.channel == SourceLifecycle then false
    else if ComposedCut(r) then r.payload.chunk.state == GapState || r.payload.chunk.state == EmptyBook
    else if r.sourceFlags * {Stale, Degraded, SequenceGap} != {} then true
    else
      && r.channel == Depth && DepthStateFlag in r.flags && r.payload.DepthRow?
      && r.payload.chunk.frameKind == StateFrame && r.payload.chunk.state == GapState
  }

  /** The first row of a native rebase snapshot, which only a sealed reader recognises. */
  predicate NativeRebaseSnapshot(r: Record) {
    && r.channel == Depth && r.payload.DepthRow?
    && {TraderReplayCompatible, DepthSnapshot, DepthRebase} <= r.flags
    && r.flags * {DepthDelta, DepthStateFlag, DepthCoverage, DepthHasCoverage, DepthSourcePosition} == {}
    && (var p := r.payload.chunk;
        && p.frameKind == SnapshotFrame && p.state == RebaseInFlight
        && p.transactionPartIndex == 0 && p.partIndex == 0 && p.failure == 0 && p.snapshotSequenceValid)
  }
}
