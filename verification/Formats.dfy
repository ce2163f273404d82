/** Manifest, gap, progress and cut values shared by the writer and both readers, with the sizes
    their on-disk structs occupy. */
module Formats {
  import opened Records
  import opened Storage
  import opened Index

  const SOURCE_BYTES: nat := 272
  const GAP_BYTES: nat := 80
  const INDEX_ENTRY_BYTES: nat := 72
  const RANGE_BYTES: nat := 96
  const MANIFEST_BYTES: nat := 192
  const TABLE_HEADER_BYTES: nat := 64
  const CUT_HEADER_BYTES: nat := 896
  const MAXIMUM_SHARDS: nat := 64
  const MAXIMUM_SOURCES: nat := 65536
  const MAXIMUM_REFERENCE_BYTES: nat := 128 * 1024 * 1024
  const MANIFEST_MAGIC: nat := 0x4d435248

  datatype StopReason = Requested | Duration | Quota | ParserDisconnected | Error

  datatype Manifest = Manifest(
    magic: nat, headerBytes: nat, producerEpoch: nat, startedReceiveNs: int,
    replayAnchorReceiveNs: int, replayAnchorMonotonicNs: nat, finalizedReceiveNs: int,
    firstReceiveNs: int, lastReceiveNs: int, maximumBytes: nat, segmentTargetBytes: nat, projectedBytes: int,
    recordCount: nat, gapCount: nat, sourceCount: nat, segmentCount: nat, indexCount: nat, shardCount: nat,
    stopReason: StopReason, complete: nat, sourcesCrc: u32, indexCrc: u32, gapsCrc: u32, manifestCrc: u32)

  /** `reserved` stands for the two padding fields a valid gap leaves zero. */
  datatype Gap = Gap(
    sourceId: u32, sourceGeneration: u64, gapEpoch: u64, droppedRecords: u64,
    firstDroppedEventSequence: u64, lastDroppedEventSequence: u64,
    minimumDroppedReceiveNs: i64, maximumDroppedReceiveNs: i64, observedReceiveNs: i64,
    shardIndex: u16, channel: Channel, reserved: u32)

  type ShardSequences = s: seq<u64> | |s| == MAXIMUM_SHARDS witness seq(MAXIMUM_SHARDS, _ => 0)

  /** Parser-owned committed prefix; a zero safe time authorises nothing. */
  datatype Progress = Progress(
    producerEpoch: u64, safeMonotonicNs: u64, lossEpoch: u64, directoryRevision: u64,
    shardSequences: ShardSequences, shardCount: u16)

  /** One durable commit. */
  datatype Cut = Cut(
    generation: nat, committedMonotonicNs: nat, progress: Progress, manifest: Manifest,
    sources: seq<Source>, gaps: seq<Gap>, blocks: seq<BlockRange>, referencePayload: seq<u8>, finalized: bool)

  /** The clauses every consumer of a gap checks; `sources` and `shards` bound its references. */
  predicate ValidGap(g: Gap, sources: nat, shards: nat) {
    && 0 < g.sourceId <= sources && g.sourceGeneration != 0
    && g.gapEpoch != 0 && g.droppedRecords != 0 && g.gapEpoch == g.droppedRecords
    && g.firstDroppedEventSequence != 0 && g.lastDroppedEventSequence != 0
    && g.observedReceiveNs > 0
    && (|| (g.minimumDroppedReceiveNs > 0 && g.maximumDroppedReceiveNs >= g.minimumDroppedReceiveNs)
        || (g.minimumDroppedReceiveNs == 0 && g.maximumDroppedReceiveNs == 0))
    && g.shardIndex < shards && g.reserved == 0
  }

  predicate SameCell(a: Gap, b: Gap) { a.sourceId == b.sourceId && a.channel == b.channel }

  predicate UniqueCells(gs: seq<Gap>) {
    forall i, j :: 0 <= i < j < |gs| ==> !SameCell(gs[i], gs[j])
  }

  /** Position of a gap's cell in the per-source, per-channel table. */
  function CellOf(g: Gap): int { (g.sourceId - 1) * STORED_CHANNELS + ChannelIndex(g.channel) }

  lemma {:induction false} CellInjective(a: Gap, b: Gap)
    requires CellOf(a) == CellOf(b)
    ensures SameCell(a, b)
  {
  }

  // --- Fixed-size layouts -------------------------------------------------------------------------

  datatype CutHeader = CutHeader(
    magic: nat, bytes: nat, generation: nat, committedMonotonicNs: nat, progress: Progress, manifest: Manifest,
    sources: nat, gaps: nat, blocks: nat, referenceBytes: nat, crc: u32, headerCrc: u32, sourcesCrc: u32,
    finalized: nat, reserved: nat)

  /** How the compiler lays the structs out in bytes; not part of this model beyond its laws. */
  datatype Layout = Layout(
    sourceBytes: Source -> seq<u8>, sourceOf: seq<u8> -> Source,
    gapBytes: Gap -> seq<u8>, gapOf: seq<u8> -> Gap,
    rangeBytes: BlockRange -> seq<u8>, rangeOf: seq<u8> -> BlockRange,
    headerBytes: CutHeader -> seq<u8>, headerOf: seq<u8> -> CutHeader,
    entryBytes: Entry -> seq<u8>, manifestBytes: Manifest -> seq<u8>)

  /** Values packed one after the other. */
  function Pack<T>(bytesOf: T -> seq<u8>, values: seq<T>): seq<u8> {
    if values == [] then [] else bytesOf(values[0]) + Pack(bytesOf, values[1..])
  }
}
