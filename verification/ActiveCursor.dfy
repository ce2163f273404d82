/** The live cursor: it adopts published cuts and emits the rows behind their watermark in merge
    order (src/Runtime/src/Corpus/CorpusCut.cpp, refresh and next).  These functions say what the
    class in module CursorObject computes. */
module ActiveCursor {
  import opened Records
  import opened Storage
  import opened Formats
  import opened Publication
  import opened Merge
  import opened Continuity
  import opened CutFile
  import DT = DepthTransaction

  /** One shard's read position: the next block to look at and the rows decoded from the last one. */
  datatype Head = Head(
    block: nat, position: nat, decoded: seq<Record>, previousSequence: nat, previousTime: nat, ready: bool,
    transaction: DT.Transaction)

  const FRESH_HEAD: Head := Head(0, 0, [], 0, 0, false, DT.Idle)

  datatype Cursor = Cursor(
    begin: u64, maximumResidentBytes: nat, cut: Option<Cut>, heads: seq<Head>,
    archive: bool, failed: bool, feedDetached: bool, caughtUp: bool)

  function Opened(begin: u64, maximumResidentBytes: nat): Cursor {
    Cursor(begin, maximumResidentBytes, None, [], false, false, false, false)
  }

  // --- Where the compressed bytes come from -------------------------------------------------------

  datatype Feed = Refused(status: Status) | Lagging | Served(bytes: seq<u8>)

  /** What a cursor can reach while it looks for blocks: the shared cache, the feed for the adopted
      cut by block index, and the segment files by segment number. */
  datatype World = World(cache: Option<seq<Cached>>, feed: Option<nat -> Feed>, files: map<nat, seq<u8>>)

  datatype Loaded = Bytes(bytes: seq<u8>, detached: bool, archive: bool) | Lost(status: Status)

  function ReadArchive(c: Codec, w: World, b: BlockRange): Loaded {
    if b.segmentNumber !in w.files then Lost(IoError)
    else
      var file := w.files[b.segmentNumber];
      var body := b.offset + BLOCK_HEADER_BYTES;
      if body + b.header.encodedBytes > |file| || file[b.offset..body] != c.headerBytes(b.header) then Lost(IoError)
      else Bytes(file[body..body + b.header.encodedBytes], false, true)
  }

  function FromFeed(c: Codec, b: BlockRange, bytes: seq<u8>): Loaded {
    if |bytes| != BLOCK_HEADER_BYTES + b.header.encodedBytes ||
        bytes[..BLOCK_HEADER_BYTES] != c.headerBytes(b.header) then
      Lost(CorruptData)
    else Bytes(bytes[BLOCK_HEADER_BYTES..], false, false)
  }

  /** The cache first, then an attached feed, then the archive for good. */
  function LoadEncoded(c: Codec, w: World, b: BlockRange, index: nat, detached: bool): Loaded {
    if w.cache.Some? && Load(w.cache.value, b).Some? then Bytes(Load(w.cache.value, b).value, detached, false)
    else if w.feed.Some? && !detached then
      match w.feed.value(index)
      case Refused(status) => Lost(status)
      case Lagging => (match ReadArchive(c, w, b) case Bytes(bytes, _, _) => Bytes(bytes, true, true) case lost => lost)
      case Served(bytes) => FromFeed(c, b, bytes)
    else
      match ReadArchive(c, w, b) case Bytes(bytes, _, _) => Bytes(bytes, detached, true) case lost => lost
  }

  // --- Decoding a block -----------------------------------------------------------------------------

  predicate BlockReadable(c: Codec, b: BlockRange) {
    && b.segmentNumber != 0 && b.offset >= SEGMENT_HEADER_BYTES
    && 0 < b.header.recordCount <= BLOCK_RECORDS && b.header.rawBytes == b.header.recordCount * RECORD_BYTES
    && 0 < b.header.encodedBytes <= c.bound(b.header.channel, b.header.recordCount)
    && b.header.encodedBytes <= c.bound(Depth, BLOCK_RECORDS)
    && b.header == Sealed(c, b.header)
  }

  /** Row n of a block continues its shard behind the row with the given sequence and time. */
  predicate RowContinues(r: Record, shard: nat, sources: nat, channel: Channel, sequence: nat, time: nat) {
    && ValidRecord(r) && r.tailZero && r.shardIndex == shard && r.sourceId <= sources && r.channel == channel
    && (sequence != 0 ==> r.shardSequence > sequence) && (time != 0 ==> r.receiveMonotonicNs >= time)
  }

  predicate RowsContinue(rows: seq<Record>, shard: nat, sources: nat, channel: Channel, sequence: nat, time: nat)
    decreases |rows|
  {
    rows == []
    || (&& RowContinues(rows[0], shard, sources, channel, sequence, time)
        && RowsContinue(rows[1..], shard, sources, channel, rows[0].shardSequence, rows[0].receiveMonotonicNs))
  }

  predicate RangeMatches(b: BlockRange, rows: seq<Record>)
    requires rows != []
  {
    && rows[0].shardSequence == b.header.firstShardSequence
    && rows[|rows| - 1].shardSequence == b.header.lastShardSequence
    && rows[0].receiveMonotonicNs == b.firstMonotonicNs && rows[|rows| - 1].receiveMonotonicNs == b.lastMonotonicNs
  }

  /** The verified rows of a block, or None for a mismatch. */
  function DecodeRows(
      c: Codec, b: BlockRange, bytes: seq<u8>, shard: nat, sources: nat, head: Head): Option<seq<Record>> {
    if c.crc(bytes) != b.header.encodedCrc then None
    else
      var rows := c.decode(b.header.channel, b.header.recordCount, bytes);
      if rows.None? || |rows.value| != b.header.recordCount || c.crcRows(0, rows.value) != b.header.rawCrc then None
      else if !RowsContinue(rows.value, shard, sources, b.header.channel, head.previousSequence, head.previousTime) then
        None
      else if rows.value == [] || !RangeMatches(b, rows.value) then None
      else rows
  }

  /** Where the rows at or after `begin` start. */
  function Skip(rows: seq<Record>, begin: nat, n: nat): (k: nat)
    requires n <= |rows|
    ensures n <= k <= |rows|
    decreases |rows| - n
  {
    if n < |rows| && rows[n].receiveMonotonicNs < begin then Skip(rows, begin, n + 1) else n
  }

  function NextBlock(bs: seq<BlockRange>, from: nat, shard: nat): (k: nat)
    requires from <= |bs|
    ensures from <= k <= |bs| && (k < |bs| ==> bs[k].shardIndex == shard)
    ensures forall i :: from <= i < k ==> bs[i].shardIndex != shard
    decreases |bs| - from
  {
    if from < |bs| && bs[from].shardIndex != shard then NextBlock(bs, from + 1, shard) else from
  }

  datatype Filled = Filled(head: Head, detached: bool, archive: bool) | FillFailed(status: Status)

  /** Bring shard `shard` to its next row, decoding as many blocks as that takes. */
  function Fill(
      c: Codec, w: World, cut: Cut, begin: nat, shard: nat, head: Head, detached: bool, archive: bool): (f: Filled)
    ensures f.Filled? ==> (f.head.ready ==> head.ready || f.head.position < |f.head.decoded|)
    decreases if head.block <= |cut.blocks| then |cut.blocks| - head.block else 0
  {
    if head.ready then Filled(head, detached, archive)
    else if head.position < |head.decoded| then Filled(head.(ready := true), detached, archive)
    else if head.block > |cut.blocks| then Filled(head, detached, archive)
    else
      var k := NextBlock(cut.blocks, head.block, shard);
      if k == |cut.blocks| then Filled(head.(block := k), detached, archive)
      else
        var b := cut.blocks[k];
        if !BlockReadable(c, b) then FillFailed(CorruptData)
        else
          match LoadEncoded(c, w, b, k, detached)
          case Lost(status) => FillFailed(status)
          case Bytes(bytes, nowDetached, fromArchive) =>
            var rows := DecodeRows(c, b, bytes, shard, |cut.sources|, head);
            if rows.None? then FillFailed(CorruptData)
            else Fill(c, w, cut, begin, shard, Advanced(head, k, rows.value, begin), nowDetached, archive ||
                fromArchive)
  }

  /** The head behind a newly decoded block. */
  function Advanced(head: Head, k: nat, rows: seq<Record>, begin: nat): Head {
    head.(block := k + 1, position := Skip(rows, begin, 0), decoded := rows, ready := false,
          previousSequence := if rows == [] then head.previousSequence else rows[|rows| - 1].shardSequence,
          previousTime := if rows == [] then head.previousTime else rows[|rows| - 1].receiveMonotonicNs)
  }

  datatype FilledAll = FilledAll(heads: seq<Head>, detached: bool, archive: bool) | AllFailed(status: Status)

  function FillAll(
      c: Codec, w: World, cut: Cut, begin: nat, heads: seq<Head>, k: nat, detached: bool, archive: bool): (f: FilledAll)
    requires k <= |heads|
    ensures f.FilledAll? ==> |f.heads| == |heads|
    ensures f.FilledAll? ==> forall n :: k <= n < |heads| ==> f.heads[n] == heads[n]
    decreases k
  {
    if k == 0 then FilledAll(heads, detached, archive)
    else
      match FillAll(c, w, cut, begin, heads, k - 1, detached, archive)
      case AllFailed(status) => AllFailed(status)
      case FilledAll(hs, d, a) =>
        match Fill(c, w, cut, begin, k - 1, hs[k - 1], d, a)
        case FillFailed(status) => AllFailed(status)
        case Filled(h, d', a') => FilledAll(hs[k - 1 := h], d', a')
  }

  /** A shard's head row counts only when it is ready. */
  predicate HasRow(h: Head) { h.ready && h.position < |h.decoded| }

  function BestHead(heads: seq<Head>, k: nat): (b: nat)
    requires k <= |heads|
    ensures (b < k && HasRow(heads[b])) || b == |heads|
    decreases k
  {
    if k == 0 then |heads|
    else
      var b := BestHead(heads, k - 1);
      var h := heads[k - 1];
      if HasRow(h) && (b == |heads| || Before(h.decoded[h.position], heads[b].decoded[heads[b].position])) then k - 1
      else b
  }

  datatype Emission = Emitted(record: Record) | WouldBlock | End | Failure

  datatype Stepped = Stepped(status: Status, emission: Emission, cursor: Cursor)

  function Fail(cur: Cursor, status: Status): Stepped { Stepped(status, Failure, cur.(failed := true)) }

  predicate BehindWatermark(cut: Cut, r: Record, shard: nat) {
    && cut.progress.safeMonotonicNs != 0 && r.receiveMonotonicNs < cut.progress.safeMonotonicNs
    && (shard < MAXIMUM_SHARDS ==> r.shardSequence <= cut.progress.shardSequences[shard])
  }

  function Next(c: Codec, w: World, cur: Cursor): Stepped {
    if cur.failed || cur.cut.None? then Stepped(InvalidArgument, WouldBlock, cur)
    else
      var cut := cur.cut.value;
      match FillAll(c, w, cut, cur.begin, cur.heads, |cur.heads|, cur.feedDetached, cur.archive)
      case AllFailed(status) => Fail(cur, status)
      case FilledAll(heads, detached, archive) =>
        Pick(cur.(heads := heads, feedDetached := detached, archive := archive), cut)
  }

  /** Emit the smallest ready row if it lies behind the watermark. */
  function Pick(cur: Cursor, cut: Cut): Stepped {
    var heads := cur.heads;
    var best := BestHead(heads, |heads|);
    if best == |heads| then
      if cut.finalized && exists n :: 0 <= n < |heads| && heads[n].transaction.Open? then Fail(cur, CorruptData)
      else Stepped(Ok, if cut.finalized then End else WouldBlock, cur.(caughtUp := true))
    else
      var h := heads[best];
      var r := h.decoded[h.position];
      if !BehindWatermark(cut, r, best) then Stepped(Ok, WouldBlock, cur.(caughtUp := true))
      else
        match DT.Advance(r, h.transaction)
        case None => Fail(cur, CorruptData)
        case Some(t) =>
          var taken := h.(transaction := t, position := h.position + 1, ready := h.position + 1 < |h.decoded|);
          Stepped(Ok, Emitted(r), cur.(heads := heads[best := taken]))
  }

  // --- Adopting a cut -----------------------------------------------------------------------------

  datatype Approval = NoAuthority | Unreachable(status: Status) | Approved(generation: nat)

  /** A cut found by a refresh: through the published pointer (`acknowledged`), or in the cut file,
      possibly witnessed by the sealed manifest (`archived`). */
  datatype Offer = Offer(cut: Cut, acknowledged: bool, archived: bool, approval: Approval)

  function Fixed(c: Codec, shards: nat): nat {
    8 * 1024 * 1024 + shards * BLOCK_RECORDS * RECORD_BYTES + 2 * c.bound(Depth, BLOCK_RECORDS)
  }

  predicate WithinBudget(c: Codec, cut: Cut, maximum: nat) {
    Fixed(c, cut.progress.shardCount) <= maximum && CutBytes(cut) <= (maximum - Fixed(c, cut.progress.shardCount)) / 3
  }

  function Refresh(c: Codec, cur: Cursor, offer: Offer): (Status, Cursor) {
    if cur.failed then (InvalidArgument, cur)
    else if !WithinBudget(c, offer.cut, cur.maximumResidentBytes) then (OutOfRange, cur)
    else if !offer.acknowledged && !offer.archived && offer.approval.NoAuthority? then (InvalidArgument, cur)
    else if !offer.acknowledged && !offer.archived && offer.approval.Unreachable? then (offer.approval.status, cur)
    else if !offer.acknowledged && !offer.archived && offer.cut.generation > offer.approval.generation then
      (if cur.cut.Some? then Ok else Unknown, cur)
    else
      var at := if offer.archived then cur.(feedDetached := true, archive := true) else cur;
      if at.cut.Some? && !Continues(at.cut.value, offer.cut) then (CorruptData, at.(failed := true))
      else (Ok, Adopt(at, offer))
  }

  function Adopt(cur: Cursor, offer: Offer): Cursor {
    var caught := !offer.archived && cur.caughtUp && cur.cut.Some? && offer.cut.generation > cur.cut.value.generation;
    cur.(heads := if cur.heads == [] then seq(offer.cut.progress.shardCount, _ => FRESH_HEAD) else cur.heads,
         feedDetached := if caught then false else cur.feedDetached,
         caughtUp := if caught then false else cur.caughtUp,
         cut := Some(offer.cut))
  }

  // --- What reading leaves alone --------------------------------------------------------------------

  ghost predicate Reads(cur: Cursor, after: Cursor) {
    && after.cut == cur.cut && after.begin == cur.begin && after.maximumResidentBytes == cur.maximumResidentBytes
    && |after.heads| == |cur.heads|
  }

  lemma {:induction false} PickReads(cur: Cursor, cut: Cut)
    ensures Reads(cur, Pick(cur, cut).cursor)
  {
  }

  lemma {:induction false} NextReads(c: Codec, w: World, cur: Cursor)
    ensures Reads(cur, Next(c, w, cur).cursor)
  {
    if !cur.failed && cur.cut.Some? {
      var cut := cur.cut.value;
      var f := FillAll(c, w, cut, cur.begin, cur.heads, |cur.heads|, cur.feedDetached, cur.archive);
      if f.FilledAll? { PickReads(cur.(heads := f.heads, feedDetached := f.detached, archive := f.archive), cut); }
    }
  }
}
