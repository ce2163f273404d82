/** Compressed blocks, the segment files they are appended to, and the laws the block codec,
    the checksum and the fixed-size header layout are assumed to obey. */
module Storage {
  import opened Records

  const BLOCK_RECORDS: nat := 256
  const BLOCK_HEADER_BYTES: nat := 64
  const SEGMENT_HEADER_BYTES: nat := 128
  const SEGMENT_FOOTER_BYTES: nat := 64
  const RECORD_BYTES: nat := 1024

  datatype BlockHeader = BlockHeader(
    blockNumber: nat, recordCount: nat, rawBytes: nat, encodedBytes: nat, rawCrc: u32, encodedCrc: u32,
    firstShardSequence: u64, lastShardSequence: u64, headerCrc: u32, channel: Channel)

  /** The immutable reference to one stored block that every later cut repeats. */
  datatype BlockRange = BlockRange(
    offset: nat, firstMonotonicNs: u64, lastMonotonicNs: u64, segmentNumber: nat, shardIndex: u16,
    header: BlockHeader)

  /** Values a 64-byte block header can hold. */
  predicate FitsHeader(h: BlockHeader) {
    h.blockNumber <= U32_MAX && h.recordCount <= U32_MAX && h.rawBytes <= U32_MAX && h.encodedBytes <= U32_MAX
  }

  /** Compressor, checksum and header layout, none of which is part of this model. */
  datatype Codec = Codec(
    encode: (Channel, seq<Record>) -> Option<seq<u8>>,
    decode: (Channel, nat, seq<u8>) -> Option<seq<Record>>,
    bound: (Channel, nat) -> nat,
    crc: seq<u8> -> u32,
    crcRows: (u32, seq<Record>) -> u32,
    headerBytes: BlockHeader -> seq<u8>,
    headerOf: seq<u8> -> BlockHeader)

  ghost predicate RoundTrips(c: Codec, ch: Channel, rs: seq<Record>) {
    1 <= |rs| <= BLOCK_RECORDS && c.encode(ch, rs).Some? ==>
      && c.decode(ch, |rs|, c.encode(ch, rs).value) == Some(rs)
      && |c.encode(ch, rs).value| <= c.bound(ch, |rs|) <= U32_MAX
  }

  /** Decoding undoes encoding, within the declared bound. */
  ghost predicate Lossless(c: Codec) {
    forall ch: Channel, rs: seq<Record> {:trigger RoundTrips(c, ch, rs)} :: RoundTrips(c, ch, rs)
  }

  ghost predicate InPieces(c: Codec, k: u32, a: seq<Record>, b: seq<Record>) {
    c.crcRows(c.crcRows(k, a), b) == c.crcRows(k, a + b) && c.crcRows(k, []) == k
  }

  /** The row checksum may be taken in pieces. */
  ghost predicate Incremental(c: Codec) {
    forall k: u32, a: seq<Record>, b: seq<Record> {:trigger InPieces(c, k, a, b)} :: InPieces(c, k, a, b)
  }

  ghost predicate HeaderSurvives(c: Codec, h: BlockHeader) {
    FitsHeader(h) ==> |c.headerBytes(h)| == BLOCK_HEADER_BYTES && c.headerOf(c.headerBytes(h)) == h
  }

  /** A header survives its 64 bytes. */
  ghost predicate FixedHeaders(c: Codec) {
    forall h: BlockHeader {:trigger HeaderSurvives(c, h)} :: HeaderSurvives(c, h)
  }

  ghost predicate Lawful(c: Codec) { Lossless(c) && Incremental(c) && FixedHeaders(c) }

  /** What one pending row reserves: the block it may have to itself. */
  function PendingRecordBytes(c: Codec): nat { BLOCK_HEADER_BYTES + c.bound(Depth, 1) }

  function Sealed(c: Codec, h: BlockHeader): BlockHeader {
    h.(headerCrc := c.crc(c.headerBytes(h.(headerCrc := 0))))
  }

  /** The rows a stored block decodes to. */
  function Rows(c: Codec, b: BlockRange, bytes: seq<u8>): seq<Record> {
    match c.decode(b.header.channel, b.header.recordCount, bytes)
    case Some(rows) => rows
    case None => []
  }

  ghost predicate RowsMatch(b: BlockRange, rows: seq<Record>) {
    && 1 <= |rows| <= BLOCK_RECORDS && |rows| == b.header.recordCount
    && (forall i :: 0 <= i < |rows| ==> rows[i].channel == b.header.channel && rows[i].shardIndex == b.shardIndex)
    && b.header.firstShardSequence == rows[0].shardSequence
    && b.header.lastShardSequence == rows[|rows| - 1].shardSequence
    && b.firstMonotonicNs == rows[0].receiveMonotonicNs
    && b.lastMonotonicNs == rows[|rows| - 1].receiveMonotonicNs
  }

  /** A reference that tells the truth about the bytes it names. */
  ghost predicate BlockOk(c: Codec, b: BlockRange, bytes: seq<u8>) {
    && c.decode(b.header.channel, b.header.recordCount, bytes) == Some(Rows(c, b, bytes))
    && RowsMatch(b, Rows(c, b, bytes))
    && b.header.rawBytes == b.header.recordCount * RECORD_BYTES
    && b.header.encodedBytes == |bytes|
    && 0 < |bytes| <= c.bound(b.header.channel, b.header.recordCount)
    && b.header.encodedCrc == c.crc(bytes)
    && b.header.rawCrc == c.crcRows(0, Rows(c, b, bytes))
    && b.header.blockNumber >= 1
    && FitsHeader(b.header)
    && b.header == Sealed(c, b.header)
  }

  function StoredBytes(b: BlockRange): nat { BLOCK_HEADER_BYTES + b.header.encodedBytes }

  // --- Totals and streams over the whole block log, newest block last --------------------------

  function SumStored(bs: seq<BlockRange>): nat {
    if bs == [] then 0 else SumStored(bs[..|bs| - 1]) + StoredBytes(bs[|bs| - 1])
  }

  function SumRecords(bs: seq<BlockRange>): nat {
    if bs == [] then 0 else SumRecords(bs[..|bs| - 1]) + bs[|bs| - 1].header.recordCount
  }

  /** Bytes appended to segment k so far. */
  function StoredOf(bs: seq<BlockRange>, k: nat): nat {
    if bs == [] then 0
    else StoredOf(bs[..|bs| - 1], k) + (if bs[|bs| - 1].segmentNumber == k then StoredBytes(bs[|bs| - 1]) else 0)
  }

  function CountOf(bs: seq<BlockRange>, k: nat): nat {
    if bs == [] then 0
    else CountOf(bs[..|bs| - 1], k) + (if bs[|bs| - 1].segmentNumber == k then 1 else 0)
  }

  function SegmentRows(c: Codec, bs: seq<BlockRange>, log: seq<seq<u8>>, k: nat): seq<Record>
    requires |bs| == |log|
  {
    if bs == [] then []
    else
      var n := |bs| - 1;
      SegmentRows(c, bs[..n], log[..n], k) + (if bs[n].segmentNumber == k then Rows(c, bs[n], log[n]) else [])
  }

  function ShardRows(c: Codec, bs: seq<BlockRange>, log: seq<seq<u8>>, s: nat): seq<Record>
    requires |bs| == |log|
  {
    if bs == [] then []
    else
      var n := |bs| - 1;
      ShardRows(c, bs[..n], log[..n], s) + (if bs[n].shardIndex == s then Rows(c, bs[n], log[n]) else [])
  }

  /** The bytes of segment k between its header and its footer. */
  function FileBody(c: Codec, bs: seq<BlockRange>, log: seq<seq<u8>>, k: nat): seq<u8>
    requires |bs| == |log|
  {
    if bs == [] then []
    else
      var n := |bs| - 1;
      FileBody(c, bs[..n], log[..n], k)
      + (if bs[n].segmentNumber == k then c.headerBytes(bs[n].header) + log[n] else [])
  }

  /** Block i says where in its segment it starts and the how-many-eth of it it is. */
  ghost predicate PlacedAt(bs: seq<BlockRange>, i: int)
    requires 0 <= i < |bs|
  {
    && bs[i].offset == SEGMENT_HEADER_BYTES + StoredOf(bs[..i], bs[i].segmentNumber)
    && bs[i].header.blockNumber == CountOf(bs[..i], bs[i].segmentNumber) + 1
  }

  ghost predicate LogOk(c: Codec, bs: seq<BlockRange>, log: seq<seq<u8>>) {
    && |bs| == |log|
    && (forall i {:trigger BlockOk(c, bs[i], log[i])} :: 0 <= i < |bs| ==> BlockOk(c, bs[i], log[i]))
    && (forall i {:trigger PlacedAt(bs, i)} :: 0 <= i < |bs| ==> PlacedAt(bs, i))
  }

  lemma {:induction false} LogAppend(c: Codec, bs: seq<BlockRange>, log: seq<seq<u8>>, b: BlockRange, bytes: seq<u8>)
    requires LogOk(c, bs, log) && BlockOk(c, b, bytes)
    requires b.offset == SEGMENT_HEADER_BYTES + StoredOf(bs, b.segmentNumber)
    requires b.header.blockNumber == CountOf(bs, b.segmentNumber) + 1
    ensures LogOk(c, bs + [b], log + [bytes])
  {
    var big, bigLog := bs + [b], log + [bytes];
    forall i | 0 <= i < |big|
      ensures PlacedAt(big, i)
    {
      if i < |bs| { assert big[..i] == bs[..i] && PlacedAt(bs, i); } else { assert big[..i] == bs; }
    }
    forall i | 0 <= i < |big|
      ensures BlockOk(c, big[i], bigLog[i])
    {
      if i < |bs| { assert BlockOk(c, bs[i], log[i]); }
    }
  }

  /** Appending one block, seen by every total and stream. */
  lemma {:induction false} Appended(c: Codec, bs: seq<BlockRange>, log: seq<seq<u8>>, b: BlockRange, bytes: seq<u8>)
    requires |bs| == |log|
    ensures SumStored(bs + [b]) == SumStored(bs) + StoredBytes(b)
    ensures SumRecords(bs + [b]) == SumRecords(bs) + b.header.recordCount
    ensures forall k: nat :: StoredOf(bs + [b], k) == StoredOf(bs, k) + if b.segmentNumber == k then StoredBytes(b)
        else 0
    ensures forall k: nat :: CountOf(bs + [b], k) == CountOf(bs, k) + if b.segmentNumber == k then 1 else 0
    ensures forall k: nat :: SegmentRows(c, bs + [b], log + [bytes], k) ==
              SegmentRows(c, bs, log, k) + if b.segmentNumber == k then Rows(c, b, bytes) else []
    ensures forall s: nat :: ShardRows(c, bs + [b], log + [bytes], s) ==
              ShardRows(c, bs, log, s) + if b.shardIndex == s then Rows(c, b, bytes) else []
  {
    assert (bs + [b])[..|bs + [b]| - 1] == bs;
    assert (log + [bytes])[..|log + [bytes]| - 1] == log;
  }

  // --- Reading a block back from its segment file ---------------------------------------------

  lemma {:induction false} FileBodyLength(c: Codec, bs: seq<BlockRange>, log: seq<seq<u8>>, k: nat)
    requires FixedHeaders(c) && LogOk(c, bs, log)
    ensures |FileBody(c, bs, log, k)| == StoredOf(bs, k)
    decreases |bs|
  {
    if bs != [] {
      var n := |bs| - 1;
      LogPrefix(c, bs, log, n);
      FileBodyLength(c, bs[..n], log[..n], k);
      assert BlockOk(c, bs[n], log[n]) && HeaderSurvives(c, bs[n].header);
    }
  }

  lemma {:induction false} LogPrefix(c: Codec, bs: seq<BlockRange>, log: seq<seq<u8>>, n: nat)
    requires LogOk(c, bs, log) && n <= |bs|
    ensures LogOk(c, bs[..n], log[..n])
  {
    forall i | 0 <= i < n
      ensures PlacedAt(bs[..n], i)
    {
      assert PlacedAt(bs, i) && bs[..n][..i] == bs[..i];
    }
    forall i | 0 <= i < n
      ensures BlockOk(c, bs[..n][i], log[..n][i])
    {
      assert BlockOk(c, bs[i], log[i]);
    }
  }

  /** Header and payload stand one after the other at position `at`. */
  predicate StandsAt(body: seq<u8>, at: nat, header: seq<u8>, payload: seq<u8>) {
    && at + |header| + |payload| <= |body|
    && body[at..at + |header|] == header
    && body[at + |header|..at + |header| + |payload|] == payload
  }

  lemma {:induction false} StandsAppended(body: seq<u8>, header: seq<u8>, payload: seq<u8>)
    ensures StandsAt(body + (header + payload), |body|, header, payload)
  {
  }

  lemma {:induction false} StandsStill(body: seq<u8>, at: nat, header: seq<u8>, payload: seq<u8>, more: seq<u8>)
    requires StandsAt(body, at, header, payload)
    ensures StandsAt(body + more, at, header, payload)
  {
    var big := body + more;
    assert big[at..at + |header|] == body[at..at + |header|];
    assert big[at + |header|..at + |header| + |payload|] == body[at + |header|..at + |header| + |payload|];
  }

  /** Whatever was appended since, the archive still holds block i's header and payload at its
      recorded offset. */
  lemma {:induction false} ArchiveRead(c: Codec, bs: seq<BlockRange>, log: seq<seq<u8>>, i: nat)
    requires FixedHeaders(c) && LogOk(c, bs, log) && i < |bs|
    ensures bs[i].offset >= SEGMENT_HEADER_BYTES
    ensures StandsAt(FileBody(c, bs, log, bs[i].segmentNumber), bs[i].offset - SEGMENT_HEADER_BYTES,
                     c.headerBytes(bs[i].header), log[i])
    decreases |bs|
  {
    var n := |bs| - 1;
    var k := bs[i].segmentNumber;
    LogPrefix(c, bs, log, n);
    FileBodyLength(c, bs[..n], log[..n], k);
    assert BlockOk(c, bs[i], log[i]) && PlacedAt(bs, i) && HeaderSurvives(c, bs[i].header);
    var earlier := FileBody(c, bs[..n], log[..n], k);
    if i < n {
      ArchiveRead(c, bs[..n], log[..n], i);
      StandsStill(earlier, bs[i].offset - SEGMENT_HEADER_BYTES, c.headerBytes(bs[i].header), log[i],
                  if bs[n].segmentNumber == k then c.headerBytes(bs[n].header) + log[n] else []);
    } else {
      StandsAppended(earlier, c.headerBytes(bs[i].header), log[i]);
    }
  }
}
