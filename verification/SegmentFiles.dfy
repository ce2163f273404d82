/** A sealed segment file as the sealed reader decodes it: header, compressed blocks one behind the
    other, footer (src/Runtime/src/Corpus/BinaryMarketCorpusReader.cpp, SegmentDecoder). */
module SegmentFiles {
  import opened Records
  import opened Storage
  import opened Writer
  import opened WriterStore
  import opened ActiveCursor

  datatype SegmentFooter = SegmentFooter(number: nat, recordCount: nat, recordsCrc: u32, firstReceiveNs: int,
      lastReceiveNs: int)

  /** `body` is what stands between header and footer. */
  datatype SegmentFile = SegmentFile(header: SegmentHeader, body: seq<u8>, footer: SegmentFooter)

  function FooterOf(h: SegmentHeader): SegmentFooter {
    SegmentFooter(h.number, h.recordCount, h.recordsCrc, h.firstReceiveNs, h.lastReceiveNs)
  }

  /** The header promises what the file name, the corpus and the file size say. */
  predicate HeaderOpens(f: SegmentFile, number: nat, shard: nat, epoch: nat) {
    var h := f.header;
    && h.recordCount != 0 && h.blockCount != 0 && h.blockCount <= h.recordCount
    && h.firstReceiveNs > 0 && h.firstReceiveNs <= h.lastReceiveNs
    && h.number == number && h.shardIndex == shard && h.producerEpoch == epoch && h.storedBytes == |f.body|
  }

  /** What has been read of a segment: its rows so far and how many bytes and blocks they took. */
  datatype Progressed = Progressed(rows: seq<Record>, bytes: nat, blocks: nat, crc: u32)

  function LastSequence(rows: seq<Record>): nat { if rows == [] then 0 else rows[|rows| - 1].shardSequence }

  function LastTime(rows: seq<Record>): nat { if rows == [] then 0 else rows[|rows| - 1].receiveMonotonicNs }

  predicate BlockHeaderOk(c: Codec, h: SegmentHeader, b: BlockHeader, at: Progressed, room: nat) {
    && b.blockNumber == at.blocks + 1 && 0 < b.recordCount <= BLOCK_RECORDS
    && b.rawBytes == b.recordCount * RECORD_BYTES
    && 0 < b.encodedBytes <= c.bound(b.channel, b.recordCount)
    && b.firstShardSequence != 0 && b.firstShardSequence <= b.lastShardSequence && b == Sealed(c, b)
    && BLOCK_HEADER_BYTES + b.encodedBytes <= room
    && |at.rows| <= h.recordCount && b.recordCount <= h.recordCount - |at.rows|
  }

  /** The next block of the body, verified row by row. */
  function ReadBlock(c: Codec, f: SegmentFile, sources: nat, at: Progressed): (next: Option<Progressed>)
    ensures next.Some? ==> at.bytes < next.value.bytes <= |f.body|
  {
    if at.bytes + BLOCK_HEADER_BYTES > |f.body| then None
    else
      var body := at.bytes + BLOCK_HEADER_BYTES;
      var b := c.headerOf(f.body[at.bytes..body]);
      if !BlockHeaderOk(c, f.header, b, at, |f.body| - at.bytes) then None
      else
        var payload := f.body[body..body + b.encodedBytes];
        if c.crc(payload) != b.encodedCrc then None
        else
          var rows := c.decode(b.channel, b.recordCount, payload);
          if || rows.None? || |rows.value| != b.recordCount || c.crcRows(0, rows.value) != b.rawCrc
             || rows.value == []
             || rows.value[0].shardSequence != b.firstShardSequence
             || rows.value[|rows.value| - 1].shardSequence != b.lastShardSequence
             || !RowsContinue(rows.value, f.header.shardIndex, sources, b.channel, LastSequence(at.rows),
                 LastTime(at.rows)) then None
          else Some(Progressed(at.rows + rows.value, body + b.encodedBytes, at.blocks + 1,
              c.crcRows(at.crc, rows.value)))
  }

  /** The totals at the end agree with header and footer. */
  predicate FooterOk(f: SegmentFile, at: Progressed) {
    && f.footer == FooterOf(f.header)
    && |at.rows| == f.header.recordCount && at.bytes == f.header.storedBytes && at.crc == f.header.recordsCrc
    && FirstReceive(at.rows) == f.header.firstReceiveNs && LastReceive(at.rows) == f.header.lastReceiveNs
  }

  /** The rest of the segment, from where reading has come to. */
  function ReadRest(c: Codec, f: SegmentFile, sources: nat, at: Progressed): Option<seq<Record>>
    decreases |f.body| - at.bytes
  {
    if at.blocks == f.header.blockCount then (if FooterOk(f, at) then Some(at.rows) else None)
    else
      var next := ReadBlock(c, f, sources, at);
      if next.None? then None else ReadRest(c, f, sources, next.value)
  }

  function ReadSegment(c: Codec, f: SegmentFile, sources: nat): Option<seq<Record>> {
    ReadRest(c, f, sources, Progressed([], 0, 0, 0))
  }

  /** The reader's loop over the blocks of one segment. */
  method DecodeSegment(c: Codec, f: SegmentFile, sources: nat) returns (ok: bool, rows: seq<Record>)
    ensures ok == ReadSegment(c, f, sources).Some?
    ensures ok ==> rows == ReadSegment(c, f, sources).value
  {
    var at := Progressed([], 0, 0, 0);
    while at.blocks != f.header.blockCount
      invariant ReadRest(c, f, sources, at) == ReadSegment(c, f, sources)
      decreases |f.body| - at.bytes
    {
      var next := ReadBlock(c, f, sources, at);
      if next.None? { return false, []; }
      at := next.value;
    }
    return FooterOk(f, at), at.rows;
  }

  // --- The writer's files -------------------------------------------------------------------------

  /** The file the writer leaves behind for sealed segment k. */
  function FileOfSegment(c: Codec, s: State, k: nat): SegmentFile
    requires k in s.files && |s.blocks| == |s.log|
  {
    SegmentFile(s.files[k], FileBody(c, s.blocks, s.log, k), FooterOf(s.files[k]))
  }
}
