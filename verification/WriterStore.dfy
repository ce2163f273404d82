/** What the writer keeps on disk and in its buffers: the block log, the open segments, the sealed
    files, the index and the row stream of every shard agree with one another. */
module WriterStore {
  import opened Records
  import opened Storage
  import opened Formats
  import opened Index
  import opened Publication
  import opened Writer
  import DT = DepthTransaction

  // --- Receive-time bounds of a row sequence ----------------------------------------------------

  function FirstReceive(rows: seq<Record>): int {
    if rows == [] then 0 else MinReceive(FirstReceive(rows[..|rows| - 1]), rows[|rows| - 1])
  }

  function LastReceive(rows: seq<Record>): int {
    if rows == [] then 0 else MaxReceive(LastReceive(rows[..|rows| - 1]), rows[|rows| - 1])
  }

  lemma {:induction false} ReceiveAppend(rows: seq<Record>, r: Record)
    ensures FirstReceive(rows + [r]) == MinReceive(FirstReceive(rows), r)
    ensures LastReceive(rows + [r]) == MaxReceive(LastReceive(rows), r)
  {
    assert (rows + [r])[..|rows + [r]| - 1] == rows;
  }

  lemma {:induction false} ReceiveBounds(rows: seq<Record>)
    requires forall i :: 0 <= i < |rows| ==> rows[i].receiveRealtimeNs > 0
    ensures rows != [] ==> 0 < FirstReceive(rows) <= LastReceive(rows)
    ensures forall i :: 0 <= i < |rows| ==> FirstReceive(rows) <= rows[i].receiveRealtimeNs <= LastReceive(rows)
    decreases |rows|
  {
    if rows != [] {
      var m := |rows| - 1;
      ReceiveBounds(rows[..m]);
      forall i | 0 <= i < |rows|
        ensures FirstReceive(rows) <= rows[i].receiveRealtimeNs <= LastReceive(rows)
      {
        if i < m { assert rows[..m][i] == rows[i]; }
      }
    }
  }

  // --- Segments ---------------------------------------------------------------------------------

  ghost predicate PendingOk(rows: seq<Record>, n: nat) {
    && |rows| <= BLOCK_RECORDS
    && forall i :: 0 <= i < |rows| ==> rows[i].channel == rows[0].channel && rows[i].shardIndex == n
  }

  /** The totals a segment keeps are those of its rows. */
  ghost predicate Describes(c: Codec, rows: seq<Record>, recordCount: nat, crc: u32, first: int, last: int) {
    recordCount == |rows| && crc == c.crcRows(0, rows) && first == FirstReceive(rows) && last == LastReceive(rows)
  }

  ghost predicate SegmentOk(c: Codec, g: Segment, n: nat, bs: seq<BlockRange>, log: seq<seq<u8>>, next: nat)
    requires |bs| == |log|
  {
    if g.open then
      && 1 <= g.number < next
      && PendingOk(g.pending, n)
      && g.storedBytes == StoredOf(bs, g.number) && g.blockCount == CountOf(bs, g.number) <= U32_MAX
      && g.projectedBytes == SEGMENT_FRAME + g.storedBytes + |g.pending| * PendingRecordBytes(c)
      && Describes(c, SegmentRows(c, bs, log, g.number) + g.pending, g.recordCount, g.recordsCrc, g.firstReceiveNs,
          g.lastReceiveNs)
    else g.pending == [] && g.positions == map[]
  }

  ghost predicate Numbered(bs: seq<BlockRange>, next: nat, i: int)
    requires 0 <= i < |bs|
  {
    1 <= bs[i].segmentNumber < next
  }

  /** Two blocks of one segment are of one shard, and a shard's segment numbers only grow. */
  ghost predicate Consistent(bs: seq<BlockRange>, i: int, j: int)
    requires 0 <= i < |bs| && 0 <= j < |bs|
  {
    && (bs[i].segmentNumber == bs[j].segmentNumber ==> bs[i].shardIndex == bs[j].shardIndex)
    && (bs[i].shardIndex == bs[j].shardIndex ==> bs[i].segmentNumber <= bs[j].segmentNumber)
  }

  ghost predicate BlocksOwned(bs: seq<BlockRange>, next: nat) {
    && (forall i {:trigger Numbered(bs, next, i)} :: 0 <= i < |bs| ==> Numbered(bs, next, i))
    && (forall i, j {:trigger Consistent(bs, i, j)} :: 0 <= i < j < |bs| ==> Consistent(bs, i, j))
  }

  ghost predicate Apart(gs: seq<Segment>, n: int, m: int)
    requires 0 <= n < |gs| && 0 <= m < |gs|
  {
    gs[n].open && gs[m].open ==> gs[n].number != gs[m].number
  }

  /** A block of an open segment is of its shard; an earlier block of the shard is of an earlier segment. */
  ghost predicate Owns(gs: seq<Segment>, bs: seq<BlockRange>, n: int, i: int)
    requires 0 <= n < |gs| && 0 <= i < |bs|
  {
    gs[n].open ==>
      && (bs[i].segmentNumber == gs[n].number ==> bs[i].shardIndex == n)
      && (bs[i].shardIndex == n ==> bs[i].segmentNumber <= gs[n].number)
  }

  ghost predicate OpenOwns(gs: seq<Segment>, bs: seq<BlockRange>) {
    && (forall n, m {:trigger Apart(gs, n, m)} :: 0 <= n < |gs| && 0 <= m < |gs| && n != m ==> Apart(gs, n, m))
    && (forall n, i {:trigger Owns(gs, bs, n, i)} :: 0 <= n < |gs| && 0 <= i < |bs| ==> Owns(gs, bs, n, i))
  }

  ghost predicate FileOk(c: Codec, h: SegmentHeader, k: nat, epoch: nat, bs: seq<BlockRange>, log: seq<seq<u8>>)
    requires |bs| == |log|
  {
    && h.number == k && h.producerEpoch == epoch
    && h.blockCount == CountOf(bs, k) && h.storedBytes == StoredOf(bs, k)
    && SegmentRows(c, bs, log, k) != []
    && Describes(c, SegmentRows(c, bs, log, k), h.recordCount, h.recordsCrc, h.firstReceiveNs, h.lastReceiveNs)
    && forall i :: 0 <= i < |bs| && bs[i].segmentNumber == k ==> bs[i].shardIndex == h.shardIndex
  }

  ghost predicate OpenAt(gs: seq<Segment>, n: int, k: nat) { 0 <= n < |gs| && gs[n].open && gs[n].number == k }

  ghost predicate IsOpen(gs: seq<Segment>, k: nat) { exists n :: OpenAt(gs, n, k) }

  ghost predicate Filed(
      c: Codec, files: map<nat, SegmentHeader>, epoch: nat, gs: seq<Segment>, bs: seq<BlockRange>, log: seq<seq<u8>>,
      next: nat, k: nat)
    requires |bs| == |log|
  {
    k in files ==>
        1 <= k < next && !IsOpen(gs, k) && files[k].shardIndex < |gs| && FileOk(c, files[k], k, epoch, bs, log)
  }

  ghost predicate Accounted(files: map<nat, SegmentHeader>, gs: seq<Segment>, next: nat, k: nat) {
    1 <= k < next ==> k in files || IsOpen(gs, k)
  }

  /** Every segment number ever given out names an open segment or a sealed file, never both. */
  ghost predicate FilesOk(
      c: Codec, files: map<nat, SegmentHeader>, epoch: nat, gs: seq<Segment>, bs: seq<BlockRange>, log: seq<seq<u8>>,
      next: nat)
    requires |bs| == |log|
  {
    && (forall k {:trigger Filed(c, files, epoch, gs, bs, log, next, k)} ::
         Filed(c, files, epoch, gs, bs, log, next, k))
    && (forall k {:trigger Accounted(files, gs, next, k)} :: Accounted(files, gs, next, k))
  }

  // --- Index ------------------------------------------------------------------------------------

  /** The positions of an open segment are exactly its entries in the table. */
  ghost predicate PositionsOk(g: Segment, index: seq<Entry>) {
    && (forall key :: key in g.positions ==>
          && g.positions[key] < |index|
          && index[g.positions[key]].segmentNumber == g.number && index[g.positions[key]].key == key)
    && (forall i :: 0 <= i < |index| && index[i].segmentNumber == g.number ==>
          index[i].key in g.positions && g.positions[index[i].key] == i)
  }

  ghost predicate SegmentIndexed(
      c: Codec, g: Segment, n: nat, index: seq<Entry>, bs: seq<BlockRange>, log: seq<seq<u8>>)
    requires |bs| == |log|
  {
    g.open ==>
      && PositionsOk(g, index)
      && EntriesOf(index, g.number) == Recompute(g.number, n, SegmentRows(c, bs, log, g.number) + g.pending)
  }

  ghost predicate FileIndexed(
      c: Codec, files: map<nat, SegmentHeader>, index: seq<Entry>, bs: seq<BlockRange>, log: seq<seq<u8>>, k: nat)
    requires |bs| == |log|
  {
    k in files ==> EntriesOf(index, k) == Recompute(k, files[k].shardIndex, SegmentRows(c, bs, log, k))
  }

  ghost predicate EntryNumbered(index: seq<Entry>, next: nat, i: int)
    requires 0 <= i < |index|
  {
    1 <= index[i].segmentNumber < next
  }

  ghost predicate IndexOk(c: Codec, s: State)
    requires |s.blocks| == |s.log|
  {
    && (forall i {:trigger EntryNumbered(s.index, s.nextSegmentNumber, i)} :: 0 <= i < |s.index| ==>
         EntryNumbered(s.index, s.nextSegmentNumber, i))
    && (forall n {:trigger SegmentIndexed(c, s.segments[n], n, s.index, s.blocks, s.log)} ::
          0 <= n < |s.segments| ==> SegmentIndexed(c, s.segments[n], n, s.index, s.blocks, s.log))
    && (forall k {:trigger FileIndexed(c, s.files, s.index, s.blocks, s.log, k)} ::
         FileIndexed(c, s.files, s.index, s.blocks, s.log, k))
  }

  // --- Streams ----------------------------------------------------------------------------------

  /** Every row ever accepted on shard n, in order. */
  ghost function Stream(c: Codec, s: State, n: nat): seq<Record>
    requires |s.blocks| == |s.log| && n < |s.segments|
  {
    ShardRows(c, s.blocks, s.log, n) + s.segments[n].pending
  }

  ghost predicate StreamOk(rows: seq<Record>, n: nat, sources: nat, g: Segment, t: DT.Transaction) {
    && DT.Sorted(rows)
    && (forall i :: 0 <= i < |rows| ==>
          ValidRecord(rows[i]) && rows[i].tailZero && rows[i].shardIndex == n && rows[i].sourceId <= sources)
    && DT.Replay(rows) == Some(t)
    && g.previousSequence == (if rows == [] then 0 else rows[|rows| - 1].shardSequence)
    && g.previousMonotonicNs == (if rows == [] then 0 else rows[|rows| - 1].receiveMonotonicNs)
  }

  ghost predicate StreamAt(c: Codec, s: State, n: int)
    requires |s.blocks| == |s.log| && |s.depth| == |s.segments| && 0 <= n < |s.segments|
  {
    StreamOk(Stream(c, s, n), n, |s.sources|, s.segments[n], s.depth[n])
  }

  ghost predicate SegmentAt(c: Codec, s: State, n: int)
    requires |s.blocks| == |s.log| && 0 <= n < |s.segments|
  {
    SegmentOk(c, s.segments[n], n, s.blocks, s.log, s.nextSegmentNumber)
  }

  // --- All of it --------------------------------------------------------------------------------

  ghost predicate StoreOk(c: Codec, s: State) {
    && Shape(s) && 1 <= s.nextSegmentNumber && |s.segments| <= MAXIMUM_SHARDS
    && LogOk(c, s.blocks, s.log)
    && (forall n {:trigger SegmentAt(c, s, n)} :: 0 <= n < |s.segments| ==> SegmentAt(c, s, n))
    && BlocksOwned(s.blocks, s.nextSegmentNumber)
    && OpenOwns(s.segments, s.blocks)
    && FilesOk(c, s.files, s.config.producerEpoch, s.segments, s.blocks, s.log, s.nextSegmentNumber)
    && IndexOk(c, s)
    && (forall n {:trigger StreamAt(c, s, n)} :: 0 <= n < |s.segments| ==> StreamAt(c, s, n))
    && Faithful(s.blocks, s.log, s.cache)
  }

  /** Between rows no open segment is empty. */
  ghost predicate Occupied(s: State) {
    forall n :: 0 <= n < |s.segments| && s.segments[n].open ==> s.segments[n].recordCount > 0
  }

  lemma {:induction false} StorePositioned(c: Codec, s: State)
    requires StoreOk(c, s)
    ensures Positioned(s)
  {
    forall n, key | 0 <= n < |s.segments| && key in s.segments[n].positions
      ensures s.segments[n].positions[key] < |s.index|
    {
      assert SegmentAt(c, s, n);
      assert SegmentIndexed(c, s.segments[n], n, s.index, s.blocks, s.log);
    }
  }
}
