/** The sealed reader decodes the writer's segment files to exactly the rows the writer put in, and
    the segments of a shard, one behind the other, are its stream. */
module SealedSegments {
  import opened Records
  import opened Storage
  import opened Writer
  import opened WriterStore
  import opened ActiveCursor
  import opened LiveReading
  import opened SegmentFiles

  // --- The segments of a shard ----------------------------------------------------------------------

  /** The rows of segments 1 to n that belong to a shard, in the order of their numbers. */
  ghost function Joined(
      c: Codec, bs: seq<BlockRange>, log: seq<seq<u8>>, files: map<nat, SegmentHeader>, shard: nat, n: nat): seq<Record>
    requires |bs| == |log|
    decreases n
  {
    if n == 0 then []
    else Joined(c, bs, log, files, shard, n - 1)
         + (if n in files && files[n].shardIndex == shard then SegmentRows(c, bs, log, n) else [])
  }

  /** Every block lies in a filed segment of its own shard. */
  ghost predicate InFile(bs: seq<BlockRange>, files: map<nat, SegmentHeader>, i: int)
    requires 0 <= i < |bs|
  {
    bs[i].segmentNumber in files && files[bs[i].segmentNumber].shardIndex == bs[i].shardIndex
  }

  ghost predicate AllFiled(bs: seq<BlockRange>, files: map<nat, SegmentHeader>) {
    forall i {:trigger InFile(bs, files, i)} :: 0 <= i < |bs| ==> InFile(bs, files, i)
  }

  lemma {:induction false} NoBlocks(c: Codec, bs: seq<BlockRange>, log: seq<seq<u8>>, k: nat)
    requires |bs| == |log| && forall i :: 0 <= i < |bs| ==> bs[i].segmentNumber != k
    ensures SegmentRows(c, bs, log, k) == []
    decreases |bs|
  {
    if bs != [] { NoBlocks(c, bs[..|bs| - 1], log[..|bs| - 1], k); }
  }

  /** Segments of a shard behind the one last written hold nothing. */
  lemma {:induction false} LaterEmpty(
      c: Codec, bs: seq<BlockRange>, log: seq<seq<u8>>, files: map<nat, SegmentHeader>, next: nat, j: nat)
    requires |bs| == |log| && bs != [] && BlocksOwned(bs, next) && AllFiled(bs, files)
    requires bs[|bs| - 1].segmentNumber < j && j in files && files[j].shardIndex == bs[|bs| - 1].shardIndex
    ensures SegmentRows(c, bs[..|bs| - 1], log[..|bs| - 1], j) == []
  {
    var m := |bs| - 1;
    forall i | 0 <= i < m
      ensures bs[..m][i].segmentNumber != j
    {
      assert Consistent(bs, i, m) && InFile(bs, files, i);
    }
    NoBlocks(c, bs[..m], log[..m], j);
  }

  lemma {:induction false} SegmentStep(c: Codec, bs: seq<BlockRange>, log: seq<seq<u8>>, k: nat)
    requires |bs| == |log| && bs != []
    ensures SegmentRows(c, bs, log, k) == SegmentRows(c, bs[..|bs| - 1], log[..|bs| - 1], k)
              + (if bs[|bs| - 1].segmentNumber == k then Rows(c, bs[|bs| - 1], log[|bs| - 1]) else [])
  {
  }

  /** One more block extends the joined segments of its shard at the end. */
  lemma {:induction false} JoinedStep(
      c: Codec, bs: seq<BlockRange>, log: seq<seq<u8>>, files: map<nat, SegmentHeader>, next: nat, shard: nat, n: nat)
    requires |bs| == |log| && bs != [] && BlocksOwned(bs, next) && AllFiled(bs, files)
    ensures var m := |bs| - 1;
            Joined(c, bs, log, files, shard, n) ==
            Joined(c, bs[..m], log[..m], files, shard, n)
            + (if bs[m].shardIndex == shard && bs[m].segmentNumber <= n then Rows(c, bs[m], log[m]) else [])
    decreases n
  {
    var m := |bs| - 1;
    var k := bs[m].segmentNumber;
    assert Numbered(bs, next, m) && InFile(bs, files, m);
    if n > 0 {
      JoinedStep(c, bs, log, files, next, shard, n - 1);
      SegmentStep(c, bs, log, n);
      if n > k && n in files && files[n].shardIndex == shard == bs[m].shardIndex {
        LaterEmpty(c, bs, log, files, next, n);
        JoinedTail(Joined(c, bs[..m], log[..m], files, shard, n - 1), Rows(c, bs[m], log[m]));
      } else {
        JoinedPart(Joined(c, bs[..m], log[..m], files, shard, n - 1), SegmentRows(c, bs[..m], log[..m], n),
            Rows(c, bs[m], log[m]));
      }
    }
  }

  lemma {:induction false} JoinedTail(a: seq<Record>, rows: seq<Record>)
    ensures (a + rows) + [] == (a + []) + rows
  {
  }

  lemma {:induction false} JoinedPart(a: seq<Record>, b: seq<Record>, rows: seq<Record>)
    ensures a + (b + rows) == (a + b) + rows && (a + []) + b == (a + b) + [] && (a + rows) + [] == (a + []) + rows
    ensures a + [] == a && b + [] == b
  {
  }

  lemma {:induction false} OwnedPrefix(bs: seq<BlockRange>, next: nat, files: map<nat, SegmentHeader>, m: nat)
    requires m <= |bs| && BlocksOwned(bs, next) && AllFiled(bs, files)
    ensures BlocksOwned(bs[..m], next) && AllFiled(bs[..m], files)
  {
    forall i | 0 <= i < m
      ensures Numbered(bs[..m], next, i) && InFile(bs[..m], files, i)
    {
      assert Numbered(bs, next, i) && InFile(bs, files, i);
    }
    var few := bs[..m];
    forall i, j | 0 <= i < j < |few|
      ensures Consistent(few, i, j)
    {
      assert Consistent(bs, i, j);
    }
  }

  lemma {:induction false} NothingJoined(c: Codec, files: map<nat, SegmentHeader>, shard: nat, n: nat)
    ensures Joined(c, [], [], files, shard, n) == []
    decreases n
  {
    if n > 0 { NothingJoined(c, files, shard, n - 1); }
  }

  /** The segments of a shard, one behind the other, are the shard's stream. */
  lemma {:induction false} JoinedIsShard(
      c: Codec, bs: seq<BlockRange>, log: seq<seq<u8>>, files: map<nat, SegmentHeader>, next: nat, shard: nat)
    requires |bs| == |log| && 1 <= next && BlocksOwned(bs, next) && AllFiled(bs, files)
    ensures Joined(c, bs, log, files, shard, next - 1) == ShardRows(c, bs, log, shard)
    decreases |bs|
  {
    if bs == [] {
      NothingJoined(c, files, shard, next - 1);
    } else {
      var m := |bs| - 1;
      OwnedPrefix(bs, next, files, m);
      JoinedIsShard(c, bs[..m], log[..m], files, next, shard);
      JoinedStep(c, bs, log, files, next, shard, next - 1);
      assert Numbered(bs, next, m);
    }
  }

  lemma {:induction false} JoinedPrefix(
      c: Codec, bs: seq<BlockRange>, log: seq<seq<u8>>, files: map<nat, SegmentHeader>, shard: nat, n: nat, m: nat)
    requires |bs| == |log| && n <= m
    ensures Joined(c, bs, log, files, shard, n) <= Joined(c, bs, log, files, shard, m)
    decreases m
  {
    if n < m { JoinedPrefix(c, bs, log, files, shard, n, m - 1); }
  }

  lemma {:induction false} SliceGood(stream: seq<Record>, k: nat, rows: seq<Record>, shard: nat, sources: nat)
    requires RowsGood(stream, shard, sources) && k + |rows| <= |stream| && stream[k..k + |rows|] == rows
    ensures RowsGood(rows, shard, sources)
  {
    SliceSorted(stream, k, rows);
    forall i | 0 <= i < |rows|
      ensures ValidRecord(rows[i]) && rows[i].tailZero && rows[i].shardIndex == shard && rows[i].sourceId <= sources
    {
      assert rows[i] == stream[k + i];
    }
  }

  /** Where segment k stands in its shard's stream. */
  lemma {:induction false} SegmentInStream(
      c: Codec, bs: seq<BlockRange>, log: seq<seq<u8>>, files: map<nat, SegmentHeader>, next: nat,
      k: nat) returns (at: nat)
    requires |bs| == |log| && BlocksOwned(bs, next) && AllFiled(bs, files) && 1 <= k < next && k in files
    ensures at == |Joined(c, bs, log, files, files[k].shardIndex, k - 1)|
    ensures var rows, stream := SegmentRows(c, bs, log, k), ShardRows(c, bs, log, files[k].shardIndex);
            at + |rows| <= |stream| && stream[at..at + |rows|] == rows
  {
    var shard := files[k].shardIndex;
    at := |Joined(c, bs, log, files, shard, k - 1)|;
    JoinedPrefix(c, bs, log, files, shard, k, next - 1);
    JoinedIsShard(c, bs, log, files, next, shard);
    var rows := SegmentRows(c, bs, log, k);
    assert Joined(c, bs, log, files, shard, k)[at..at + |rows|] == rows;
  }

  // --- Reading a segment back -----------------------------------------------------------------------

  /** The reader after the blocks of segment k among the first n. */
  ghost function ReadUpTo(c: Codec, bs: seq<BlockRange>, log: seq<seq<u8>>, k: nat, n: nat): Progressed
    requires |bs| == |log| && n <= |bs|
  {
    var rows := SegmentRows(c, bs[..n], log[..n], k);
    Progressed(rows, StoredOf(bs[..n], k), CountOf(bs[..n], k), c.crcRows(0, rows))
  }

  lemma {:induction false} SegmentRowsPrefix(c: Codec, bs: seq<BlockRange>, log: seq<seq<u8>>, n: nat, k: nat)
    requires |bs| == |log| && n <= |bs|
    ensures SegmentRows(c, bs[..n], log[..n], k) <= SegmentRows(c, bs, log, k)
    ensures CountOf(bs[..n], k) <= CountOf(bs, k) && StoredOf(bs[..n], k) <= StoredOf(bs, k)
    decreases |bs|
  {
    if n == |bs| {
      assert bs[..n] == bs && log[..n] == log;
    } else {
      var m := |bs| - 1;
      SegmentRowsPrefix(c, bs[..m], log[..m], n, k);
      assert bs[..m][..n] == bs[..n] && log[..m][..n] == log[..n];
    }
  }

  lemma {:induction false} ReadStep(c: Codec, bs: seq<BlockRange>, log: seq<seq<u8>>, k: nat, n: nat)
    requires Incremental(c) && |bs| == |log| && n < |bs|
    ensures var at, next := ReadUpTo(c, bs, log, k, n), ReadUpTo(c, bs, log, k, n + 1);
            next == if bs[n].segmentNumber != k then at
                    else Progressed(at.rows + Rows(c, bs[n], log[n]), at.bytes + StoredBytes(bs[n]), at.blocks + 1,
                                    c.crcRows(at.crc, Rows(c, bs[n], log[n])))
  {
    assert bs[..n + 1][..n] == bs[..n] && log[..n + 1][..n] == log[..n];
    assert InPieces(c, 0, SegmentRows(c, bs[..n], log[..n], k), Rows(c, bs[n], log[n]));
  }

  /** What the reader needs to know of the segment it reads. */
  ghost predicate SegmentSound(c: Codec, bs: seq<BlockRange>, log: seq<seq<u8>>, f: SegmentFile, k: nat, sources: nat) {
    && LogOk(c, bs, log) && f.body == FileBody(c, bs, log, k)
    && f.header.recordCount == |SegmentRows(c, bs, log, k)| && f.header.blockCount == CountOf(bs, k)
    && f.header.storedBytes == StoredOf(bs, k) && RowsGood(SegmentRows(c, bs, log, k), f.header.shardIndex, sources)
    && f.header.recordsCrc == c.crcRows(0, SegmentRows(c, bs, log, k)) && f.footer == FooterOf(f.header)
    && f.header.firstReceiveNs == FirstReceive(SegmentRows(c, bs, log, k))
    && f.header.lastReceiveNs == LastReceive(SegmentRows(c, bs, log, k))
    && forall i :: 0 <= i < |bs| && bs[i].segmentNumber == k ==> bs[i].shardIndex == f.header.shardIndex
  }

  lemma {:induction false} BlockRowsContinue(
      c: Codec, bs: seq<BlockRange>, log: seq<seq<u8>>, f: SegmentFile, k: nat, sources: nat, n: nat)
    requires Incremental(c) && SegmentSound(c, bs, log, f, k, sources) && n < |bs| && bs[n].segmentNumber == k
    ensures var at, rows := ReadUpTo(c, bs, log, k, n), Rows(c, bs[n], log[n]);
            && RowsContinue(rows, f.header.shardIndex, sources, bs[n].header.channel, LastSequence(at.rows),
                LastTime(at.rows))
            && |at.rows| + |rows| <= f.header.recordCount
            && bs[n].header.firstShardSequence != 0 && bs[n].header.firstShardSequence <= bs[n].header.lastShardSequence
  {
    var all := SegmentRows(c, bs, log, k);
    var before, rows := SegmentRows(c, bs[..n], log[..n], k), Rows(c, bs[n], log[n]);
    assert BlockOk(c, bs[n], log[n]);
    ReadStep(c, bs, log, k, n);
    SegmentRowsPrefix(c, bs, log, n + 1, k);
    assert before + rows <= all;
    assert all[|before|..|before| + |rows|] == rows;
    assert before != [] ==> all[|before| - 1] == before[|before| - 1];
    SliceContinues(all, |before|, rows, f.header.shardIndex, sources, bs[n].header.channel, LastSequence(before),
        LastTime(before));
    assert rows[0] == all[|before|] && rows[|rows| - 1] == all[|before| + |rows| - 1];
  }

  /** The reader finds block n where the writer put it. */
  lemma {:induction false} BlockFound(c: Codec, bs: seq<BlockRange>, log: seq<seq<u8>>, k: nat, n: nat)
    requires FixedHeaders(c) && LogOk(c, bs, log) && n < |bs| && bs[n].segmentNumber == k
    ensures var at := StoredOf(bs[..n], k);
            var body := FileBody(c, bs, log, k);
            && at + BLOCK_HEADER_BYTES + |log[n]| <= |body|
            && c.headerOf(body[at..at + BLOCK_HEADER_BYTES]) == bs[n].header
            && body[at + BLOCK_HEADER_BYTES..at + BLOCK_HEADER_BYTES + |log[n]|] == log[n]
            && bs[n].header.encodedBytes == |log[n]| && bs[n].header.blockNumber == CountOf(bs[..n], k) + 1
  {
    ArchiveRead(c, bs, log, n);
    assert PlacedAt(bs, n) && BlockOk(c, bs[n], log[n]) && HeaderSurvives(c, bs[n].header);
  }

  lemma {:induction false} ReadBlockTrue(
      c: Codec, bs: seq<BlockRange>, log: seq<seq<u8>>, f: SegmentFile, k: nat, sources: nat, n: nat)
    requires Lawful(c) && SegmentSound(c, bs, log, f, k, sources) && n < |bs| && bs[n].segmentNumber == k
    ensures ReadBlock(c, f, sources, ReadUpTo(c, bs, log, k, n)) == Some(ReadUpTo(c, bs, log, k, n + 1))
  {
    BlockFound(c, bs, log, k, n);
    BlockRowsContinue(c, bs, log, f, k, sources, n);
    ReadStep(c, bs, log, k, n);
    assert BlockOk(c, bs[n], log[n]);
  }

  lemma {:induction false} ReadRestTrue(
      c: Codec, bs: seq<BlockRange>, log: seq<seq<u8>>, f: SegmentFile, k: nat, sources: nat, n: nat)
    requires Lawful(c) && SegmentSound(c, bs, log, f, k, sources) && n <= |bs|
    ensures ReadRest(c, f, sources, ReadUpTo(c, bs, log, k, n)) == Some(SegmentRows(c, bs, log, k))
    decreases |bs| - n
  {
    if n == |bs| {
      assert bs[..n] == bs && log[..n] == log;
    } else {
      ReadRestTrue(c, bs, log, f, k, sources, n + 1);
      ReadStep(c, bs, log, k, n);
      if bs[n].segmentNumber == k {
        ReadBlockTrue(c, bs, log, f, k, sources, n);
        SegmentRowsPrefix(c, bs, log, n + 1, k);
      }
    }
  }

  /** Decoding a sealed file gives back the rows that were written to it. */
  lemma {:induction false} SegmentReadsBack(
      c: Codec, bs: seq<BlockRange>, log: seq<seq<u8>>, f: SegmentFile, k: nat, sources: nat)
    requires Lawful(c) && SegmentSound(c, bs, log, f, k, sources)
    ensures ReadSegment(c, f, sources) == Some(SegmentRows(c, bs, log, k))
  {
    ReadRestTrue(c, bs, log, f, k, sources, 0);
    assert bs[..0] == [] && log[..0] == [];
    assert InPieces(c, 0, [], []);
  }
}
