/** The live cursor on the bytes of a run: one call never fails, whichever of cache, feed and archive
    answers, what it emits is the least row left, and a later cut goes on where the last one stood. */
module LiveReading {
  import opened Records
  import opened Storage
  import opened Formats
  import opened Publication
  import opened Merge
  import opened CutFile
  import opened ActiveCursor
  import opened Continuity
  import opened Writer
  import opened WriterStore
  import opened WriterRuns
  import DT = DepthTransaction

  // --- Rows at or after a moment ------------------------------------------------------------------

  function Since(rs: seq<Record>, begin: int): seq<Record>
    decreases |rs|
  {
    if rs == [] then []
    else Since(rs[..|rs| - 1], begin) + (if rs[|rs| - 1].receiveMonotonicNs >= begin then [rs[|rs| - 1]] else [])
  }

  lemma {:induction false} SinceConcat(a: seq<Record>, b: seq<Record>, begin: int)
    ensures Since(a + b, begin) == Since(a, begin) + Since(b, begin)
    decreases |b|
  {
    if b == [] {
      assert a + b == a;
    } else {
      var m := |b| - 1;
      SinceConcat(a, b[..m], begin);
      assert (a + b)[..|a + b| - 1] == a + b[..m];
    }
  }

  /** On an ordered stream this is a suffix. */
  lemma {:induction false} SinceSuffix(rs: seq<Record>, begin: int) returns (k: nat)
    requires DT.Sorted(rs)
    ensures k <= |rs| && Since(rs, begin) == rs[k..]
    ensures forall i :: 0 <= i < k ==> rs[i].receiveMonotonicNs < begin
    ensures forall i :: k <= i < |rs| ==> rs[i].receiveMonotonicNs >= begin
    decreases |rs|
  {
    if rs == [] {
      k := 0;
    } else {
      var m := |rs| - 1;
      var front := rs[..m];
      k := SinceSuffix(front, begin);
      SuffixStep(rs, front, m, begin, k);
      if rs[m].receiveMonotonicNs < begin { k := |rs|; }
    }
  }

  lemma {:induction false} SuffixStep(rs: seq<Record>, front: seq<Record>, m: nat, begin: int, k: nat)
    requires DT.Sorted(rs) && |rs| == m + 1 && front == rs[..m] && k <= m && Since(front, begin) == front[k..]
    requires forall i :: 0 <= i < k ==> front[i].receiveMonotonicNs < begin
    requires forall i :: k <= i < m ==> front[i].receiveMonotonicNs >= begin
    ensures rs[m].receiveMonotonicNs >= begin ==> Since(rs, begin) == rs[k..]
    ensures rs[m].receiveMonotonicNs < begin ==> k == m && Since(rs, begin) == []
  {
    assert k < m ==> front[k] == rs[k];
    if rs[m].receiveMonotonicNs >= begin { assert rs[k..] == front[k..] + [rs[m]]; }
  }

  lemma {:induction false} SkipFinds(rs: seq<Record>, begin: nat, n: nat, k: nat)
    requires n <= k <= |rs|
    requires forall i :: 0 <= i < k ==> rs[i].receiveMonotonicNs < begin
    requires forall i :: k <= i < |rs| ==> rs[i].receiveMonotonicNs >= begin
    ensures Skip(rs, begin, n) == k
    decreases k - n
  {
    if n < k { SkipFinds(rs, begin, n + 1, k); }
  }

  lemma {:induction false} SkipIsSince(rs: seq<Record>, begin: nat)
    requires DT.Sorted(rs)
    ensures rs[Skip(rs, begin, 0)..] == Since(rs, begin)
  {
    var k := SinceSuffix(rs, begin);
    SkipFinds(rs, begin, 0, k);
  }

  // --- What the cursor reads from -------------------------------------------------------------------

  /** The largest block a cursor can buffer is a depth block. */
  ghost predicate DepthWidest(c: Codec) {
    forall ch: Channel, n: nat {:trigger c.bound(ch, n)} :: 1 <= n <= BLOCK_RECORDS ==>
        c.bound(ch, n) <= c.bound(Depth, BLOCK_RECORDS)
  }

  /** Rows of one shard: in order, valid and of that shard. */
  ghost predicate RowsGood(rows: seq<Record>, shard: nat, sources: nat) {
    && DT.Sorted(rows)
    && forall i :: 0 <= i < |rows| ==>
         ValidRecord(rows[i]) && rows[i].tailZero && rows[i].shardIndex == shard && rows[i].sourceId <= sources
  }

  /** All the rows of one shard: they stay within the transaction grammar. */
  ghost predicate ShardGood(rows: seq<Record>, shard: nat, sources: nat) {
    RowsGood(rows, shard, sources) && DT.Replay(rows).Some?
  }

  ghost predicate GoodAt(c: Codec, bs: seq<BlockRange>, log: seq<seq<u8>>, sources: nat, shard: int)
    requires |bs| == |log| && 0 <= shard
  {
    ShardGood(ShardRows(c, bs, log, shard), shard, sources)
  }

  /** A committed block log of `shards` shards. */
  ghost predicate Corpus(c: Codec, bs: seq<BlockRange>, log: seq<seq<u8>>, maximum: nat, shards: nat, sources: nat) {
    && LogOk(c, bs, log)
    && (forall i {:trigger ValidBlock(c, bs[i], maximum, shards)} :: 0 <= i < |bs| ==>
         ValidBlock(c, bs[i], maximum, shards))
    && (forall n {:trigger GoodAt(c, bs, log, sources, n)} :: 0 <= n < shards ==> GoodAt(c, bs, log, sources, n))
  }

  /** The bytes of block b stand at its offset in its segment file. */
  ghost predicate Archived(c: Codec, files: map<nat, seq<u8>>, b: BlockRange, bytes: seq<u8>) {
    && b.segmentNumber in files
    && b.offset + BLOCK_HEADER_BYTES + |bytes| <= |files[b.segmentNumber]|
    && files[b.segmentNumber][b.offset..b.offset + BLOCK_HEADER_BYTES] == c.headerBytes(b.header)
    && files[b.segmentNumber][b.offset + BLOCK_HEADER_BYTES..b.offset + BLOCK_HEADER_BYTES + |bytes|] == bytes
  }

  /** A feed answers for block i with exactly its header and payload, or not at all. */
  ghost predicate FeedTrue(c: Codec, f: nat -> Feed, i: nat, b: BlockRange, bytes: seq<u8>) {
    match f(i)
    case Refused(_) => false
    case Lagging => true
    case Served(served) => served == c.headerBytes(b.header) + bytes
  }

  /** Whatever source answers for block i answers truly, and the archive always can. */
  ghost predicate Reachable(c: Codec, w: World, bs: seq<BlockRange>, log: seq<seq<u8>>, i: int)
    requires |bs| == |log| && 0 <= i < |bs|
  {
    && (w.cache.Some? && Load(w.cache.value, bs[i]).Some? ==> Load(w.cache.value, bs[i]).value == log[i])
    && (w.feed.Some? ==> FeedTrue(c, w.feed.value, i, bs[i], log[i]))
    && Archived(c, w.files, bs[i], log[i])
  }

  ghost predicate WorldOk(c: Codec, w: World, bs: seq<BlockRange>, log: seq<seq<u8>>)
    requires |bs| == |log|
  {
    forall i {:trigger Reachable(c, w, bs, log, i)} :: 0 <= i < |bs| ==> Reachable(c, w, bs, log, i)
  }

  lemma {:induction false} LoadIsTrue(
      c: Codec, w: World, bs: seq<BlockRange>, log: seq<seq<u8>>, i: nat, detached: bool)
    requires FixedHeaders(c) && LogOk(c, bs, log) && WorldOk(c, w, bs, log) && i < |bs|
    ensures LoadEncoded(c, w, bs[i], i, detached).Bytes? && LoadEncoded(c, w, bs[i], i, detached).bytes == log[i]
  {
    assert Reachable(c, w, bs, log, i) && BlockOk(c, bs[i], log[i]) && HeaderSurvives(c, bs[i].header);
    var all := c.headerBytes(bs[i].header) + log[i];
    assert all[..BLOCK_HEADER_BYTES] == c.headerBytes(bs[i].header) && all[BLOCK_HEADER_BYTES..] == log[i];
  }

  // --- Positions --------------------------------------------------------------------------------

  ghost function Read(c: Codec, bs: seq<BlockRange>, log: seq<seq<u8>>, shard: nat, block: nat): seq<Record>
    requires |bs| == |log| && block <= |bs|
  {
    ShardRows(c, bs[..block], log[..block], shard)
  }

  ghost function Tail(h: Head): seq<Record>
    requires h.position <= |h.decoded|
  {
    h.decoded[h.position..]
  }

  /** The last row of a stream, as the cursor remembers it. */
  ghost predicate Remembers(h: Head, read: seq<Record>) {
    && h.previousSequence == (if read == [] then 0 else read[|read| - 1].shardSequence)
    && h.previousTime == (if read == [] then 0 else read[|read| - 1].receiveMonotonicNs)
  }

  /** `done` of the shard's rows since `begin` have been emitted and `Tail` is decoded next. */
  ghost predicate HeadOk(
      c: Codec, bs: seq<BlockRange>, log: seq<seq<u8>>, begin: nat, shard: nat, h: Head, done: seq<Record>)
    requires |bs| == |log|
  {
    && h.block <= |bs| && h.position <= |h.decoded| && (h.ready ==> h.position < |h.decoded|)
    && Since(Read(c, bs, log, shard, h.block), begin) == done + Tail(h)
    && DT.Replay(done) == Some(h.transaction)
    && Remembers(h, Read(c, bs, log, shard, h.block))
  }

  lemma {:induction false} NoRowsBetween(c: Codec, bs: seq<BlockRange>, log: seq<seq<u8>>, shard: nat, a: nat, b: nat)
    requires |bs| == |log| && a <= b <= |bs| && forall i :: a <= i < b ==> bs[i].shardIndex != shard
    ensures Read(c, bs, log, shard, b) == Read(c, bs, log, shard, a)
    decreases b
  {
    if a < b {
      NoRowsBetween(c, bs, log, shard, a, b - 1);
      assert bs[..b][..b - 1] == bs[..b - 1] && log[..b][..b - 1] == log[..b - 1];
    }
  }

  lemma {:induction false} ReadNext(c: Codec, bs: seq<BlockRange>, log: seq<seq<u8>>, shard: nat, k: nat)
    requires |bs| == |log| && k < |bs| && bs[k].shardIndex == shard
    ensures Read(c, bs, log, shard, k + 1) == Read(c, bs, log, shard, k) + Rows(c, bs[k], log[k])
  {
    assert bs[..k + 1][..k] == bs[..k] && log[..k + 1][..k] == log[..k];
  }

  lemma {:induction false} ReadAll(c: Codec, bs: seq<BlockRange>, log: seq<seq<u8>>, shard: nat)
    requires |bs| == |log|
    ensures Read(c, bs, log, shard, |bs|) == ShardRows(c, bs, log, shard)
  {
    assert bs[..|bs|] == bs && log[..|log|] == log;
  }

  /** Rows of an ordered stream continue it, one behind the other. */
  lemma {:induction false} SliceContinues(
      stream: seq<Record>, k: nat, rows: seq<Record>, shard: nat, sources: nat, channel: Channel, sequence: nat,
      time: nat)
    requires RowsGood(stream, shard, sources) && k + |rows| <= |stream| && stream[k..k + |rows|] == rows
    requires forall i :: 0 <= i < |rows| ==> rows[i].channel == channel
    requires sequence == (if k == 0 then 0 else stream[k - 1].shardSequence)
    requires time == (if k == 0 then 0 else stream[k - 1].receiveMonotonicNs)
    ensures RowsContinue(rows, shard, sources, channel, sequence, time)
    decreases |rows|
  {
    if rows != [] {
      assert rows[0] == stream[k];
      assert stream[k + 1..k + 1 + |rows[1..]|] == rows[1..];
      SliceContinues(stream, k + 1, rows[1..], shard, sources, channel, rows[0].shardSequence,
          rows[0].receiveMonotonicNs);
    }
  }

  lemma {:induction false} SliceSorted(stream: seq<Record>, k: nat, rows: seq<Record>)
    requires DT.Sorted(stream) && k + |rows| <= |stream| && stream[k..k + |rows|] == rows
    ensures DT.Sorted(rows)
  {
    forall i, j | 0 <= i < j < |rows|
      ensures rows[i].shardSequence < rows[j].shardSequence && rows[i].receiveMonotonicNs <= rows[j].receiveMonotonicNs
    {
      assert rows[i] == stream[k + i] && rows[j] == stream[k + j];
    }
  }

  /** A block's rows continue the rows read before it. */
  lemma {:induction false} BlockContinues(
      c: Codec, bs: seq<BlockRange>, log: seq<seq<u8>>, sources: nat, k: nat, h: Head)
    requires |bs| == |log| && k < |bs| && GoodAt(c, bs, log, sources, bs[k].shardIndex)
    requires Remembers(h, Read(c, bs, log, bs[k].shardIndex, k)) && RowsMatch(bs[k], Rows(c, bs[k], log[k]))
    ensures RowsContinue(Rows(c, bs[k], log[k]), bs[k].shardIndex, sources, bs[k].header.channel, h.previousSequence,
            h.previousTime)
    ensures DT.Sorted(Rows(c, bs[k], log[k]))
  {
    var shard := bs[k].shardIndex;
    var rows := Rows(c, bs[k], log[k]);
    var stream := ShardRows(c, bs, log, shard);
    var at := BlockInStream(c, bs, log, k);
    var read := Read(c, bs, log, shard, k);
    ShardRowsPrefix(c, bs, log, k, shard);
    assert at > 0 ==> stream[at - 1] == read[at - 1];
    SliceContinues(stream, at, rows, shard, sources, bs[k].header.channel, h.previousSequence, h.previousTime);
    SliceSorted(stream, at, rows);
  }

  lemma {:induction false} BlockDecodes(
      c: Codec, bs: seq<BlockRange>, log: seq<seq<u8>>, maximum: nat, shards: nat, sources: nat, k: nat, h: Head)
    requires Corpus(c, bs, log, maximum, shards, sources) && k < |bs|
    requires Remembers(h, Read(c, bs, log, bs[k].shardIndex, k))
    ensures DecodeRows(c, bs[k], log[k], bs[k].shardIndex, sources, h) == Some(Rows(c, bs[k], log[k]))
    ensures DT.Sorted(Rows(c, bs[k], log[k])) && Rows(c, bs[k], log[k]) != []
  {
    assert BlockOk(c, bs[k], log[k]) && ValidBlock(c, bs[k], maximum, shards);
    assert GoodAt(c, bs, log, sources, bs[k].shardIndex);
    BlockContinues(c, bs, log, sources, k, h);
  }

  // --- Filling ------------------------------------------------------------------------------------

  lemma {:induction false} AdvancedOk(
      c: Codec, bs: seq<BlockRange>, log: seq<seq<u8>>, begin: nat, shard: nat, h: Head, k: nat, done: seq<Record>)
    requires |bs| == |log| && k < |bs| && bs[k].shardIndex == shard && h.block <= k
    requires HeadOk(c, bs, log, begin, shard, h, done) && h.position == |h.decoded|
    requires Read(c, bs, log, shard, k) == Read(c, bs, log, shard, h.block)
    requires DT.Sorted(Rows(c, bs[k], log[k])) && Rows(c, bs[k], log[k]) != []
    ensures HeadOk(c, bs, log, begin, shard, Advanced(h, k, Rows(c, bs[k], log[k]), begin), done)
  {
    var rows := Rows(c, bs[k], log[k]);
    var read := Read(c, bs, log, shard, k);
    ReadNext(c, bs, log, shard, k);
    SinceConcat(read, rows, begin);
    SkipIsSince(rows, begin);
    var h' := Advanced(h, k, rows, begin);
    assert Tail(h) == [] && Tail(h') == Since(rows, begin);
    assert done + Tail(h) == done;
  }

  /** Nothing is left to read, or a row stands ready. */
  ghost predicate Settled(bs: seq<BlockRange>, h: Head) { h.ready || (h.block == |bs| && h.position == |h.decoded|) }

  /** A drained head moves on to its shard's next block. */
  lemma {:induction false} FillMoves(
      c: Codec, w: World, cut: Cut, begin: nat, shard: nat, h: Head, k: nat, bytes: seq<u8>, rows: seq<Record>,
      detached: bool, archive: bool)
    requires !h.ready && h.position == |h.decoded| && h.block <= |cut.blocks|
    requires k == NextBlock(cut.blocks, h.block, shard) < |cut.blocks| && BlockReadable(c, cut.blocks[k])
    requires LoadEncoded(c, w, cut.blocks[k], k, detached).Bytes?
    requires LoadEncoded(c, w, cut.blocks[k], k, detached).bytes == bytes
    requires DecodeRows(c, cut.blocks[k], bytes, shard, |cut.sources|, h) == Some(rows)
    ensures var loaded := LoadEncoded(c, w, cut.blocks[k], k, detached);
            Fill(c, w, cut, begin, shard, h, detached, archive) ==
            Fill(c, w, cut, begin, shard, Advanced(h, k, rows, begin), loaded.detached, archive || loaded.archive)
  {
  }

  lemma {:induction false} BlockIsReadable(
      c: Codec, bs: seq<BlockRange>, log: seq<seq<u8>>, maximum: nat, shards: nat, sources: nat, k: nat)
    requires DepthWidest(c) && Corpus(c, bs, log, maximum, shards, sources) && k < |bs|
    ensures BlockReadable(c, bs[k])
  {
    assert ValidBlock(c, bs[k], maximum, shards);
    assert c.bound(bs[k].header.channel, bs[k].header.recordCount) <= c.bound(Depth, BLOCK_RECORDS);
  }

  /** Filling a head cannot fail on a sound world, and loses and invents nothing. */
  lemma {:induction false} FillOk(
      c: Codec, w: World, cut: Cut, log: seq<seq<u8>>, maximum: nat, shards: nat, begin: nat, shard: nat, h: Head,
      done: seq<Record>, detached: bool, archive: bool)
    requires FixedHeaders(c) && DepthWidest(c) && Corpus(c, cut.blocks, log, maximum, shards, |cut.sources|)
    requires WorldOk(c, w, cut.blocks, log)
    requires shard < shards && HeadOk(c, cut.blocks, log, begin, shard, h, done)
    ensures var f := Fill(c, w, cut, begin, shard, h, detached, archive);
            f.Filled? && HeadOk(c, cut.blocks, log, begin, shard, f.head, done) && Settled(cut.blocks, f.head)
    decreases |cut.blocks| - h.block
  {
    var bs := cut.blocks;
    if !h.ready && h.position == |h.decoded| {
      var k := NextBlock(bs, h.block, shard);
      NoRowsBetween(c, bs, log, shard, h.block, k);
      if k < |bs| {
        var rows := Rows(c, bs[k], log[k]);
        BlockIsReadable(c, bs, log, maximum, shards, |cut.sources|, k);
        LoadIsTrue(c, w, bs, log, k, detached);
        BlockDecodes(c, bs, log, maximum, shards, |cut.sources|, k, h);
        AdvancedOk(c, bs, log, begin, shard, h, k, done);
        FillMoves(c, w, cut, begin, shard, h, k, log[k], rows, detached, archive);
        var loaded := LoadEncoded(c, w, bs[k], k, detached);
        FillOk(c, w, cut, log, maximum, shards, begin, shard, Advanced(h, k, rows, begin), done, loaded.detached,
            archive || loaded.archive);
      }
    }
  }

  // --- The whole cursor ---------------------------------------------------------------------------

  /** A reading in progress: the shard streams of the adopted cut, what of each has been emitted, what
      is left, and everything emitted in order. */
  datatype Reading = Reading(streams: seq<seq<Record>>, done: seq<seq<Record>>, rest: seq<seq<Record>>,
      emitted: seq<Record>)

  ghost predicate StreamIs(
      c: Codec, bs: seq<BlockRange>, log: seq<seq<u8>>, begin: nat, streams: seq<seq<Record>>, n: int)
    requires |bs| == |log| && 0 <= n < |streams|
  {
    streams[n] == Since(ShardRows(c, bs, log, n), begin)
  }

  ghost predicate StreamsAre(c: Codec, bs: seq<BlockRange>, log: seq<seq<u8>>, begin: nat, streams: seq<seq<Record>>)
    requires |bs| == |log|
  {
    forall n {:trigger StreamIs(c, bs, log, begin, streams, n)} :: 0 <= n < |streams| ==>
        StreamIs(c, bs, log, begin, streams, n)
  }

  ghost predicate Splits(x: Reading, n: int) {
    0 <= n < |x.streams| == |x.done| == |x.rest| && x.streams[n] == x.done[n] + x.rest[n]
  }

  ghost predicate HeadAt(
      c: Codec, bs: seq<BlockRange>, log: seq<seq<u8>>, begin: nat, heads: seq<Head>, done: seq<seq<Record>>, n: int)
    requires |bs| == |log|
  {
    0 <= n < |heads| == |done| && HeadOk(c, bs, log, begin, n, heads[n], done[n])
  }

  ghost predicate HeadsAre(
      c: Codec, bs: seq<BlockRange>, log: seq<seq<u8>>, begin: nat, heads: seq<Head>, done: seq<seq<Record>>)
    requires |bs| == |log|
  {
    forall n {:trigger HeadAt(c, bs, log, begin, heads, done, n)} :: 0 <= n < |heads| ==>
        HeadAt(c, bs, log, begin, heads, done, n)
  }

  ghost predicate ReadingOk(x: Reading, shards: nat) {
    && |x.streams| == |x.done| == |x.rest| == shards
    && (forall n {:trigger Splits(x, n)} :: 0 <= n < shards ==> Splits(x, n))
    && Sharded(x.streams) && Consumed(x.streams, x.emitted, x.rest)
  }

  /** The emitted rows all lie behind the cut's watermark. */
  ghost predicate Behind(emitted: seq<Record>, safe: int) {
    forall i :: 0 <= i < |emitted| ==> emitted[i].receiveMonotonicNs < safe
  }

  /** What has been emitted of a shard lies behind the cut's progress of that shard. */
  ghost predicate DoneBehind(cut: Cut, x: Reading, n: int) {
    0 <= n < |x.done| && (n < MAXIMUM_SHARDS ==>
      forall i :: 0 <= i < |x.done[n]| ==> x.done[n][i].shardSequence <= cut.progress.shardSequences[n])
  }

  ghost predicate AllDoneBehind(cut: Cut, x: Reading) {
    forall n {:trigger DoneBehind(cut, x, n)} :: 0 <= n < |x.done| ==> DoneBehind(cut, x, n)
  }

  ghost predicate CursorOk(c: Codec, cur: Cursor, cut: Cut, log: seq<seq<u8>>, x: Reading) {
    && !cur.failed && cur.cut == Some(cut) && |cut.blocks| == |log|
    && |cur.heads| == cut.progress.shardCount && ReadingOk(x, |cur.heads|)
    && StreamsAre(c, cut.blocks, log, cur.begin, x.streams)
    && HeadsAre(c, cut.blocks, log, cur.begin, cur.heads, x.done)
    && Behind(x.emitted, cut.progress.safeMonotonicNs) && AllDoneBehind(cut, x)
  }

  lemma {:induction false} FillAllOk(
      c: Codec, w: World, cut: Cut, log: seq<seq<u8>>, maximum: nat, begin: nat, heads: seq<Head>,
      done: seq<seq<Record>>, k: nat, detached: bool, archive: bool)
    requires FixedHeaders(c) && DepthWidest(c) && Corpus(c, cut.blocks, log, maximum, |heads|, |cut.sources|)
    requires WorldOk(c, w, cut.blocks, log)
    requires k <= |heads| == |done| && HeadsAre(c, cut.blocks, log, begin, heads, done)
    ensures var f := FillAll(c, w, cut, begin, heads, k, detached, archive);
            && f.FilledAll? && HeadsAre(c, cut.blocks, log, begin, f.heads, done)
            && forall n :: 0 <= n < k ==> Settled(cut.blocks, f.heads[n])
    decreases k
  {
    if k > 0 {
      FillAllOk(c, w, cut, log, maximum, begin, heads, done, k - 1, detached, archive);
      var f := FillAll(c, w, cut, begin, heads, k - 1, detached, archive);
      assert HeadAt(c, cut.blocks, log, begin, f.heads, done, k - 1);
      FillOk(c, w, cut, log, maximum, |heads|, begin, k - 1, f.heads[k - 1], done[k - 1], f.detached, f.archive);
      var h := Fill(c, w, cut, begin, k - 1, f.heads[k - 1], f.detached, f.archive).head;
      HeadReplaced(c, cut.blocks, log, begin, f.heads, done, k - 1, h);
    }
  }

  lemma {:induction false} HeadReplaced(
      c: Codec, bs: seq<BlockRange>, log: seq<seq<u8>>, begin: nat, heads: seq<Head>, done: seq<seq<Record>>, n: nat,
      h: Head)
    requires |bs| == |log| && n < |heads| == |done| && HeadsAre(c, bs, log, begin, heads, done)
    requires HeadOk(c, bs, log, begin, n, h, done[n])
    ensures HeadsAre(c, bs, log, begin, heads[n := h], done)
  {
    var hs := heads[n := h];
    forall m | 0 <= m < |hs|
      ensures HeadAt(c, bs, log, begin, hs, done, m)
    {
      assert HeadAt(c, bs, log, begin, heads, done, m);
    }
  }

  /** A settled head shows the first row left of its shard, if any. */
  lemma {:induction false} HeadShows(
      c: Codec, bs: seq<BlockRange>, log: seq<seq<u8>>, begin: nat, shard: nat, h: Head, stream: seq<Record>,
      done: seq<Record>, rest: seq<Record>)
    requires |bs| == |log| && HeadOk(c, bs, log, begin, shard, h, done) && Settled(bs, h)
    requires stream == Since(ShardRows(c, bs, log, shard), begin) && stream == done + rest
    ensures HasRow(h) <==> rest != []
    ensures rest != [] ==> h.decoded[h.position] == rest[0]
  {
    var read := Read(c, bs, log, shard, h.block);
    var all := ShardRows(c, bs, log, shard);
    ShardRowsPrefix(c, bs, log, h.block, shard);
    var unread := all[|read|..];
    assert all == read + unread;
    SinceConcat(read, unread, begin);
    Cancel(done, rest, Tail(h), Since(unread, begin));
    if h.block == |bs| { ReadAll(c, bs, log, shard); }
  }

  lemma {:induction false} Cancel(done: seq<Record>, rest: seq<Record>, tail: seq<Record>, unread: seq<Record>)
    requires done + rest == (done + tail) + unread
    ensures rest == tail + unread
  {
    assert (done + rest)[|done|..] == rest;
    assert ((done + tail) + unread)[|done|..] == tail + unread;
  }

  /** The rows the heads show are the rows the merge compares. */
  ghost predicate Shows(h: Head, rest: seq<Record>) {
    (HasRow(h) <==> rest != []) && (rest != [] ==> h.decoded[h.position] == rest[0])
  }

  lemma {:induction false} BestAgrees(heads: seq<Head>, rest: seq<seq<Record>>, k: nat)
    requires k <= |heads| == |rest| && forall n :: 0 <= n < |heads| ==> Shows(heads[n], rest[n])
    ensures BestHead(heads, k) == (match Best(rest, k) case None => |heads| case Some(b) => b)
    decreases k
  {
    if k > 0 { BestAgrees(heads, rest, k - 1); }
  }

  /** Rows since a moment replay on their own: no transaction straddles a moment. */
  lemma {:induction false} SinceReplays(rows: seq<Record>, begin: int)
    requires DT.Sorted(rows) && DT.Replay(rows).Some?
    ensures DT.Replay(Since(rows, begin)).Some?
    ensures DT.Replay(rows) == Some(DT.Idle) ==> DT.Replay(Since(rows, begin)) == Some(DT.Idle)
  {
    var k := SinceSuffix(rows, begin);
    if 0 < k < |rows| {
      DT.TimeCutIsIdle(rows, k);
      DT.ReplaySuffix(rows, k);
    } else if k == 0 {
      assert rows[k..] == rows;
    } else {
      assert rows[k..] == [];
    }
  }

  lemma {:induction false} TransactionGoesOn(
      stream: seq<Record>, done: seq<Record>, rest: seq<Record>, t: DT.Transaction)
    requires DT.Replay(stream).Some? && stream == done + rest && rest != [] && DT.Replay(done) == Some(t)
    ensures DT.Advance(rest[0], t).Some? && DT.Replay(done + [rest[0]]) == DT.Advance(rest[0], t)
  {
    DT.ReplayPrefix(stream, |done| + 1);
    assert stream[..|done| + 1] == done + [rest[0]];
    DT.ReplayAppend(done, rest[0]);
  }

  lemma {:induction false} TakenHeadOk(
      c: Codec, bs: seq<BlockRange>, log: seq<seq<u8>>, begin: nat, shard: nat, h: Head, done: seq<Record>)
    requires |bs| == |log| && HeadOk(c, bs, log, begin, shard, h, done) && HasRow(h)
    requires DT.Advance(h.decoded[h.position], h.transaction).Some?
    requires DT.Replay(done + [h.decoded[h.position]]) == DT.Advance(h.decoded[h.position], h.transaction)
    ensures HeadOk(c, bs, log, begin, shard,
                   h.(transaction := DT.Advance(h.decoded[h.position], h.transaction).value, position := h.position + 1,
                      ready := h.position + 1 < |h.decoded|),
                   done + [h.decoded[h.position]])
  {
    var r := h.decoded[h.position];
    assert h.decoded[h.position..] == [r] + h.decoded[h.position + 1..];
    assert done + h.decoded[h.position..] == (done + [r]) + h.decoded[h.position + 1..];
  }

  /** The reading after the first row left of shard b is emitted. */
  ghost function Emit(x: Reading, b: nat): Reading
    requires b < |x.streams| == |x.done| == |x.rest| && x.rest[b] != []
  {
    Reading(x.streams, x.done[b := x.done[b] + [x.rest[b][0]]], Pop(x.rest, b), x.emitted + [x.rest[b][0]])
  }

  lemma {:induction false} EmitOk(x: Reading, shards: nat, b: nat)
    requires ReadingOk(x, shards) && Best(x.rest, |x.rest|) == Some(b)
    ensures ReadingOk(Emit(x, b), shards)
  {
    var y := Emit(x, b);
    ConsumeOne(x.streams, x.emitted, x.rest);
    forall n | 0 <= n < shards
      ensures Splits(y, n)
    {
      assert Splits(x, n);
      if n == b {
        assert x.rest[b] == [x.rest[b][0]] + x.rest[b][1..];
        assert x.done[b] + x.rest[b] == (x.done[b] + [x.rest[b][0]]) + x.rest[b][1..];
      }
    }
  }

  /** A transaction the committed rows of a shard leave open lies ahead of the cut's progress. */
  ghost predicate OpenAhead(c: Codec, cut: Cut, log: seq<seq<u8>>, n: int)
    requires |cut.blocks| == |log| && 0 <= n < MAXIMUM_SHARDS
  {
    var t := DT.Replay(ShardRows(c, cut.blocks, log, n));
    t.Some? && (t.value.Open? ==> cut.progress.shardSequences[n] < t.value.firstShardSequence)
  }

  /** What a cursor needs of the cut it reads. */
  ghost predicate Readable(c: Codec, cut: Cut, log: seq<seq<u8>>) {
    && FixedHeaders(c) && DepthWidest(c) && cut.progress.shardCount <= MAXIMUM_SHARDS
    && Corpus(c, cut.blocks, log, cut.manifest.maximumBytes, cut.progress.shardCount, |cut.sources|)
    && forall n {:trigger OpenAhead(c, cut, log, n)} :: 0 <= n < cut.progress.shardCount ==> OpenAhead(c, cut, log, n)
  }

  lemma {:induction false} ShardReplays(c: Codec, cut: Cut, log: seq<seq<u8>>, begin: nat, n: nat)
    requires Readable(c, cut, log) && n < cut.progress.shardCount
    ensures DT.Replay(Since(ShardRows(c, cut.blocks, log, n), begin)).Some?
  {
    assert GoodAt(c, cut.blocks, log, |cut.sources|, n);
    SinceReplays(ShardRows(c, cut.blocks, log, n), begin);
  }

  /** The last row of a shard whose rows leave a transaction open lies ahead of the cut's progress. */
  lemma {:induction false} LastAhead(c: Codec, cut: Cut, log: seq<seq<u8>>, n: nat)
    requires Readable(c, cut, log) && n < cut.progress.shardCount
    ensures var rows := ShardRows(c, cut.blocks, log, n);
            DT.Sorted(rows) && DT.Replay(rows).Some?
            && (DT.Replay(rows).value.Open? ==>
                 rows != [] && cut.progress.shardSequences[n] < rows[|rows| - 1].shardSequence)
  {
    assert GoodAt(c, cut.blocks, log, |cut.sources|, n) && OpenAhead(c, cut, log, n);
    var rows := ShardRows(c, cut.blocks, log, n);
    if DT.Replay(rows).value.Open? { DT.OpenTail(rows); }
  }

  /** Rows since a moment that stay behind a progress mark end between transactions. */
  lemma {:induction false} BehindEndsIdle(rows: seq<Record>, begin: int, mark: int)
    requires DT.Sorted(rows) && DT.Replay(rows).Some?
    requires DT.Replay(rows).value.Open? ==> rows != [] && mark < rows[|rows| - 1].shardSequence
    requires forall i :: 0 <= i < |Since(rows, begin)| ==> Since(rows, begin)[i].shardSequence <= mark
    ensures DT.Replay(Since(rows, begin)) == Some(DT.Idle)
  {
    SinceReplays(rows, begin);
    var k := SinceSuffix(rows, begin);
    if k < |rows| {
      assert Since(rows, begin)[|rows| - k - 1] == rows[|rows| - 1];
      assert rows[|rows| - 1].shardSequence <= mark;
    } else {
      assert rows[k..] == [];
    }
  }

  ghost predicate AllSettled(bs: seq<BlockRange>, heads: seq<Head>) {
    forall n :: 0 <= n < |heads| ==> Settled(bs, heads[n])
  }

  lemma {:induction false} HeadsShow(c: Codec, cur: Cursor, cut: Cut, log: seq<seq<u8>>, x: Reading)
    requires CursorOk(c, cur, cut, log, x) && AllSettled(cut.blocks, cur.heads)
    ensures forall n :: 0 <= n < |cur.heads| ==> Shows(cur.heads[n], x.rest[n])
  {
    forall n | 0 <= n < |cur.heads|
      ensures Shows(cur.heads[n], x.rest[n])
    {
      assert Splits(x, n) && StreamIs(c, cut.blocks, log, cur.begin, x.streams, n);
      assert HeadAt(c, cut.blocks, log, cur.begin, cur.heads, x.done, n);
      HeadShows(c, cut.blocks, log, cur.begin, n, cur.heads[n], x.streams[n], x.done[n], x.rest[n]);
    }
  }

  /** With nothing left, every transaction has ended. */
  lemma {:induction false} FinishedIdle(c: Codec, cur: Cursor, cut: Cut, log: seq<seq<u8>>, x: Reading)
    requires Readable(c, cut, log) && CursorOk(c, cur, cut, log, x)
    requires forall n :: 0 <= n < |x.rest| ==> x.rest[n] == []
    ensures forall n :: 0 <= n < |cur.heads| ==> cur.heads[n].transaction.Idle?
    ensures forall n :: 0 <= n < |cur.heads| ==> DT.Replay(x.streams[n]) == Some(DT.Idle)
  {
    forall n | 0 <= n < |cur.heads|
      ensures cur.heads[n].transaction.Idle? && DT.Replay(x.streams[n]) == Some(DT.Idle)
    {
      assert Splits(x, n) && StreamIs(c, cut.blocks, log, cur.begin, x.streams, n) && DoneBehind(cut, x, n);
      assert HeadAt(c, cut.blocks, log, cur.begin, cur.heads, x.done, n);
      assert x.done[n] + [] == x.done[n];
      LastAhead(c, cut, log, n);
      BehindEndsIdle(ShardRows(c, cut.blocks, log, n), cur.begin, cut.progress.shardSequences[n]);
    }
  }

  /** The cut's progress has passed the row: its time lies below the safe time and its sequence is
      among those reported for its shard. */
  predicate Released(cut: Cut, r: Record) {
    && r.receiveMonotonicNs < cut.progress.safeMonotonicNs
    && r.shardIndex < MAXIMUM_SHARDS && r.shardSequence <= cut.progress.shardSequences[r.shardIndex]
  }

  /** What a reader of a cut is owed when `rest` is what it has not been given of the merge. */
  ghost function Due(cut: Cut, rest: seq<Record>): Emission {
    if rest == [] then if cut.finalized then End else WouldBlock
    else if Released(cut, rest[0]) then Emitted(rest[0])
    else WouldBlock
  }

  ghost function Owed(cut: Cut, x: Reading): Emission { Due(cut, Merged(x.rest)) }

  /** What one call did to the reading. */
  ghost predicate Moved(cut: Cut, x: Reading, emission: Emission, y: Reading) {
    && emission == Owed(cut, x)
    && match emission
       case Emitted(r) =>
         y.streams == x.streams && y.emitted == x.emitted + [r] && BehindWatermark(cut, r, r.shardIndex)
       case WouldBlock => y == x
       case End =>
         && y == x && cut.finalized
         && forall n :: 0 <= n < |x.rest| <= |x.streams| ==>
              x.rest[n] == [] && DT.Replay(x.streams[n]) == Some(DT.Idle)
       case Failure => false
  }

  /** The least row left is the head of its shard, and the watermark decides about it. */
  lemma {:induction false} LeastLeft(cut: Cut, x: Reading, shards: nat, b: nat)
    requires ReadingOk(x, shards) && shards <= MAXIMUM_SHARDS && Best(x.rest, |x.rest|) == Some(b)
    ensures x.rest[b][0].shardIndex == b
    ensures Owed(cut, x) == if BehindWatermark(cut, x.rest[b][0], b) then Emitted(x.rest[b][0]) else WouldBlock
  {
    assert Splits(x, b);
    assert x.streams[b][|x.done[b]|] == x.rest[b][0];
  }

  lemma {:induction false} PickEmits(c: Codec, cur: Cursor, cut: Cut, log: seq<seq<u8>>, x: Reading, b: nat)
    requires Readable(c, cut, log) && CursorOk(c, cur, cut, log, x) && AllSettled(cut.blocks, cur.heads)
    requires Best(x.rest, |x.rest|) == Some(b) && BehindWatermark(cut, x.rest[b][0], b)
    requires Shows(cur.heads[b], x.rest[b])
    ensures var h := cur.heads[b];
            var r := h.decoded[h.position];
            && r == x.rest[b][0] && r.shardIndex == b && DT.Advance(r, h.transaction).Some?
            && var taken :=
                h.(transaction := DT.Advance(r, h.transaction).value, position := h.position + 1,
                    ready := h.position + 1 < |h.decoded|);
               CursorOk(c, cur.(heads := cur.heads[b := taken]), cut, log, Emit(x, b))
  {
    var h := cur.heads[b];
    var r := h.decoded[h.position];
    assert Splits(x, b) && StreamIs(c, cut.blocks, log, cur.begin, x.streams, b);
    assert HeadAt(c, cut.blocks, log, cur.begin, cur.heads, x.done, b);
    assert x.streams[b][|x.done[b]|] == r;
    ShardReplays(c, cut, log, cur.begin, b);
    TransactionGoesOn(x.streams[b], x.done[b], x.rest[b], h.transaction);
    TakenHeadOk(c, cut.blocks, log, cur.begin, b, h, x.done[b]);
    EmitOk(x, |cur.heads|, b);
    var taken :=
        h.(transaction := DT.Advance(r, h.transaction).value, position := h.position + 1,
            ready := h.position + 1 < |h.decoded|);
    HeadTaken(c, cut.blocks, log, cur.begin, cur.heads, x.done, b, taken, x.done[b] + [r]);
    EmitBehind(cut, x, b);
  }

  lemma {:induction false} EmitBehind(cut: Cut, x: Reading, b: nat)
    requires b < |x.streams| == |x.done| == |x.rest| && x.rest[b] != [] && AllDoneBehind(cut, x)
    requires BehindWatermark(cut, x.rest[b][0], b)
    ensures AllDoneBehind(cut, Emit(x, b))
  {
    var y := Emit(x, b);
    forall n | 0 <= n < |y.done|
      ensures DoneBehind(cut, y, n)
    {
      assert DoneBehind(cut, x, n);
    }
  }

  lemma {:induction false} HeadTaken(
      c: Codec, bs: seq<BlockRange>, log: seq<seq<u8>>, begin: nat, heads: seq<Head>, done: seq<seq<Record>>, n: nat,
      h: Head, more: seq<Record>)
    requires |bs| == |log| && n < |heads| == |done| && HeadsAre(c, bs, log, begin, heads, done)
    requires HeadOk(c, bs, log, begin, n, h, more)
    ensures HeadsAre(c, bs, log, begin, heads[n := h], done[n := more])
  {
    var hs, ds := heads[n := h], done[n := more];
    forall m | 0 <= m < |hs|
      ensures HeadAt(c, bs, log, begin, hs, ds, m)
    {
      assert HeadAt(c, bs, log, begin, heads, done, m);
    }
  }

  /** Nothing is ready. */
  lemma {:induction false} PickNothing(c: Codec, cur: Cursor, cut: Cut, log: seq<seq<u8>>, x: Reading)
    requires Readable(c, cut, log) && CursorOk(c, cur, cut, log, x) && Best(x.rest, |x.rest|).None?
    requires BestHead(cur.heads, |cur.heads|) == |cur.heads|
    ensures var p := Pick(cur, cut);
            p.status == Ok && CursorOk(c, p.cursor, cut, log, x) && Moved(cut, x, p.emission, x)
  {
    FinishedIdle(c, cur, cut, log, x);
    CursorSame(c, cur, cut, log, x);
  }

  /** Some row is ready. */
  lemma {:induction false} PickSome(
      c: Codec, cur: Cursor, cut: Cut, log: seq<seq<u8>>, x: Reading, b: nat) returns (y: Reading)
    requires Readable(c, cut, log) && CursorOk(c, cur, cut, log, x) && AllSettled(cut.blocks, cur.heads)
    requires Best(x.rest, |x.rest|) == Some(b) && BestHead(cur.heads, |cur.heads|) == b
    requires Shows(cur.heads[b], x.rest[b])
    ensures var p := Pick(cur, cut);
            p.status == Ok && CursorOk(c, p.cursor, cut, log, y) && Moved(cut, x, p.emission, y)
  {
    LeastLeft(cut, x, |cur.heads|, b);
    if BehindWatermark(cut, x.rest[b][0], b) {
      PickEmits(c, cur, cut, log, x, b);
      y := Emit(x, b);
    } else {
      CursorSame(c, cur, cut, log, x);
      y := x;
    }
  }

  lemma {:induction false} PickOk(c: Codec, cur: Cursor, cut: Cut, log: seq<seq<u8>>, x: Reading) returns (y: Reading)
    requires Readable(c, cut, log) && CursorOk(c, cur, cut, log, x) && AllSettled(cut.blocks, cur.heads)
    ensures var p := Pick(cur, cut);
            p.status == Ok && CursorOk(c, p.cursor, cut, log, y) && Moved(cut, x, p.emission, y)
  {
    HeadsShow(c, cur, cut, log, x);
    BestAgrees(cur.heads, x.rest, |cur.heads|);
    y := x;
    match Best(x.rest, |x.rest|)
    case None => PickNothing(c, cur, cut, log, x);
    case Some(b) => y := PickSome(c, cur, cut, log, x, b);
  }

  lemma {:induction false} CursorSame(c: Codec, cur: Cursor, cut: Cut, log: seq<seq<u8>>, x: Reading)
    requires CursorOk(c, cur, cut, log, x)
    ensures CursorOk(c, cur.(caughtUp := true), cut, log, x)
  {
  }

  /** One call of `next` on a sound world: it succeeds and emits the least row left if that lies
      behind the watermark, and nothing otherwise; `End` means that everything has been emitted. */
  lemma {:induction false} NextOk(
      c: Codec, w: World, cur: Cursor, cut: Cut, log: seq<seq<u8>>, x: Reading) returns (y: Reading)
    requires Readable(c, cut, log) && CursorOk(c, cur, cut, log, x) && WorldOk(c, w, cut.blocks, log)
    ensures var p := Next(c, w, cur);
            p.status == Ok && CursorOk(c, p.cursor, cut, log, y) && Moved(cut, x, p.emission, y)
  {
    FillAllOk(c, w, cut, log, cut.manifest.maximumBytes, cur.begin, cur.heads, x.done, |cur.heads|, cur.feedDetached,
        cur.archive);
    var f := FillAll(c, w, cut, cur.begin, cur.heads, |cur.heads|, cur.feedDetached, cur.archive);
    var at := cur.(heads := f.heads, feedDetached := f.detached, archive := f.archive);
    y := PickOk(c, at, cut, log, x);
  }

  // === From cut to cut =======================================================================================

  // --- A published cut can be read ------------------------------------------------------------------

  lemma {:induction false} MomentStream(c: Codec, cut: Cut, m: Moment, n: nat)
    requires MomentOk(c, m) && Taken(cut, m.state) && n < |m.state.segments|
    ensures ShardRows(c, cut.blocks, m.state.log, n) == OfShard(m.accepted, n)
    ensures ShardGood(OfShard(m.accepted, n), n, |cut.sources|)
    ensures DT.Replay(OfShard(m.accepted, n)) == Some(m.state.depth[n])
  {
    var s := m.state;
    assert ShardAt(c, s, m.accepted, n) && StreamAt(c, s, n);
    assert s.segments[n].pending == [];
    assert ShardRows(c, s.blocks, s.log, n) + [] == ShardRows(c, s.blocks, s.log, n);
  }

  lemma {:induction false} TakenCorpus(c: Codec, cut: Cut, m: Moment)
    requires MomentOk(c, m) && Taken(cut, m.state)
    ensures cut.progress.shardCount == |m.state.segments| <= MAXIMUM_SHARDS && |cut.blocks| == |m.state.log|
    ensures Corpus(c, cut.blocks, m.state.log, cut.manifest.maximumBytes, cut.progress.shardCount, |cut.sources|)
  {
    var s := m.state;
    forall i | 0 <= i < |cut.blocks|
      ensures ValidBlock(c, cut.blocks[i], cut.manifest.maximumBytes, cut.progress.shardCount)
    {
      BlockAccepted(c, s, i);
    }
    forall n | 0 <= n < |s.segments|
      ensures GoodAt(c, cut.blocks, s.log, |cut.sources|, n)
    {
      MomentStream(c, cut, m, n);
    }
  }

  lemma {:induction false} TakenReadable(c: Codec, cut: Cut, m: Moment)
    requires Lawful(c) && DepthWidest(c) && MomentOk(c, m) && Taken(cut, m.state)
    ensures Readable(c, cut, m.state.log)
  {
    TakenCorpus(c, cut, m);
    forall n | 0 <= n < cut.progress.shardCount
      ensures OpenAhead(c, cut, m.state.log, n)
    {
      MomentStream(c, cut, m, n);
      assert ProgressAt(m.state, n);
    }
  }

  /** Finalization publishes a cut that ends between transactions. */
  lemma {:induction false} SealDepth(
      c: Codec, l: Layout, s: State, H: seq<Record>, reason: StopReason, at: i64, now: nat)
    requires Lawful(c) && Inv(c, s, H) && Finalize(c, l, s, reason, at, now).Done?
    requires Finalize(c, l, s, reason, at, now).status == Ok
    ensures var t := Finalize(c, l, s, reason, at, now).state;
            t.depth == s.depth && forall n :: 0 <= n < |t.depth| ==> t.depth[n].Idle?
  {
    var u := SealAll(c, s, |s.segments|).value;
    SealAllKeeps(c, s, H);
    ManifestKeeps(c, l, u, H, reason, at);
    PublishDepth(c, u.(manifest := FinalManifest(c, l, u, reason, at)), H, now);
  }

  lemma {:induction false} PublishDepth(c: Codec, s: State, H: seq<Record>, now: nat)
    requires Lawful(c) && Inv(c, s, H) && PublishCut(c, s, now).Done?
    ensures PublishCut(c, s, now).state.depth == s.depth
  {
    if s.active && s.cutGeneration != U64_MAX { FlushAllKeeps(c, s, H); }
  }

  // --- Discipline of the producer -------------------------------------------------------------------

  /** No row accepted after a progress update lies below that update's safe time. */
  ghost predicate RowAbove(ms: seq<Moment>, steps: seq<Step>, i: int) {
    0 <= i < |steps| < |ms| && steps[i].AppendRow? && ms[i + 1].accepted != ms[i].accepted ==>
      steps[i].record.receiveMonotonicNs >= ms[i].state.progress.safeMonotonicNs
  }

  ghost predicate Disciplined(ms: seq<Moment>, steps: seq<Step>) {
    forall i {:trigger RowAbove(ms, steps, i)} :: 0 <= i < |steps| ==> RowAbove(ms, steps, i)
  }

  lemma {:induction false} StepAccepts(c: Codec, l: Layout, m: Moment, step: Step, m': Moment)
    requires StepTo(c, l, m, step, m')
    ensures m'.accepted == m.accepted || (step.AppendRow? && m'.accepted == m.accepted + [step.record])
  {
  }

  lemma {:induction false} RunAccepts(c: Codec, l: Layout, g: Config, ms: seq<Moment>, steps: seq<Step>, i: nat)
    requires IsRun(c, l, g, ms, steps) && i < |steps|
    ensures ms[i + 1].accepted == ms[i].accepted ||
            (steps[i].AppendRow? && ms[i + 1].accepted == ms[i].accepted + [steps[i].record])
  {
    assert StepAt(c, l, ms, steps, i);
    StepAccepts(c, l, ms[i], steps[i], ms[i + 1]);
  }

  lemma {:induction false} FromOneMore(base: seq<Record>, rows: seq<Record>, more: seq<Record>, r: Record, time: int)
    requires base <= rows && From(rows[|base|..], time)
    requires more == rows || (more == rows + [r] && r.receiveMonotonicNs >= time)
    ensures base <= more && From(more[|base|..], time)
  {
    if more != rows { assert more[|base|..] == rows[|base|..] + [r]; }
  }

  lemma {:induction false} SafeGrows(c: Codec, l: Layout, g: Config, ms: seq<Moment>, steps: seq<Step>, a: nat, b: nat)
    requires Lawful(c) && IsRun(c, l, g, ms, steps) && a <= b <= |steps|
    ensures ms[a].state.progress.safeMonotonicNs <= ms[b].state.progress.safeMonotonicNs
  {
    RunLater(c, l, g, ms, steps, a, b);
  }

  lemma {:induction false} AcceptedAbove(
      c: Codec, l: Layout, g: Config, ms: seq<Moment>, steps: seq<Step>, a: nat, b: nat)
    requires Lawful(c) && IsRun(c, l, g, ms, steps) && Disciplined(ms, steps) && a <= b <= |steps|
    ensures ms[a].accepted <= ms[b].accepted
    ensures From(ms[b].accepted[|ms[a].accepted|..], ms[a].state.progress.safeMonotonicNs)
    decreases b
  {
    if a < b {
      AcceptedAbove(c, l, g, ms, steps, a, b - 1);
      SafeGrows(c, l, g, ms, steps, a, b - 1);
      RunAccepts(c, l, g, ms, steps, b - 1);
      assert RowAbove(ms, steps, b - 1);
      if ms[b].accepted != ms[b - 1].accepted {
        FromOneMore(ms[a].accepted, ms[b - 1].accepted, ms[b].accepted, steps[b - 1].record,
            ms[a].state.progress.safeMonotonicNs);
      }
    }
  }

  lemma {:induction false} SinceFrom(rs: seq<Record>, begin: int, time: int)
    requires From(rs, time)
    ensures From(Since(rs, begin), time)
    decreases |rs|
  {
    if rs != [] { SinceFrom(rs[..|rs| - 1], begin, time); }
  }

  // --- The streams of a cut -----------------------------------------------------------------------

  /** What a cursor that starts at `begin` will ever see of the rows accepted so far. */
  ghost function View(accepted: seq<Record>, begin: nat, shards: nat): (v: seq<seq<Record>>)
    ensures |v| == shards && forall n :: 0 <= n < shards ==> v[n] == Since(OfShard(accepted, n), begin)
    decreases shards
  {
    if shards == 0 then [] else View(accepted, begin, shards - 1) + [Since(OfShard(accepted, shards - 1), begin)]
  }

  lemma {:induction false} ViewStreams(c: Codec, cut: Cut, m: Moment, begin: nat)
    requires MomentOk(c, m) && Taken(cut, m.state)
    ensures |cut.blocks| == |m.state.log|
    ensures StreamsAre(c, cut.blocks, m.state.log, begin, View(m.accepted, begin, |m.state.segments|))
    ensures Sharded(View(m.accepted, begin, |m.state.segments|))
  {
    var v := View(m.accepted, begin, |m.state.segments|);
    forall n | 0 <= n < |v|
      ensures StreamIs(c, cut.blocks, m.state.log, begin, v, n)
      ensures DT.Sorted(v[n]) && forall i :: 0 <= i < |v[n]| ==> v[n][i].shardIndex == n
    {
      MomentStream(c, cut, m, n);
      var k := SinceSuffix(OfShard(m.accepted, n), begin);
    }
  }

  lemma {:induction false} ViewExtends(a: seq<Record>, b: seq<Record>, begin: nat, shards: nat, safe: int)
    requires a <= b && From(b[|a|..], safe)
    ensures Extends(View(a, begin, shards), View(b, begin, shards), safe)
  {
    var more := b[|a|..];
    assert b == a + more;
    forall n | 0 <= n < shards
      ensures View(b, begin, shards)[n] == View(a, begin, shards)[n] + Since(OfShard(more, n), begin)
      ensures From(Since(OfShard(more, n), begin), safe)
    {
      OfShardConcat(a, more, n);
      SinceConcat(OfShard(a, n), OfShard(more, n), begin);
      OfShardFrom(more, n, safe);
      SinceFrom(OfShard(more, n), begin, safe);
    }
    ExtendsBy(View(a, begin, shards), View(b, begin, shards), safe);
  }

  lemma {:induction false} ExtendsBy(small: seq<seq<Record>>, big: seq<seq<Record>>, safe: int)
    requires |small| == |big|
    requires forall n :: 0 <= n < |small| ==> small[n] <= big[n] && From(big[n][|small[n]|..], safe)
    ensures Extends(small, big, safe)
  {
  }

  // --- A cursor that follows a run ------------------------------------------------------------------

  /** The cursor has adopted the cut taken at moment m and its reading agrees with it. */
  ghost predicate Following(c: Codec, cur: Cursor, m: Moment, x: Reading) {
    && cur.cut.Some? && Taken(cur.cut.value, m.state) && CursorOk(c, cur, cur.cut.value, m.state.log, x)
    && x.streams == View(m.accepted, cur.begin, |m.state.segments|)
  }

  lemma {:induction false} ReadSame(
      c: Codec, bs: seq<BlockRange>, log: seq<seq<u8>>, big: seq<BlockRange>, bigLog: seq<seq<u8>>, shard: nat,
      block: nat)
    requires |bs| == |log| && |big| == |bigLog| && bs <= big && log <= bigLog && block <= |bs|
    ensures Read(c, big, bigLog, shard, block) == Read(c, bs, log, shard, block)
  {
    assert big[..block] == bs[..block] && bigLog[..block] == log[..block];
  }

  lemma {:induction false} HeadsSame(
      c: Codec, bs: seq<BlockRange>, log: seq<seq<u8>>, big: seq<BlockRange>, bigLog: seq<seq<u8>>, begin: nat,
      heads: seq<Head>, done: seq<seq<Record>>)
    requires |bs| == |log| && |big| == |bigLog| && bs <= big && log <= bigLog
    requires HeadsAre(c, bs, log, begin, heads, done)
    ensures HeadsAre(c, big, bigLog, begin, heads, done)
  {
    forall n | 0 <= n < |heads|
      ensures HeadAt(c, big, bigLog, begin, heads, done, n)
    {
      assert HeadAt(c, bs, log, begin, heads, done, n);
      ReadSame(c, bs, log, big, bigLog, n, heads[n].block);
    }
  }

  /** What is left once the streams have grown. */
  ghost function MoreLeft(x: Reading, big: seq<seq<Record>>, k: nat): (rest: seq<seq<Record>>)
    requires k <= |x.rest| == |x.streams| == |big| && forall n :: 0 <= n < |big| ==> |x.streams[n]| <= |big[n]|
    ensures |rest| == k && forall n :: 0 <= n < k ==> rest[n] == x.rest[n] + big[n][|x.streams[n]|..]
    decreases k
  {
    if k == 0 then [] else MoreLeft(x, big, k - 1) + [x.rest[k - 1] + big[k - 1][|x.streams[k - 1]|..]]
  }

  lemma {:induction false} SplitGrows(stream: seq<Record>, done: seq<Record>, rest: seq<Record>, big: seq<Record>)
    requires stream == done + rest && stream <= big
    ensures big == done + (rest + big[|stream|..])
  {
    assert big == stream + big[|stream|..];
  }

  lemma {:induction false} LeftGrown(
      x: Reading, big: seq<seq<Record>>, shards: nat, safe: int) returns (rest: seq<seq<Record>>)
    requires |x.streams| == |x.done| == |x.rest| == shards && Extends(x.streams, big, safe)
    requires forall n {:trigger Splits(x, n)} :: 0 <= n < shards ==> Splits(x, n)
    ensures Grown(x.streams, big, x.rest, rest)
    ensures forall n {:trigger Splits(Reading(big, x.done, rest, x.emitted), n)} :: 0 <= n < shards ==>
            Splits(Reading(big, x.done, rest, x.emitted), n)
  {
    rest := MoreLeft(x, big, shards);
    forall n | 0 <= n < shards
      ensures Splits(Reading(big, x.done, rest, x.emitted), n)
    {
      assert Splits(x, n);
      SplitGrows(x.streams[n], x.done[n], x.rest[n], big[n]);
    }
  }

  /** Growth behind the watermark keeps a reading a reading. */
  lemma {:induction false} ReadingGrows(x: Reading, shards: nat, big: seq<seq<Record>>, safe: int) returns (y: Reading)
    requires ReadingOk(x, shards) && Sharded(big) && Extends(x.streams, big, safe) && Behind(x.emitted, safe)
    ensures ReadingOk(y, shards) && y.streams == big && y.done == x.done && y.emitted == x.emitted
  {
    var rest := LeftGrown(x, big, shards, safe);
    y := Reading(big, x.done, rest, x.emitted);
    ConsumedStable(x.streams, big, safe, x.emitted, x.rest, rest);
  }

  /** Progress never goes back, so what was behind it stays behind it. */
  lemma {:induction false} BehindLater(cut: Cut, m: Moment, next: Cut, m': Moment, x: Reading, y: Reading)
    requires Later(m, m') && Taken(cut, m.state) && Taken(next, m'.state) && AllDoneBehind(cut, x)
    requires y.done == x.done && |x.done| == |m.state.segments|
    ensures AllDoneBehind(next, y)
  {
    forall n | 0 <= n < |y.done|
      ensures DoneBehind(next, y, n)
    {
      assert DoneBehind(cut, x, n) && ProgressGrew(m.state.progress, m'.state.progress, n);
    }
  }

  lemma {:induction false} FollowOn(
      c: Codec, cur: Cursor, m: Moment, x: Reading, next: Cut, m': Moment, cur': Cursor) returns (y: Reading)
    requires MomentOk(c, m) && MomentOk(c, m') && Later(m, m') && Following(c, cur, m, x) && Taken(next, m'.state)
    requires From(m'.accepted[|m.accepted|..], m.state.progress.safeMonotonicNs)
    requires cur'.cut == Some(next) && cur'.heads == cur.heads && cur'.begin == cur.begin && !cur'.failed
    ensures Following(c, cur', m', y) && y.emitted == x.emitted
  {
    var shards := |m.state.segments|;
    var big := View(m'.accepted, cur.begin, shards);
    ViewExtends(m.accepted, m'.accepted, cur.begin, shards, m.state.progress.safeMonotonicNs);
    ViewStreams(c, next, m', cur.begin);
    y := ReadingGrows(x, shards, big, m.state.progress.safeMonotonicNs);
    BehindLater(cur.cut.value, m, next, m', x, y);
    HeadsSame(c, m.state.blocks, m.state.log, m'.state.blocks, m'.state.log, cur.begin, cur.heads, x.done);
  }

  /** Nothing read yet. */
  ghost function Untouched(streams: seq<seq<Record>>): (x: Reading)
    ensures x.streams == streams && x.rest == streams && x.emitted == [] && |x.done| == |streams|
    ensures forall n :: 0 <= n < |streams| ==> x.done[n] == []
  {
    Reading(streams, Empties(|streams|), streams, [])
  }

  ghost function Empties(k: nat): (e: seq<seq<Record>>)
    ensures |e| == k && forall n :: 0 <= n < k ==> e[n] == []
    decreases k
  {
    if k == 0 then [] else Empties(k - 1) + [[]]
  }

  lemma {:induction false} FreshHead(c: Codec, bs: seq<BlockRange>, log: seq<seq<u8>>, begin: nat, shard: nat)
    requires |bs| == |log|
    ensures HeadOk(c, bs, log, begin, shard, FRESH_HEAD, [])
  {
    assert bs[..0] == [] && log[..0] == [];
  }

  lemma {:induction false} FirstAdoption(c: Codec, cut: Cut, m: Moment, cur: Cursor)
    requires MomentOk(c, m) && Taken(cut, m.state) && cur.cut == Some(cut) && !cur.failed
    requires |cur.heads| == |m.state.segments| && forall n :: 0 <= n < |cur.heads| ==> cur.heads[n] == FRESH_HEAD
    ensures Following(c, cur, m, Untouched(View(m.accepted, cur.begin, |m.state.segments|)))
  {
    var streams := View(m.accepted, cur.begin, |m.state.segments|);
    var x := Untouched(streams);
    ViewStreams(c, cut, m, cur.begin);
    forall n | 0 <= n < |cur.heads|
      ensures HeadAt(c, cut.blocks, m.state.log, cur.begin, cur.heads, x.done, n)
    {
      FreshHead(c, cut.blocks, m.state.log, cur.begin, n);
    }
    forall n | 0 <= n < |streams|
      ensures Splits(x, n)
    {
      assert [] + streams[n] == streams[n];
    }
  }
}
