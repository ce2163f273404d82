/** `flush`, `seal` and `append` keep the store: a block appended to the log is exactly the rows that were
    pending, an accepted row is the next row of its shard's stream and of no other, and a refused one
    changes no stream even when it forced blocks out. */
module WriterAppend {
  import opened Records
  import opened Storage
  import opened Formats
  import opened Publication
  import opened Writer
  import opened WriterStore
  import opened Index
  import opened WriterLedger
  import DT = DepthTransaction
  import SS = SourceState

  /** The stored block is a true reference to the pending rows. */
  lemma {:induction false} PendingBlockOk(c: Codec, s: State, n: nat, bytes: seq<u8>)
    requires Lossless(c) && n < |s.segments| && n <= 0xFFFF
    requires s.segments[n].pending != [] && PendingOk(s.segments[n].pending, n)
    requires c.encode(s.segments[n].pending[0].channel, s.segments[n].pending) == Some(bytes) && bytes != []
    requires s.segments[n].blockCount < U32_MAX
    ensures BlockOk(c, PendingBlock(c, s, n, bytes), bytes)
    ensures Rows(c, PendingBlock(c, s, n, bytes), bytes) == s.segments[n].pending
  {
    var g := s.segments[n];
    assert RoundTrips(c, g.pending[0].channel, g.pending);
  }

  /** One more block in the log, as everything outside its segment and shard sees it. */
  lemma {:induction false} LogGrows(
      c: Codec, bs: seq<BlockRange>, log: seq<seq<u8>>, b: BlockRange, bytes: seq<u8>, k: nat)
    requires |bs| == |log|
    ensures b.segmentNumber != k ==>
              && StoredOf(bs + [b], k) == StoredOf(bs, k) && CountOf(bs + [b], k) == CountOf(bs, k)
              && SegmentRows(c, bs + [b], log + [bytes], k) == SegmentRows(c, bs, log, k)
    ensures b.shardIndex != k ==> ShardRows(c, bs + [b], log + [bytes], k) == ShardRows(c, bs, log, k)
    ensures b.segmentNumber == k ==>
              && StoredOf(bs + [b], k) == StoredOf(bs, k) + StoredBytes(b) && CountOf(bs + [b], k) == CountOf(bs, k) + 1
              && SegmentRows(c, bs + [b], log + [bytes], k) == SegmentRows(c, bs, log, k) + Rows(c, b, bytes)
    ensures b.shardIndex == k ==>
            ShardRows(c, bs + [b], log + [bytes], k) == ShardRows(c, bs, log, k) + Rows(c, b, bytes)
  {
    Appended(c, bs, log, b, bytes);
  }

  /** Everything a flush step needs to know about the block it appended. */
  ghost predicate Appends(c: Codec, s: State, n: nat, b: BlockRange, bytes: seq<u8>) {
    && n < |s.segments| && s.segments[n].open && s.segments[n].pending != []
    && b.segmentNumber == s.segments[n].number && b.shardIndex == n
    && Rows(c, b, bytes) == s.segments[n].pending && BlockOk(c, b, bytes)
    && b.offset == SEGMENT_HEADER_BYTES + s.segments[n].storedBytes
    && b.header.blockNumber == s.segments[n].blockCount + 1 <= U32_MAX
  }

  ghost predicate FlushStep(c: Codec, s: State, t: State, n: nat, b: BlockRange, bytes: seq<u8>) {
    && Appends(c, s, n, b, bytes)
    && t.blocks == s.blocks + [b] && t.log == s.log + [bytes]
    && |t.segments| == |s.segments|
    && (forall m :: 0 <= m < |s.segments| && m != n ==> t.segments[m] == s.segments[m])
    && t.segments[n] == s.segments[n].(pending := [], projectedBytes := t.segments[n].projectedBytes,
                                       storedBytes := s.segments[n].storedBytes + StoredBytes(b),
                                       blockCount := s.segments[n].blockCount + 1)
    && t.segments[n].projectedBytes == s.segments[n].projectedBytes - |s.segments[n].pending| * PendingRecordBytes(c) +
        StoredBytes(b)
    && t == s.(blocks := t.blocks, log := t.log, cache := t.cache, projectedBytes := t.projectedBytes,
        segments := t.segments)
    && t.cache == Retain(CacheCapacity(s.config), s.cache, b, bytes)
  }

  lemma {:induction false} StoreBlockStep(c: Codec, s: State, n: nat)
    requires Lossless(c) && n < |s.segments| <= MAXIMUM_SHARDS && |s.blocks| == |s.log|
    requires SegmentOk(c, s.segments[n], n, s.blocks, s.log, s.nextSegmentNumber) && FlushBlock(c, s, n).Some?
    ensures s.segments[n].pending == [] ==> FlushBlock(c, s, n).value == s
    ensures s.segments[n].pending != [] ==>
              exists b, bytes :: FlushStep(c, s, FlushBlock(c, s, n).value, n, b, bytes)
  {
    if s.segments[n].pending != [] {
      var bytes := c.encode(s.segments[n].pending[0].channel, s.segments[n].pending).value;
      PendingBlockOk(c, s, n, bytes);
      StoreBlockIsStep(c, s, n, PendingBlock(c, s, n, bytes), bytes);
      assert FlushStep(c, s, FlushBlock(c, s, n).value, n, PendingBlock(c, s, n, bytes), bytes);
    }
  }

  lemma {:induction false} StoreBlockIsStep(c: Codec, s: State, n: nat, b: BlockRange, bytes: seq<u8>)
    requires n < |s.segments| <= MAXIMUM_SHARDS && s.segments[n].open && s.segments[n].pending != []
    requires b == PendingBlock(c, s, n, bytes) && BlockOk(c, b, bytes) && Rows(c, b, bytes) == s.segments[n].pending
    ensures FlushStep(c, s, StoreBlock(c, s, n, bytes), n, b, bytes)
  {
  }

  lemma {:induction false} FlushLog(c: Codec, s: State, t: State, n: nat, b: BlockRange, bytes: seq<u8>)
    requires StoreOk(c, s) && FlushStep(c, s, t, n, b, bytes)
    ensures LogOk(c, t.blocks, t.log) && Faithful(t.blocks, t.log, t.cache)
  {
    assert SegmentAt(c, s, n);
    LogAppend(c, s.blocks, s.log, b, bytes);
    RetainKeepsFaithful(s.blocks, s.log, CacheCapacity(s.config), s.cache, b, bytes);
  }

  lemma {:induction false} FlushSegments(c: Codec, s: State, t: State, n: nat, b: BlockRange, bytes: seq<u8>, m: nat)
    requires StoreOk(c, s) && FlushStep(c, s, t, n, b, bytes) && m < |s.segments|
    ensures SegmentAt(c, t, m)
    ensures SegmentIndexed(c, t.segments[m], m, t.index, t.blocks, t.log)
  {
    assert SegmentAt(c, s, m);
    assert SegmentIndexed(c, s.segments[m], m, s.index, s.blocks, s.log);
    if s.segments[m].open {
      if m != n { assert Apart(s.segments, m, n); }
      LogGrows(c, s.blocks, s.log, b, bytes, s.segments[m].number);
      if m == n {
        assert SegmentRows(c, t.blocks, t.log, s.segments[m].number) + [] ==
               SegmentRows(c, s.blocks, s.log, s.segments[m].number) + s.segments[m].pending;
      }
    }
  }

  lemma {:induction false} FlushOwners(c: Codec, s: State, t: State, n: nat, b: BlockRange, bytes: seq<u8>)
    requires StoreOk(c, s) && FlushStep(c, s, t, n, b, bytes)
    ensures BlocksOwned(t.blocks, t.nextSegmentNumber) && OpenOwns(t.segments, t.blocks)
  {
    assert SegmentAt(c, s, n);
    var bs := s.blocks;
    forall i | 0 <= i < |t.blocks|
      ensures Numbered(t.blocks, t.nextSegmentNumber, i)
    {
      if i < |bs| { assert Numbered(bs, s.nextSegmentNumber, i); }
    }
    forall i, j | 0 <= i < j < |t.blocks|
      ensures Consistent(t.blocks, i, j)
    {
      if j < |bs| { assert Consistent(bs, i, j); } else { assert Owns(s.segments, bs, n, i); }
    }
    forall x, y | 0 <= x < |t.segments| && 0 <= y < |t.segments| && x != y
      ensures Apart(t.segments, x, y)
    {
      assert Apart(s.segments, x, y);
    }
    forall m, i | 0 <= m < |t.segments| && 0 <= i < |t.blocks|
      ensures Owns(t.segments, t.blocks, m, i)
    {
      if i < |bs| { assert Owns(s.segments, bs, m, i); } else if m != n { assert Apart(s.segments, m, n); }
    }
  }

  lemma {:induction false} SameOpen(gs: seq<Segment>, hs: seq<Segment>, k: nat)
    requires |gs| == |hs| && forall m :: 0 <= m < |gs| ==> hs[m].open == gs[m].open && hs[m].number == gs[m].number
    ensures IsOpen(gs, k) == IsOpen(hs, k)
  {
    if IsOpen(gs, k) {
      var n :| OpenAt(gs, n, k);
      assert OpenAt(hs, n, k);
    }
    if IsOpen(hs, k) {
      var n :| OpenAt(hs, n, k);
      assert OpenAt(gs, n, k);
    }
  }

  lemma {:induction false} FlushFile(c: Codec, s: State, t: State, n: nat, b: BlockRange, bytes: seq<u8>, k: nat)
    requires StoreOk(c, s) && FlushStep(c, s, t, n, b, bytes)
    ensures Filed(c, t.files, t.config.producerEpoch, t.segments, t.blocks, t.log, t.nextSegmentNumber, k)
    ensures FileIndexed(c, t.files, t.index, t.blocks, t.log, k)
    ensures Accounted(t.files, t.segments, t.nextSegmentNumber, k)
  {
    assert Filed(c, s.files, s.config.producerEpoch, s.segments, s.blocks, s.log, s.nextSegmentNumber, k);
    assert FileIndexed(c, s.files, s.index, s.blocks, s.log, k);
    assert Accounted(s.files, s.segments, s.nextSegmentNumber, k);
    SameOpen(s.segments, t.segments, k);
    if k in s.files {
      assert OpenAt(s.segments, n, s.segments[n].number);
      LogGrows(c, s.blocks, s.log, b, bytes, k);
    }
  }

  lemma {:induction false} FlushStream(c: Codec, s: State, t: State, n: nat, b: BlockRange, bytes: seq<u8>, m: nat)
    requires StoreOk(c, s) && FlushStep(c, s, t, n, b, bytes) && m < |s.segments|
    ensures Stream(c, t, m) == Stream(c, s, m)
    ensures StreamAt(c, t, m)
  {
    LogGrows(c, s.blocks, s.log, b, bytes, m);
    assert StreamAt(c, s, m);
    if m == n {
      assert Stream(c, t, m) == ShardRows(c, s.blocks, s.log, m) + s.segments[m].pending + [];
    }
  }

  /** The streams of two writers over the same shards are the same. */
  ghost predicate SameStreams(c: Codec, s: State, t: State) {
    && |s.blocks| == |s.log| && |t.blocks| == |t.log| && |s.segments| == |t.segments|
    && forall m :: 0 <= m < |s.segments| ==> Stream(c, t, m) == Stream(c, s, m)
  }

  lemma {:induction false} FlushStepKeepsStore(c: Codec, s: State, t: State, n: nat, b: BlockRange, bytes: seq<u8>)
    requires StoreOk(c, s) && FlushStep(c, s, t, n, b, bytes)
    ensures StoreOk(c, t) && SameStreams(c, s, t)
  {
    FlushLog(c, s, t, n, b, bytes);
    FlushOwners(c, s, t, n, b, bytes);
    forall m | 0 <= m < |t.segments|
      ensures SegmentAt(c, t, m)
      ensures SegmentIndexed(c, t.segments[m], m, t.index, t.blocks, t.log)
      ensures Stream(c, t, m) == Stream(c, s, m)
      ensures StreamAt(c, t, m)
    {
      FlushSegments(c, s, t, n, b, bytes, m);
      FlushStream(c, s, t, n, b, bytes, m);
    }
    forall k: nat
      ensures Filed(c, t.files, t.config.producerEpoch, t.segments, t.blocks, t.log, t.nextSegmentNumber, k)
      ensures FileIndexed(c, t.files, t.index, t.blocks, t.log, k)
      ensures Accounted(t.files, t.segments, t.nextSegmentNumber, k)
    {
      FlushFile(c, s, t, n, b, bytes, k);
    }
    forall i | 0 <= i < |t.index|
      ensures EntryNumbered(t.index, t.nextSegmentNumber, i)
    {
      assert EntryNumbered(s.index, s.nextSegmentNumber, i);
    }
  }

  /** A flush keeps the store and every stream. */
  lemma {:induction false} FlushKeepsStore(c: Codec, s: State, n: nat)
    requires Lossless(c) && StoreOk(c, s) && n < |s.segments| && FlushBlock(c, s, n).Some?
    ensures StoreOk(c, FlushBlock(c, s, n).value) && SameStreams(c, s, FlushBlock(c, s, n).value)
    ensures s.blocks <= FlushBlock(c, s, n).value.blocks && s.log <= FlushBlock(c, s, n).value.log
  {
    assert SegmentAt(c, s, n);
    StoreBlockStep(c, s, n);
    if s.segments[n].pending != [] {
      var b, bytes :| FlushStep(c, s, FlushBlock(c, s, n).value, n, b, bytes);
      FlushStepKeepsStore(c, s, FlushBlock(c, s, n).value, n, b, bytes);
    }
  }

  /** `t` came from `s` by writing out rows: the log grew, the streams did not change. */
  ghost predicate WroteOut(c: Codec, s: State, t: State) {
    SameStreams(c, s, t) && s.blocks <= t.blocks && s.log <= t.log
  }

  lemma {:induction false} WroteOutTransitive(c: Codec, s: State, t: State, u: State)
    requires WroteOut(c, s, t) && WroteOut(c, t, u)
    ensures WroteOut(c, s, u)
  {
    forall m | 0 <= m < |s.segments|
      ensures Stream(c, u, m) == Stream(c, s, m)
    {
      assert Stream(c, t, m) == Stream(c, s, m);
    }
  }

  /** One step of the flushing loop, from a state already written out from `s`. */
  lemma {:induction false} FlushOneMore(c: Codec, s: State, t: State, n: nat, u: Option<State>)
    requires Lossless(c) && StoreOk(c, t) && WroteOut(c, s, t) && n < |t.segments|
    requires u == (if t.segments[n].open then FlushBlock(c, t, n) else Some(t)) && u.Some?
    ensures StoreOk(c, u.value) && WroteOut(c, s, u.value)
  {
    if t.segments[n].open {
      FlushKeepsStore(c, t, n);
      WroteOutTransitive(c, s, t, u.value);
    }
  }

  lemma {:induction false} FlushAllUnfold(c: Codec, s: State, k: nat)
    requires k < |s.segments| <= MAXIMUM_SHARDS && FlushAll(c, s, k + 1).Some?
    ensures FlushAll(c, s, k).Some?
    ensures var t := FlushAll(c, s, k).value;
            FlushAll(c, s, k + 1) == (if t.segments[k].open then FlushBlock(c, t, k) else Some(t))
  {
  }

  lemma {:induction false} WroteOutReflexive(c: Codec, s: State)
    requires |s.blocks| == |s.log|
    ensures WroteOut(c, s, s)
  {
  }

  lemma {:induction false} FlushAllKeepsStore(c: Codec, s: State, k: nat)
    requires Lossless(c) && StoreOk(c, s) && k <= |s.segments| && FlushAll(c, s, k).Some?
    ensures StoreOk(c, FlushAll(c, s, k).value) && WroteOut(c, s, FlushAll(c, s, k).value)
    decreases k
  {
    if k == 0 {
      WroteOutReflexive(c, s);
    } else {
      FlushAllUnfold(c, s, k - 1);
      FlushAllKeepsStore(c, s, k - 1);
      FlushOneMore(c, s, FlushAll(c, s, k - 1).value, k - 1, FlushAll(c, s, k));
    }
  }

  // --- Sealing ----------------------------------------------------------------------------------

  lemma {:induction false} CloseOpenSet(gs: seq<Segment>, n: nat, h: Segment, k: nat)
    requires n < |gs| && gs[n].open && !h.open
    requires forall m {:trigger Apart(gs, n, m)} :: 0 <= m < |gs| && m != n ==> Apart(gs, n, m)
    ensures IsOpen(gs[n := h], k) <==> IsOpen(gs, k) && k != gs[n].number
  {
    var hs := gs[n := h];
    if IsOpen(hs, k) {
      var m :| OpenAt(hs, m, k);
      assert OpenAt(gs, m, k) && Apart(gs, n, m);
    }
    if IsOpen(gs, k) && k != gs[n].number {
      var m :| OpenAt(gs, m, k);
      assert OpenAt(hs, m, k);
    }
  }

  lemma {:induction false} CloseFile(c: Codec, s: State, n: nat, k: nat)
    requires StoreOk(c, s) && n < |s.segments| && s.segments[n].open && s.segments[n].pending == []
    requires s.segments[n].recordCount > 0
    ensures var t := CloseSegment(s, n);
            && Filed(c, t.files, t.config.producerEpoch, t.segments, t.blocks, t.log, t.nextSegmentNumber, k)
            && FileIndexed(c, t.files, t.index, t.blocks, t.log, k)
            && Accounted(t.files, t.segments, t.nextSegmentNumber, k)
  {
    var t := CloseSegment(s, n);
    var g := s.segments[n];
    assert SegmentAt(c, s, n);
    assert SegmentIndexed(c, g, n, s.index, s.blocks, s.log);
    assert Filed(c, s.files, s.config.producerEpoch, s.segments, s.blocks, s.log, s.nextSegmentNumber, k);
    assert FileIndexed(c, s.files, s.index, s.blocks, s.log, k);
    assert Accounted(s.files, s.segments, s.nextSegmentNumber, k);
    CloseOpenSet(s.segments, n, t.segments[n], k);
    if k == g.number {
      assert SegmentRows(c, s.blocks, s.log, k) + [] == SegmentRows(c, s.blocks, s.log, k);
      forall i | 0 <= i < |s.blocks| && s.blocks[i].segmentNumber == k
        ensures s.blocks[i].shardIndex == n
      {
        assert Owns(s.segments, s.blocks, n, i);
      }
    }
  }

  lemma {:induction false} CloseSegments(c: Codec, s: State, n: nat, m: nat)
    requires StoreOk(c, s) && n < |s.segments| && m < |s.segments| && s.segments[n].open && s.segments[n].pending == []
    ensures var t := CloseSegment(s, n);
            && SegmentAt(c, t, m)
            && SegmentIndexed(c, t.segments[m], m, t.index, t.blocks, t.log)
            && Stream(c, t, m) == Stream(c, s, m)
            && StreamAt(c, t, m)
  {
    assert SegmentAt(c, s, m);
    assert SegmentIndexed(c, s.segments[m], m, s.index, s.blocks, s.log);
    assert StreamAt(c, s, m);
  }

  lemma {:induction false} CloseOwners(gs: seq<Segment>, bs: seq<BlockRange>, n: nat, h: Segment)
    requires OpenOwns(gs, bs) && n < |gs| && !h.open
    ensures OpenOwns(gs[n := h], bs)
  {
    var hs := gs[n := h];
    forall x, y | 0 <= x < |hs| && 0 <= y < |hs| && x != y
      ensures Apart(hs, x, y)
    {
      assert Apart(gs, x, y);
    }
    forall m, i | 0 <= m < |hs| && 0 <= i < |bs|
      ensures Owns(hs, bs, m, i)
    {
      assert Owns(gs, bs, m, i);
    }
  }

  lemma {:induction false} CloseKeepsStore(c: Codec, s: State, n: nat)
    requires StoreOk(c, s) && n < |s.segments| && s.segments[n].open && s.segments[n].pending == []
    requires s.segments[n].recordCount > 0
    ensures StoreOk(c, CloseSegment(s, n)) && SameStreams(c, s, CloseSegment(s, n))
    ensures s.segments[n].number !in s.files
  {
    var t := CloseSegment(s, n);
    CloseOwners(s.segments, s.blocks, n, t.segments[n]);
    assert OpenAt(s.segments, n, s.segments[n].number);
    assert Filed(c, s.files, s.config.producerEpoch, s.segments, s.blocks, s.log, s.nextSegmentNumber,
        s.segments[n].number);
    forall m | 0 <= m < |t.segments|
      ensures SegmentAt(c, t, m)
      ensures SegmentIndexed(c, t.segments[m], m, t.index, t.blocks, t.log)
      ensures Stream(c, t, m) == Stream(c, s, m)
      ensures StreamAt(c, t, m)
    {
      CloseSegments(c, s, n, m);
    }
    forall k: nat
      ensures Filed(c, t.files, t.config.producerEpoch, t.segments, t.blocks, t.log, t.nextSegmentNumber, k)
      ensures FileIndexed(c, t.files, t.index, t.blocks, t.log, k)
      ensures Accounted(t.files, t.segments, t.nextSegmentNumber, k)
    {
      CloseFile(c, s, n, k);
    }
  }

  /** Sealing a segment keeps the store and every stream. */
  lemma {:induction false} SealKeepsStore(c: Codec, s: State, n: nat)
    requires Lossless(c) && StoreOk(c, s) && Occupied(s) && n < |s.segments| && SealSegment(c, s, n).Some?
    ensures var t := SealSegment(c, s, n).value;
            && StoreOk(c, t) && WroteOut(c, s, t) && Occupied(t) && !t.segments[n].open
            && (forall m :: 0 <= m < |s.segments| && m != n ==> t.segments[m] == s.segments[m])
            && |t.files| - |s.files| == t.manifest.segmentCount - s.manifest.segmentCount
  {
    if s.segments[n].open {
      var f := FlushBlock(c, s, n).value;
      FlushKeepsStore(c, s, n);
      FlushBlockFrame(c, s, n);
      CloseKeepsStore(c, f, n);
      WroteOutTransitive(c, s, f, CloseSegment(f, n));
    }
  }

  lemma {:induction false} SealAllKeepsStore(c: Codec, s: State, k: nat)
    requires Lossless(c) && StoreOk(c, s) && Occupied(s) && k <= |s.segments| && SealAll(c, s, k).Some?
    ensures var t := SealAll(c, s, k).value;
            && StoreOk(c, t) && WroteOut(c, s, t) && Occupied(t)
            && (forall m :: 0 <= m < k ==> !t.segments[m].open)
            && |t.files| - |s.files| == t.manifest.segmentCount - s.manifest.segmentCount
    decreases k
  {
    if k > 0 {
      SealAllKeepsStore(c, s, k - 1);
      SealKeepsStore(c, SealAll(c, s, k - 1).value, k - 1);
      WroteOutTransitive(c, s, SealAll(c, s, k - 1).value, SealAll(c, s, k).value);
    }
  }

  // === Opening a segment and taking a row ====================================================================

  // --- A fresh segment number -------------------------------------------------------------------

  lemma {:induction false} UnusedNumber(c: Codec, bs: seq<BlockRange>, log: seq<seq<u8>>, k: nat)
    requires |bs| == |log| && forall i :: 0 <= i < |bs| ==> bs[i].segmentNumber != k
    ensures StoredOf(bs, k) == 0 && CountOf(bs, k) == 0 && SegmentRows(c, bs, log, k) == []
    decreases |bs|
  {
    if bs != [] { UnusedNumber(c, bs[..|bs| - 1], log[..|log| - 1], k); }
  }

  lemma {:induction false} FreshNumber(c: Codec, s: State)
    requires StoreOk(c, s)
    ensures StoredOf(s.blocks, s.nextSegmentNumber) == 0 && CountOf(s.blocks, s.nextSegmentNumber) == 0
    ensures SegmentRows(c, s.blocks, s.log, s.nextSegmentNumber) == []
    ensures EntriesOf(s.index, s.nextSegmentNumber) == []
    ensures forall i :: 0 <= i < |s.index| ==> s.index[i].segmentNumber != s.nextSegmentNumber
  {
    forall i | 0 <= i < |s.blocks|
      ensures s.blocks[i].segmentNumber != s.nextSegmentNumber
    {
      assert Numbered(s.blocks, s.nextSegmentNumber, i);
    }
    UnusedNumber(c, s.blocks, s.log, s.nextSegmentNumber);
    forall i | 0 <= i < |s.index|
      ensures s.index[i].segmentNumber != s.nextSegmentNumber
    {
      assert EntryNumbered(s.index, s.nextSegmentNumber, i);
    }
    NoEntries(s.index, s.nextSegmentNumber);
  }

  lemma {:induction false} OpenSegments(c: Codec, s: State, n: nat, m: nat)
    requires Incremental(c) && StoreOk(c, s) && n < |s.segments| && m < |s.segments| && !s.segments[n].open
    ensures var t := OpenSegment(s, n);
            && SegmentAt(c, t, m)
            && SegmentIndexed(c, t.segments[m], m, t.index, t.blocks, t.log)
            && Stream(c, t, m) == Stream(c, s, m)
            && StreamAt(c, t, m)
  {
    assert SegmentAt(c, s, m);
    assert SegmentIndexed(c, s.segments[m], m, s.index, s.blocks, s.log);
    assert StreamAt(c, s, m);
    assert InPieces(c, 0, [], []);
    FreshNumber(c, s);
  }

  lemma {:induction false} OpenFile(c: Codec, s: State, n: nat, k: nat)
    requires StoreOk(c, s) && n < |s.segments| && !s.segments[n].open
    ensures var t := OpenSegment(s, n);
            && Filed(c, t.files, t.config.producerEpoch, t.segments, t.blocks, t.log, t.nextSegmentNumber, k)
            && FileIndexed(c, t.files, t.index, t.blocks, t.log, k)
            && Accounted(t.files, t.segments, t.nextSegmentNumber, k)
  {
    var t := OpenSegment(s, n);
    assert Filed(c, s.files, s.config.producerEpoch, s.segments, s.blocks, s.log, s.nextSegmentNumber, k);
    assert FileIndexed(c, s.files, s.index, s.blocks, s.log, k);
    assert Accounted(s.files, s.segments, s.nextSegmentNumber, k);
    if k in s.files && IsOpen(t.segments, k) {
      var m :| OpenAt(t.segments, m, k);
      assert OpenAt(s.segments, m, k);
    }
    if IsOpen(s.segments, k) {
      var m :| OpenAt(s.segments, m, k);
      assert OpenAt(t.segments, m, k);
    }
    if k == s.nextSegmentNumber { assert OpenAt(t.segments, n, k); }
  }

  lemma {:induction false} OpenOwners(c: Codec, s: State, n: nat)
    requires StoreOk(c, s) && n < |s.segments| && !s.segments[n].open
    ensures var t := OpenSegment(s, n);
            BlocksOwned(t.blocks, t.nextSegmentNumber) && OpenOwns(t.segments, t.blocks)
  {
    var t := OpenSegment(s, n);
    forall i | 0 <= i < |t.blocks|
      ensures Numbered(t.blocks, t.nextSegmentNumber, i)
    {
      assert Numbered(s.blocks, s.nextSegmentNumber, i);
    }
    forall x, y | 0 <= x < |t.segments| && 0 <= y < |t.segments| && x != y
      ensures Apart(t.segments, x, y)
    {
      assert Apart(s.segments, x, y) && SegmentAt(c, s, x) && SegmentAt(c, s, y);
    }
    forall m, i | 0 <= m < |t.segments| && 0 <= i < |t.blocks|
      ensures Owns(t.segments, t.blocks, m, i)
    {
      assert Owns(s.segments, s.blocks, m, i) && Numbered(s.blocks, s.nextSegmentNumber, i);
    }
  }

  lemma {:induction false} OpenKeepsStore(c: Codec, s: State, n: nat)
    requires Incremental(c) && StoreOk(c, s) && n < |s.segments| && !s.segments[n].open
    ensures StoreOk(c, OpenSegment(s, n)) && WroteOut(c, s, OpenSegment(s, n))
  {
    var t := OpenSegment(s, n);
    OpenOwners(c, s, n);
    forall m | 0 <= m < |t.segments|
      ensures SegmentAt(c, t, m)
      ensures SegmentIndexed(c, t.segments[m], m, t.index, t.blocks, t.log)
      ensures Stream(c, t, m) == Stream(c, s, m)
      ensures StreamAt(c, t, m)
    {
      OpenSegments(c, s, n, m);
    }
    forall k: nat
      ensures Filed(c, t.files, t.config.producerEpoch, t.segments, t.blocks, t.log, t.nextSegmentNumber, k)
      ensures FileIndexed(c, t.files, t.index, t.blocks, t.log, k)
      ensures Accounted(t.files, t.segments, t.nextSegmentNumber, k)
    {
      OpenFile(c, s, n, k);
    }
    forall i | 0 <= i < |t.index|
      ensures EntryNumbered(t.index, t.nextSegmentNumber, i)
    {
      assert EntryNumbered(s.index, s.nextSegmentNumber, i);
    }
  }

  // --- Changes the store does not look at -------------------------------------------------------

  /** The store depends on nothing but these fields, and on the source count only as an upper bound. */
  ghost predicate SameStore(s: State, t: State) {
    && t.blocks == s.blocks && t.log == s.log && t.cache == s.cache && t.files == s.files && t.index == s.index
    && t.segments == s.segments && t.depth == s.depth && t.nextSegmentNumber == s.nextSegmentNumber
    && t.config.producerEpoch == s.config.producerEpoch
    && |t.sourceStates| == |t.sources| && |s.sources| <= |t.sources|
  }

  lemma {:induction false} SameStoreKeeps(c: Codec, s: State, t: State)
    requires StoreOk(c, s) && SameStore(s, t)
    ensures StoreOk(c, t) && WroteOut(c, s, t)
  {
    forall m | 0 <= m < |t.segments|
      ensures SegmentAt(c, t, m) && StreamAt(c, t, m)
      ensures SegmentIndexed(c, t.segments[m], m, t.index, t.blocks, t.log)
    {
      assert SegmentAt(c, s, m) && StreamAt(c, s, m) && Stream(c, t, m) == Stream(c, s, m);
      assert SegmentIndexed(c, s.segments[m], m, s.index, s.blocks, s.log);
    }
    forall k: nat
      ensures Filed(c, t.files, t.config.producerEpoch, t.segments, t.blocks, t.log, t.nextSegmentNumber, k)
      ensures FileIndexed(c, t.files, t.index, t.blocks, t.log, k)
    {
      assert Filed(c, s.files, s.config.producerEpoch, s.segments, s.blocks, s.log, s.nextSegmentNumber, k);
      assert FileIndexed(c, s.files, s.index, s.blocks, s.log, k);
    }
  }

  // --- Taking a row -----------------------------------------------------------------------------

  /** What taking row r into shard n means for the store. */
  ghost predicate RowStep(c: Codec, s: State, t: State, n: nat, r: Record) {
    && n < |s.segments| && s.segments[n].open && r.shardIndex == n
    && |t.segments| == |s.segments|
    && (forall m :: 0 <= m < |s.segments| && m != n ==> t.segments[m] == s.segments[m])
    && t.blocks == s.blocks && t.log == s.log && t.cache == s.cache && t.files == s.files
    && t.nextSegmentNumber == s.nextSegmentNumber && t.config == s.config
    && |t.sources| == |s.sources| && |t.sourceStates| == |t.sources|
    && |s.depth| == |s.segments| && |t.depth| == |t.segments|
    && (forall m :: 0 <= m < |s.segments| && m != n ==> t.depth[m] == s.depth[m])
    && (var g, h := s.segments[n], t.segments[n];
        && h.open && h.number == g.number && h.pending == g.pending + [r]
        && h.storedBytes == g.storedBytes && h.blockCount == g.blockCount
        && h.projectedBytes == g.projectedBytes + PendingRecordBytes(c)
        && h.recordCount == g.recordCount + 1 && h.recordsCrc == c.crcRows(g.recordsCrc, [r])
        && h.firstReceiveNs == MinReceive(g.firstReceiveNs, r) && h.lastReceiveNs == MaxReceive(g.lastReceiveNs, r)
        && h.previousSequence == r.shardSequence && h.previousMonotonicNs == r.receiveMonotonicNs
        && (if KeyOf(r) in g.positions then
              var at := g.positions[KeyOf(r)];
              at < |s.index| && t.index == s.index[at := Touch(s.index[at], r)] && h.positions == g.positions
            else
              && t.index == s.index + [Touch(Fresh(g.number, n, KeyOf(r)), r)]
              && h.positions == g.positions[KeyOf(r) := |s.index|]))
  }

  lemma {:induction false} TakeIsStep(c: Codec, s: State, r: Record, v: Verdict)
    requires Shape(s) && v.Accept? && r.shardIndex < |s.segments| && 0 < r.sourceId <= |s.sources|
    requires PositionedAt(s, r.shardIndex) && s.segments[r.shardIndex].open
    ensures RowStep(c, s, TakeRow(c, s, r, v), r.shardIndex, r)
    ensures TakeRow(c, s, r, v).depth[r.shardIndex] == v.transaction
    ensures TakeRow(c, s, r, v).sourceStates == s.sourceStates[r.sourceId - 1 := v.source]
    ensures TakeRow(c, s, r, v).sources == s.sources
  {
  }

  /** The row may join its pending block and stream. */
  ghost predicate RowFits(s: State, t: State, n: nat, r: Record) {
    && n < |s.segments| && n < |s.depth| && n < |t.depth|
    && ValidRecord(r) && r.tailZero && r.sourceId <= |s.sources|
    && |s.segments[n].pending| < BLOCK_RECORDS
    && (s.segments[n].pending != [] ==> s.segments[n].pending[0].channel == r.channel)
    && InOrder(s.segments[n], r)
    && DT.Advance(r, s.depth[n]) == Some(t.depth[n])
  }

  lemma {:induction false} DescribesAppend(
      c: Codec, rows: seq<Record>, count: nat, crc: u32, first: int, last: int, r: Record)
    requires Incremental(c) && Describes(c, rows, count, crc, first, last)
    ensures Describes(c, rows + [r], count + 1, c.crcRows(crc, [r]), MinReceive(first, r), MaxReceive(last, r))
  {
    ReceiveAppend(rows, r);
    assert InPieces(c, 0, rows, [r]);
  }

  lemma {:induction false} OneMoreRow(rows: nat, unit: nat)
    ensures (rows + 1) * unit == rows * unit + unit
  {
  }

  lemma {:induction false} RowSegment(c: Codec, s: State, t: State, n: nat, r: Record)
    requires Incremental(c) && StoreOk(c, s) && RowStep(c, s, t, n, r) && RowFits(s, t, n, r)
    ensures SegmentAt(c, t, n)
  {
    assert SegmentAt(c, s, n);
    var g := s.segments[n];
    var stored := SegmentRows(c, s.blocks, s.log, g.number);
    assert stored + t.segments[n].pending == stored + g.pending + [r];
    DescribesAppend(c, stored + g.pending, g.recordCount, g.recordsCrc, g.firstReceiveNs, g.lastReceiveNs, r);
    OneMoreRow(|g.pending|, PendingRecordBytes(c));
  }

  lemma {:induction false} RowPositions(c: Codec, s: State, t: State, n: nat, r: Record)
    requires StoreOk(c, s) && RowStep(c, s, t, n, r)
    ensures PositionsOk(t.segments[n], t.index)
    ensures EntriesOf(t.index, s.segments[n].number) == Observe(EntriesOf(s.index, s.segments[n].number),
            s.segments[n].number, n, r)
  {
    var g := s.segments[n];
    assert SegmentIndexed(c, g, n, s.index, s.blocks, s.log);
    if KeyOf(r) in g.positions {
      TouchInPlace(s.index, g.positions[KeyOf(r)], g.number, n, r);
    } else {
      AddAtEnd(s.index, g.number, n, r);
    }
  }

  lemma {:induction false} RowIndexed(c: Codec, s: State, t: State, n: nat, r: Record)
    requires StoreOk(c, s) && RowStep(c, s, t, n, r)
    ensures SegmentIndexed(c, t.segments[n], n, t.index, t.blocks, t.log)
  {
    var g := s.segments[n];
    RowPositions(c, s, t, n, r);
    assert SegmentIndexed(c, g, n, s.index, s.blocks, s.log);
    var rows := SegmentRows(c, s.blocks, s.log, g.number) + g.pending;
    assert SegmentRows(c, t.blocks, t.log, g.number) + t.segments[n].pending == rows + [r];
    RecomputeAppend(g.number, n, rows, r);
  }

  lemma {:induction false} RowElsewhere(s: State, t: State, c: Codec, n: nat, r: Record, k: nat)
    requires StoreOk(c, s) && RowStep(c, s, t, n, r) && k != s.segments[n].number
    ensures EntriesOf(t.index, k) == EntriesOf(s.index, k)
  {
    var g := s.segments[n];
    assert SegmentIndexed(c, g, n, s.index, s.blocks, s.log);
    if KeyOf(r) in g.positions {
      OtherSegments(s.index, g.positions[KeyOf(r)], Touch(s.index[g.positions[KeyOf(r)]], r), k);
    } else {
      OtherSegments(s.index, |s.index|, Touch(Fresh(g.number, n, KeyOf(r)), r), k);
    }
  }

  lemma {:induction false} RowOthers(c: Codec, s: State, t: State, n: nat, r: Record, m: nat)
    requires StoreOk(c, s) && RowStep(c, s, t, n, r) && m < |s.segments| && m != n
    ensures SegmentAt(c, t, m) && StreamAt(c, t, m) && Stream(c, t, m) == Stream(c, s, m)
    ensures SegmentIndexed(c, t.segments[m], m, t.index, t.blocks, t.log)
  {
    assert SegmentAt(c, s, m) && StreamAt(c, s, m);
    assert SegmentIndexed(c, s.segments[m], m, s.index, s.blocks, s.log);
    if s.segments[m].open {
      assert Apart(s.segments, m, n);
      RowElsewhere(s, t, c, n, r, s.segments[m].number);
      assert SegmentIndexed(c, s.segments[n], n, s.index, s.blocks, s.log);
    }
  }

  lemma {:induction false} SortedAppend(rows: seq<Record>, r: Record)
    requires DT.Sorted(rows)
    requires rows != [] ==> rows[|rows| - 1].shardSequence < r.shardSequence
    requires rows != [] ==> rows[|rows| - 1].receiveMonotonicNs <= r.receiveMonotonicNs
    ensures DT.Sorted(rows + [r])
  {
    forall i, j | 0 <= i < j < |rows + [r]|
      ensures (rows + [r])[i].shardSequence < (rows + [r])[j].shardSequence
      ensures (rows + [r])[i].receiveMonotonicNs <= (rows + [r])[j].receiveMonotonicNs
    {
      if j == |rows| && i < |rows| - 1 { assert rows[i].shardSequence < rows[|rows| - 1].shardSequence; }
    }
  }

  lemma {:induction false} RowStream(c: Codec, s: State, t: State, n: nat, r: Record)
    requires StoreOk(c, s) && RowStep(c, s, t, n, r) && RowFits(s, t, n, r)
    ensures Stream(c, t, n) == Stream(c, s, n) + [r] && StreamAt(c, t, n)
  {
    assert StreamAt(c, s, n);
    var rows := Stream(c, s, n);
    assert Stream(c, t, n) == rows + [r];
    assert rows != [] ==> ValidRecord(rows[|rows| - 1]);
    SortedAppend(rows, r);
    DT.ReplayAppend(rows, r);
  }

  lemma {:induction false} RowFile(c: Codec, s: State, t: State, n: nat, r: Record, k: nat)
    requires StoreOk(c, s) && RowStep(c, s, t, n, r)
    ensures Filed(c, t.files, t.config.producerEpoch, t.segments, t.blocks, t.log, t.nextSegmentNumber, k)
    ensures FileIndexed(c, t.files, t.index, t.blocks, t.log, k)
    ensures Accounted(t.files, t.segments, t.nextSegmentNumber, k)
  {
    assert Filed(c, s.files, s.config.producerEpoch, s.segments, s.blocks, s.log, s.nextSegmentNumber, k);
    assert FileIndexed(c, s.files, s.index, s.blocks, s.log, k);
    assert Accounted(s.files, s.segments, s.nextSegmentNumber, k);
    SameOpen(s.segments, t.segments, k);
    if k in s.files {
      assert OpenAt(s.segments, n, s.segments[n].number);
      RowElsewhere(s, t, c, n, r, k);
    }
  }

  lemma {:induction false} RowOwners(c: Codec, s: State, t: State, n: nat, r: Record)
    requires StoreOk(c, s) && RowStep(c, s, t, n, r)
    ensures OpenOwns(t.segments, t.blocks)
    ensures forall i {:trigger EntryNumbered(t.index, t.nextSegmentNumber, i)} :: 0 <= i < |t.index| ==>
            EntryNumbered(t.index, t.nextSegmentNumber, i)
  {
    forall x, y | 0 <= x < |t.segments| && 0 <= y < |t.segments| && x != y
      ensures Apart(t.segments, x, y)
    {
      assert Apart(s.segments, x, y);
    }
    forall m, i | 0 <= m < |t.segments| && 0 <= i < |t.blocks|
      ensures Owns(t.segments, t.blocks, m, i)
    {
      assert Owns(s.segments, s.blocks, m, i);
    }
    forall i | 0 <= i < |t.index|
      ensures EntryNumbered(t.index, t.nextSegmentNumber, i)
    {
      if i < |s.index| { assert EntryNumbered(s.index, s.nextSegmentNumber, i); } else { assert SegmentAt(c, s, n); }
    }
  }

  /** Shard n's stream grew by r and no other stream changed. */
  ghost predicate StreamGrew(c: Codec, s: State, t: State, n: nat, r: Record) {
    && |s.blocks| == |s.log| && |t.blocks| == |t.log| && |s.segments| == |t.segments| && n < |s.segments|
    && s.blocks <= t.blocks && s.log <= t.log
    && forall m :: 0 <= m < |s.segments| ==> Stream(c, t, m) == if m == n then Stream(c, s, m) + [r]
        else Stream(c, s, m)
  }

  lemma {:induction false} RowStepKeepsStore(c: Codec, s: State, t: State, n: nat, r: Record)
    requires Incremental(c) && StoreOk(c, s) && RowStep(c, s, t, n, r) && RowFits(s, t, n, r)
    ensures StoreOk(c, t) && StreamGrew(c, s, t, n, r)
  {
    RowOwners(c, s, t, n, r);
    forall m | 0 <= m < |t.segments|
      ensures SegmentAt(c, t, m) && StreamAt(c, t, m)
      ensures SegmentIndexed(c, t.segments[m], m, t.index, t.blocks, t.log)
      ensures Stream(c, t, m) == if m == n then Stream(c, s, m) + [r] else Stream(c, s, m)
    {
      if m == n {
        RowSegment(c, s, t, n, r);
        RowIndexed(c, s, t, n, r);
        RowStream(c, s, t, n, r);
      } else {
        RowOthers(c, s, t, n, r, m);
      }
    }
    forall k: nat
      ensures Filed(c, t.files, t.config.producerEpoch, t.segments, t.blocks, t.log, t.nextSegmentNumber, k)
      ensures FileIndexed(c, t.files, t.index, t.blocks, t.log, k)
      ensures Accounted(t.files, t.segments, t.nextSegmentNumber, k)
    {
      RowFile(c, s, t, n, r, k);
    }
  }

  // === Appending =============================================================================================

  /** A row that passed judgement fits the stream it is for. */
  ghost predicate Judged(s: State, r: Record, v: Verdict) {
    && Admitted(s, r, v) && |s.depth| == |s.segments|
    && ValidRecord(r) && r.tailZero && InOrder(s.segments[r.shardIndex], r)
    && DT.Advance(r, s.depth[r.shardIndex]) == Some(v.transaction)
  }

  lemma {:induction false} JudgeIsSound(s: State, r: Record)
    requires Shape(s) && Judge(s, r).Accept?
    ensures Judged(s, r, Judge(s, r))
  {
    JudgeAdmits(s, r);
  }

  /** The row's pending block takes it without a flush. */
  ghost predicate Room(g: Segment, r: Record) {
    |g.pending| < BLOCK_RECORDS && (g.pending != [] ==> g.pending[0].channel == r.channel)
  }

  /** The fields seating may change. */
  ghost predicate SeatFrame(s: State, t: State, n: nat) {
    && n < |s.segments| == |t.segments|
    && t.segments[n].open
    && (t.segments[n].pending == [] || t.segments[n].pending == s.segments[n].pending)
    && t.segments[n].previousSequence == s.segments[n].previousSequence
    && t.segments[n].previousMonotonicNs == s.segments[n].previousMonotonicNs
    && (forall m :: 0 <= m < |s.segments| && m != n ==> t.segments[m] == s.segments[m])
    && |t.files| - |s.files| == t.manifest.segmentCount - s.manifest.segmentCount
    && t.manifest == s.manifest.(segmentCount := t.manifest.segmentCount)
    && t == s.(blocks := t.blocks, log := t.log, cache := t.cache, projectedBytes := t.projectedBytes,
               segments := t.segments, files := t.files, nextSegmentNumber := t.nextSegmentNumber,
                   manifest := t.manifest)
  }

  /** Seating leaves the streams alone and shard n open with room for the row. */
  ghost predicate Seated(c: Codec, s: State, t: State, n: nat) {
    StoreOk(c, t) && WroteOut(c, s, t) && SeatFrame(s, t, n)
  }

  lemma {:induction false} SealFrame(c: Codec, s: State, n: nat)
    requires n < |s.segments| <= 0x1_0000 && SealSegment(c, s, n).Some?
    ensures var t := SealSegment(c, s, n).value;
            && t == s.(blocks := t.blocks, log := t.log, cache := t.cache, projectedBytes := t.projectedBytes,
                       segments := t.segments, files := t.files, manifest := t.manifest)
            && t.manifest == s.manifest.(segmentCount := t.manifest.segmentCount)
            && t.segments[n].previousSequence == s.segments[n].previousSequence
            && t.segments[n].previousMonotonicNs == s.segments[n].previousMonotonicNs
  {
    if s.segments[n].open { FlushBlockFrame(c, s, n); }
  }

  lemma {:induction false} SeatKeepsStore(c: Codec, s: State, n: nat, rotate: bool, openNeeded: bool)
    requires Lawful(c) && StoreOk(c, s) && Occupied(s) && n < |s.segments| && PositionedAt(s, n)
    requires (rotate ==> openNeeded && s.segments[n].open) && (openNeeded <==> rotate || !s.segments[n].open)
    requires SeatRow(c, s, n, rotate, openNeeded).Some?
    ensures Seated(c, s, SeatRow(c, s, n, rotate, openNeeded).value, n)
  {
    if rotate {
      var t := SealSegment(c, s, n).value;
      SealKeepsStore(c, s, n);
      SealFrame(c, s, n);
      OpenKeepsStore(c, t, n);
      WroteOutTransitive(c, s, t, OpenSegment(t, n));
    } else if openNeeded {
      OpenKeepsStore(c, s, n);
    } else {
      WroteOutReflexive(c, s);
    }
  }

  /** The row is taken into a seated state. */
  lemma {:induction false} TakeKeepsStore(c: Codec, s: State, t: State, d: State, r: Record, v: Verdict)
    requires Incremental(c) && Judged(s, r, v) && Room(s.segments[r.shardIndex], r)
    requires Seated(c, s, t, r.shardIndex)
    requires d == AddSource(t, v.added, v.source) && Shape(d) && PositionedAt(d, r.shardIndex)
    ensures StoreOk(c, TakeRow(c, d, r, v)) && StreamGrew(c, s, TakeRow(c, d, r, v), r.shardIndex, r)
  {
    SameStoreKeeps(c, t, d);
    TakeIsStep(c, d, r, v);
    RowStepKeepsStore(c, d, TakeRow(c, d, r, v), r.shardIndex, r);
    forall m | 0 <= m < |s.segments|
      ensures Stream(c, d, m) == Stream(c, s, m)
    {
      assert Stream(c, t, m) == Stream(c, s, m) && Stream(c, d, m) == Stream(c, t, m);
    }
  }

  lemma {:induction false} TakeOccupied(c: Codec, s: State, t: State, d: State, r: Record, v: Verdict)
    requires Occupied(s) && Admitted(s, r, v) && Seated(c, s, t, r.shardIndex)
    requires d == AddSource(t, v.added, v.source) && Shape(d) && PositionedAt(d, r.shardIndex)
    ensures Occupied(TakeRow(c, d, r, v))
  {
    TakeIsStep(c, d, r, v);
  }

  /** Where a row's bytes do not matter: neither does the reservation. */
  lemma {:induction false} ReserveKeepsStore(c: Codec, s: State, p: Plan, newSource: bool)
    requires StoreOk(c, s)
    ensures StoreOk(c, Reserve(c, s, p, newSource)) && WroteOut(c, s, Reserve(c, s, p, newSource))
  {
    SameStoreKeeps(c, s, Reserve(c, s, p, newSource));
  }

  /** What committing a row does beside buffering it. */
  ghost predicate RowFields(s: State, t: State, r: Record, v: Verdict) {
    && Admitted(s, r, v) && Shape(s) && |t.segments| == |s.segments|
    && t.sources == s.sources + (if v.added.Some? then [v.added.value] else [])
    && t.sourceStates == (s.sourceStates + (if v.added.Some? then [v.source] else []))[r.sourceId - 1 := v.source]
    && t.depth == s.depth[r.shardIndex := v.transaction]
    && t.segments[r.shardIndex].previousSequence == r.shardSequence
    && (forall m :: 0 <= m < |s.segments| && m != r.shardIndex ==>
         t.segments[m].previousSequence == s.segments[m].previousSequence)
    && |t.files| - |s.files| == t.manifest.segmentCount - s.manifest.segmentCount
    && t.manifest == CountRow(s.manifest, r).(segmentCount := t.manifest.segmentCount,
        sourceCount := t.manifest.sourceCount)
    && t == s.(blocks := t.blocks, log := t.log, cache := t.cache, projectedBytes := t.projectedBytes,
        segments := t.segments,
               files := t.files, nextSegmentNumber := t.nextSegmentNumber, manifest := t.manifest, index := t.index,
               sources := t.sources, sourceStates := t.sourceStates, depth := t.depth,
                   cutReservedBytes := t.cutReservedBytes,
               maximumGapRecords := t.maximumGapRecords)
  }

  lemma {:induction false} TakeFields(c: Codec, s: State, t: State, d: State, r: Record, v: Verdict)
    requires Admitted(s, r, v) && Shape(s) && SeatFrame(s, t, r.shardIndex)
    requires d == AddSource(t, v.added, v.source) && Shape(d) && PositionedAt(d, r.shardIndex)
    ensures RowFields(s, TakeRow(c, d, r, v), r, v)
  {
    TakeIsStep(c, d, r, v);
    TakeMore(c, d, r, v);
    AddSourceFields(t, v.added, v.source);
    FieldsCompose(c, s, t, d, TakeRow(c, d, r, v), r, v);
  }

  lemma {:induction false} AddSourceFields(t: State, added: Option<Source>, source: SS.State)
    ensures var d := AddSource(t, added, source);
            && d.sources == t.sources + (if added.Some? then [added.value] else [])
            && d.sourceStates == t.sourceStates + (if added.Some? then [source] else [])
            && d.manifest == t.manifest.(sourceCount := d.manifest.sourceCount)
            && d == t.(sources := d.sources, sourceStates := d.sourceStates, manifest := d.manifest,
                maximumGapRecords := d.maximumGapRecords)
  {
  }

  lemma {:induction false} FieldsCompose(c: Codec, s: State, t: State, d: State, u: State, r: Record, v: Verdict)
    requires Admitted(s, r, v) && Shape(s) && SeatFrame(s, t, r.shardIndex)
    requires d.sources == t.sources + (if v.added.Some? then [v.added.value] else [])
    requires d.sourceStates == t.sourceStates + (if v.added.Some? then [v.source] else [])
    requires d.manifest == t.manifest.(sourceCount := d.manifest.sourceCount)
    requires d == t.(sources := d.sources, sourceStates := d.sourceStates, manifest := d.manifest,
              maximumGapRecords := d.maximumGapRecords)
    requires RowStep(c, d, u, r.shardIndex, r) && u.sourceStates == d.sourceStates[r.sourceId - 1 := v.source]
    requires u.depth == d.depth[r.shardIndex := v.transaction] && u.manifest == CountRow(d.manifest, r)
    requires u == d.(index := u.index, segments := u.segments, sourceStates := u.sourceStates, depth := u.depth,
              manifest := u.manifest)
    ensures RowFields(s, u, r, v)
  {
  }

  lemma {:induction false} TakeMore(c: Codec, s: State, r: Record, v: Verdict)
    requires Shape(s) && v.Accept? && r.shardIndex < |s.segments| && 0 < r.sourceId <= |s.sources|
    requires PositionedAt(s, r.shardIndex)
    ensures var t := TakeRow(c, s, r, v);
            && t.depth == s.depth[r.shardIndex := v.transaction] && t.manifest == CountRow(s.manifest, r)
            && t == s.(index := t.index, segments := t.segments, sourceStates := t.sourceStates, depth := t.depth,
                       manifest := t.manifest)
  {
  }

  /** The row is the next of its stream, the store holds, and the fields moved as they should. */
  ghost predicate Committed(c: Codec, s: State, t: State, r: Record, v: Verdict) {
    StoreOk(c, t) && Occupied(t) && StreamGrew(c, s, t, r.shardIndex, r) && RowFields(s, t, r, v)
  }

  lemma {:induction false} CommittedFromReserved(c: Codec, s: State, a: State, t: State, r: Record, v: Verdict)
    requires Committed(c, a, t, r, v)
    requires a == s.(projectedBytes := a.projectedBytes, cutReservedBytes := a.cutReservedBytes)
    ensures Committed(c, s, t, r, v)
  {
    forall m | 0 <= m < |s.segments|
      ensures Stream(c, a, m) == Stream(c, s, m)
    {
    }
  }

  /** The middle of a commit, from the reserved state on. */
  lemma {:induction false} CommitReserved(c: Codec, a: State, b: State, d: State, r: Record, v: Verdict)
    requires Lawful(c) && Occupied(a) && Shape(a) && Judged(a, r, v) && Room(a.segments[r.shardIndex], r)
    requires Seated(c, a, b, r.shardIndex)
    requires d == AddSource(b, v.added, v.source) && Shape(d) && PositionedAt(d, r.shardIndex)
    ensures Committed(c, a, TakeRow(c, d, r, v), r, v)
  {
    TakeKeepsStore(c, a, b, d, r, v);
    TakeOccupied(c, a, b, d, r, v);
    TakeFields(c, a, b, d, r, v);
  }

  /** The stages a committed row went through. */
  lemma {:induction false} CommitStages(
      c: Codec, s: State, r: Record, v: Verdict, p: Plan) returns (a: State, b: State, d: State)
    requires Shape(s) && Positioned(s) && |s.segments| <= 0x1_0000 && Admitted(s, r, v) && (p.rotate ==> p.openNeeded)
    requires CommitRow(c, s, r, v, p).Done?
    ensures a == Reserve(c, s, p, v.added.Some?) && PositionedAt(a, r.shardIndex)
    ensures SeatRow(c, a, r.shardIndex, p.rotate, p.openNeeded) == Some(b)
    ensures d == AddSource(b, v.added, v.source) && Shape(d) && PositionedAt(d, r.shardIndex)
    ensures CommitRow(c, s, r, v, p) == Done(Ok, TakeRow(c, d, r, v))
  {
    a := Reserve(c, s, p, v.added.Some?);
    b := SeatRow(c, a, r.shardIndex, p.rotate, p.openNeeded).value;
    d := AddSource(b, v.added, v.source);
  }

  lemma {:induction false} CommitKeepsStore(c: Codec, s: State, r: Record, v: Verdict, p: Plan)
    requires Lawful(c) && StoreOk(c, s) && Occupied(s) && Positioned(s) && Judged(s, r, v)
    requires Room(s.segments[r.shardIndex], r)
    requires (p.rotate ==> p.openNeeded && s.segments[r.shardIndex].open)
    requires p.openNeeded <==> p.rotate || !s.segments[r.shardIndex].open
    requires CommitRow(c, s, r, v, p).Done?
    ensures CommitRow(c, s, r, v, p).status == Ok && Committed(c, s, CommitRow(c, s, r, v, p).state, r, v)
  {
    var a, b, d := CommitStages(c, s, r, v, p);
    ReserveKeepsStore(c, s, p, v.added.Some?);
    SeatKeepsStore(c, a, r.shardIndex, p.rotate, p.openNeeded);
    CommitReserved(c, a, b, d, r, v);
    CommittedFromReserved(c, s, a, TakeRow(c, d, r, v), r, v);
  }

  // --- The whole operation ------------------------------------------------------------------------

  /** A refused row: at most some pending blocks were written out and the quota mark set. */
  ghost predicate Refusal(c: Codec, s: State, t: State) {
    && StoreOk(c, t) && Occupied(t) && WroteOut(c, s, t)
    && FlushedFrom(s, t.(quotaReached := s.quotaReached))
  }

  lemma {:induction false} RefusalReflexive(c: Codec, s: State)
    requires StoreOk(c, s) && Occupied(s)
    ensures Refusal(c, s, s)
  {
    WroteOutReflexive(c, s);
    FlushedReflexive(s);
  }

  lemma {:induction false} FlushedOccupied(s: State, t: State)
    requires Occupied(s) && FlushedFrom(s, t)
    ensures Occupied(t)
  {
  }

  lemma {:induction false} QuotaMark(c: Codec, s: State, t: State, q: bool)
    requires StoreOk(c, t) && Occupied(t) && WroteOut(c, s, t) && FlushedFrom(s, t)
    ensures Refusal(c, s, t.(quotaReached := q))
  {
    var u := t.(quotaReached := q);
    SameStoreKeeps(c, t, u);
    WroteOutTransitive(c, s, t, u);
    assert u.(quotaReached := s.quotaReached) == t;
  }

  lemma {:induction false} CommittedAfterFlush(c: Codec, s: State, f: State, t: State, r: Record, v: Verdict)
    requires Committed(c, f, t, r, v) && FlushedFrom(s, f) && WroteOut(c, s, f)
    ensures Committed(c, s, t, r, v)
  {
    RowFieldsAfterFlush(s, f, t, r, v);
    forall m | 0 <= m < |s.segments|
      ensures Stream(c, f, m) == Stream(c, s, m)
    {
    }
  }

  lemma {:induction false} RowFieldsAfterFlush(s: State, f: State, t: State, r: Record, v: Verdict)
    requires RowFields(f, t, r, v) && FlushedFrom(s, f)
    ensures RowFields(s, t, r, v)
  {
    forall m | 0 <= m < |s.segments| && m != r.shardIndex
      ensures t.segments[m].previousSequence == s.segments[m].previousSequence
    {
      assert f.segments[m].previousSequence == s.segments[m].previousSequence;
    }
  }

  lemma {:induction false} RefusalAfterFlush(c: Codec, s: State, f: State, t: State)
    requires Refusal(c, f, t) && FlushedFrom(s, f) && WroteOut(c, s, f)
    ensures Refusal(c, s, t)
  {
    WroteOutTransitive(c, s, f, t);
    FlushedTransitive(s, f, t.(quotaReached := f.quotaReached));
  }

  lemma {:induction false} PlanFacts(c: Codec, s: State, r: Record)
    requires r.shardIndex < |s.segments|
    ensures var p := PlanOf(c, s, r);
            && (p.rotate ==> p.openNeeded && s.segments[r.shardIndex].open)
            && (p.openNeeded <==> p.rotate || !s.segments[r.shardIndex].open)
            && (p.rotate ==> s.segments[r.shardIndex].pending == [])
  {
  }

  lemma {:induction false} JudgedFlushed(s: State, f: State, r: Record, v: Verdict)
    requires Judged(s, r, v) && FlushedFrom(s, f)
    ensures Judged(f, r, v)
    ensures Room(s.segments[r.shardIndex], r) ==> Room(f.segments[r.shardIndex], r)
  {
    assert f.segments[r.shardIndex].pending == [] || f.segments[r.shardIndex] == s.segments[r.shardIndex];
  }

  /** The outcome of an append in one statement. */
  ghost predicate AppendAnswer(c: Codec, s: State, o: Outcome, r: Record, v: Verdict) {
    o.Done? ==> if o.status == Ok then Committed(c, s, o.state, r, v) else Refusal(c, s, o.state)
  }

  lemma {:induction false} ReserveRowKeepsStore(c: Codec, s: State, r: Record, v: Verdict)
    requires Lawful(c) && StoreOk(c, s) && Occupied(s) && Positioned(s) && Judged(s, r, v)
    requires Room(s.segments[r.shardIndex], r)
    ensures AppendAnswer(c, s, ReserveRow(c, s, r, v), r, v)
  {
    var p := PlanOf(c, s, r);
    var required := RequiredBytes(c, p, v.added.Some?);
    PlanFacts(c, s, r);
    if Unrepresentable(c, s, p, v.added.Some?) {
      RefusalReflexive(c, s);
    } else if AddWithin(s.projectedBytes, required, s.writeLimitBytes) {
      if CommitRow(c, s, r, v, p).Done? { CommitKeepsStore(c, s, r, v, p); }
    } else if FlushAll(c, s, |s.segments|).Some? {
      var f := FlushAll(c, s, |s.segments|).value;
      FlushAllKeepsStore(c, s, |s.segments|);
      FlushAllFrame(c, s, |s.segments|);
      FlushedOccupied(s, f);
      StorePositioned(c, f);
      JudgedFlushed(s, f, r, v);
      if AddWithin(f.projectedBytes, required, s.writeLimitBytes) {
        if CommitRow(c, f, r, v, p).Done? {
          CommitKeepsStore(c, f, r, v, p);
          CommittedAfterFlush(c, s, f, CommitRow(c, f, r, v, p).state, r, v);
        }
      } else {
        QuotaMark(c, s, f, true);
      }
    }
  }

  lemma {:induction false} AppendedAfterFlush(c: Codec, s: State, f: State, o: Outcome, r: Record, v: Verdict)
    requires AppendAnswer(c, f, o, r, v) && FlushedFrom(s, f) && WroteOut(c, s, f)
    ensures AppendAnswer(c, s, o, r, v)
  {
    if o.Done? {
      if o.status == Ok { CommittedAfterFlush(c, s, f, o.state, r, v); } else { RefusalAfterFlush(c, s, f, o.state); }
    }
  }

  /** After the channel or capacity flush, and before it where none is due, there is room. */
  lemma {:induction false} RoomForRow(c: Codec, s: State, r: Record)
    requires StoreOk(c, s) && r.shardIndex < |s.segments|
    ensures !MustFlush(s.segments[r.shardIndex], r) ==> Room(s.segments[r.shardIndex], r)
  {
    assert SegmentAt(c, s, r.shardIndex);
  }

  /** Stream refinement: an appended row is the next row of its shard's stream and of no other; a
      refused one moves no stream, whatever it forced to disk. */
  lemma {:induction false} AppendRefinesStreams(c: Codec, s: State, r: Record)
    requires Lawful(c) && StoreOk(c, s) && Occupied(s) && Positioned(s)
    ensures Judge(s, r).Accept? ==> AppendAnswer(c, s, Append(c, s, r), r, Judge(s, r))
    ensures Judge(s, r).Reject? ==> Append(c, s, r) == Done(Judge(s, r).status, s)
  {
    var v := Judge(s, r);
    if v.Accept? {
      JudgeIsSound(s, r);
      RoomForRow(c, s, r);
      if MustFlush(s.segments[r.shardIndex], r) {
        if FlushBlock(c, s, r.shardIndex).Some? { AppendAfterFlush(c, s, FlushBlock(c, s, r.shardIndex).value, r, v); }
      } else {
        ReserveRowKeepsStore(c, s, r, v);
      }
    }
  }

  lemma {:induction false} AppendAfterFlush(c: Codec, s: State, f: State, r: Record, v: Verdict)
    requires Lawful(c) && StoreOk(c, s) && Occupied(s) && Judged(s, r, v) && FlushBlock(c, s, r.shardIndex) == Some(f)
    ensures Positioned(f) && Shape(f) && |f.segments| == |s.segments| && Admitted(f, r, v)
    ensures AppendAnswer(c, s, ReserveRow(c, f, r, v), r, v)
  {
    FlushKeepsStore(c, s, r.shardIndex);
    FlushBlockFrame(c, s, r.shardIndex);
    FlushedOccupied(s, f);
    StorePositioned(c, f);
    JudgedFlushed(s, f, r, v);
    ReserveRowKeepsStore(c, f, r, v);
    AppendedAfterFlush(c, s, f, ReserveRow(c, f, r, v), r, v);
  }
}
